/**
 The run table. Rows are in the order they were inserted; the statements of the store
 are modelled by their effect on them.
*/
module RunStore {
  import opened Wrappers

  datatype Status = Queued | Running | Success | Failed | Cancelled | Interrupted

  predicate IsLive(s: Status) {
    s == Queued || s == Running
  }

  datatype RunRecord = RunRecord(
    id: string,
    jobId: Option<string>,
    trigger: string,
    status: Status,
    startedAt: Option<nat>,
    finishedAt: Option<nat>,
    result: string,
    error: string,
    queuedAt: Option<nat>)

  /** A row: the record and the process that inserted it, if known. */
  datatype Row = Row(run: RunRecord, owner: Option<string>)

  predicate HasRow(rows: seq<Row>, id: string) {
    exists i :: 0 <= i < |rows| && rows[i].run.id == id
  }

  // ---- Statements ----

  /** What an update writes: never the id, job, trigger and acceptance time. */
  function Written(row: Row, run: RunRecord): Row {
    row.(run := row.run.(status := run.status, startedAt := run.startedAt, finishedAt := run.finishedAt,
                         result := run.result, error := run.error))
  }

  /** UPDATE ... WHERE id = ? AND status is live */
  function Updated(rows: seq<Row>, run: RunRecord): (r: seq<Row>)
    ensures |r| == |rows|
  {
    seq(|rows|, i requires 0 <= i < |rows| =>
      if rows[i].run.id == run.id && IsLive(rows[i].run.status) then Written(rows[i], run) else rows[i])
  }

  /** UPDATE ... WHERE status is live AND the owner is not this process */
  function Marked(rows: seq<Row>, owner: string, now: nat, reason: string): (r: seq<Row>)
    ensures |r| == |rows|
  {
    seq(|rows|, i requires 0 <= i < |rows| =>
      if IsLive(rows[i].run.status) && rows[i].owner != Some(owner)
      then rows[i].(run := rows[i].run.(status := Interrupted, finishedAt := Some(now), error := reason))
      else rows[i])
  }

  function AcceptedAt(row: Row): nat {
    if row.run.queuedAt.Some? then row.run.queuedAt.value else 0
  }

  /** Row i comes before row j in ORDER BY queued_at DESC, rowid DESC. */
  predicate IsNewer(rows: seq<Row>, i: nat, j: nat)
    requires i < |rows| && j < |rows|
  {
    AcceptedAt(rows[i]) > AcceptedAt(rows[j]) || (AcceptedAt(rows[i]) == AcceptedAt(rows[j]) && i > j)
  }

  function Finals(rows: seq<Row>): set<nat> {
    set i: nat | i < |rows| && !IsLive(rows[i].run.status)
  }

  function NewerOf(rows: seq<Row>, among: set<nat>, j: nat): set<nat>
    requires j < |rows| && forall i :: i in among ==> i < |rows|
  {
    set i | i in among && IsNewer(rows, i, j)
  }

  /** DELETE ... WHERE the status is final, OFFSET keep */
  predicate IsPruned(rows: seq<Row>, keep: nat, i: nat)
    requires i < |rows|
  {
    i in Finals(rows) && |NewerOf(rows, Finals(rows), i)| >= keep
  }

  function KeptOf(rows: seq<Row>, keep: nat, n: nat): seq<Row>
    requires n <= |rows|
  {
    if n == 0 then []
    else KeptOf(rows, keep, n - 1) + if IsPruned(rows, keep, n - 1) then [] else [rows[n - 1]]
  }

  function Pruned(rows: seq<Row>, keep: nat): seq<Row> {
    KeptOf(rows, keep, |rows|)
  }

  // ---- What pruning keeps ----

  /** The oldest of some rows. */
  lemma {:induction false} Oldest(rows: seq<Row>, among: set<nat>) returns (o: nat)
    requires among != {} && forall i :: i in among ==> i < |rows|
    ensures o in among && forall i :: i in among && i != o ==> IsNewer(rows, i, o)
    decreases |among|
  {
    var x :| x in among;
    assert among == {x} + (among - {x});
    if among - {x} == {} {
      o := x;
    } else {
      o := Oldest(rows, among - {x});
      if IsNewer(rows, o, x) {
        o := x;
      }
    }
  }

  function Newest(rows: seq<Row>, among: set<nat>, k: nat): set<nat>
    requires forall i :: i in among ==> i < |rows|
  {
    set i | i in among && |NewerOf(rows, among, i)| < k
  }

  /** The oldest row counts for none of the others. */
  lemma WithoutOldest(rows: seq<Row>, among: set<nat>, o: nat, k: nat)
    requires forall i :: i in among ==> i < |rows|
    requires o in among && forall i :: i in among && i != o ==> IsNewer(rows, i, o)
    ensures Newest(rows, among, k) == Newest(rows, among - {o}, k) + if |among| <= k then {o} else {}
  {
    var rest := among - {o};
    assert NewerOf(rows, among, o) == rest;
    forall i | i in rest ensures NewerOf(rows, among, i) == NewerOf(rows, rest, i) {
      assert IsNewer(rows, i, o);
    }
  }

  /** Of any rows, as many have fewer than k newer ones among them as there are, up to k. */
  lemma {:induction false} NewestCount(rows: seq<Row>, among: set<nat>, k: nat)
    requires forall i :: i in among ==> i < |rows|
    ensures |Newest(rows, among, k)| == if k < |among| then k else |among|
    decreases |among|
  {
    if among == {} {
      assert Newest(rows, among, k) == {};
    } else {
      var o := Oldest(rows, among);
      WithoutOldest(rows, among, o, k);
      NewestCount(rows, among - {o}, k);
      assert o !in Newest(rows, among - {o}, k);
    }
  }

  /** Pruning leaves as many final runs as it is told to keep, if there are that many. */
  lemma PruneKeeps(rows: seq<Row>, keep: nat)
    ensures |set i: nat | i in Finals(rows) && !IsPruned(rows, keep, i)| ==
            if keep < |Finals(rows)| then keep else |Finals(rows)|
  {
    NewestCount(rows, Finals(rows), keep);
    assert (set i: nat | i in Finals(rows) && !IsPruned(rows, keep, i)) == Newest(rows, Finals(rows), keep);
  }

  /** Only final runs are deleted, and every final run left is newer than every deleted one. */
  lemma PruneDeletesOldest(rows: seq<Row>, keep: nat, i: nat, j: nat)
    requires i < |rows| && j < |rows| && IsPruned(rows, keep, j) && !IsPruned(rows, keep, i)
    ensures !IsLive(rows[j].run.status)
    ensures !IsLive(rows[i].run.status) ==> IsNewer(rows, i, j)
  {
    if !IsLive(rows[i].run.status) && IsNewer(rows, j, i) {
      var finals := Finals(rows);
      Subset(NewerOf(rows, finals, j), NewerOf(rows, finals, i));
    }
  }

  lemma {:induction false} Subset(a: set<nat>, b: set<nat>)
    requires a <= b
    ensures |a| <= |b|
    decreases |a|
  {
    if a != {} {
      var x :| x in a;
      Subset(a - {x}, b - {x});
    }
  }

  /** The rows left are the rows not deleted, in their order. */
  lemma {:induction false} KeptExactly(rows: seq<Row>, keep: nat, n: nat, row: Row)
    requires n <= |rows|
    ensures row in KeptOf(rows, keep, n) <==> exists i :: 0 <= i < n && rows[i] == row && !IsPruned(rows, keep, i)
  {
    if n > 0 {
      KeptExactly(rows, keep, n - 1, row);
    }
  }

  // ---- Looking a run up ----

  function Get(rows: seq<Row>, id: string): (r: Option<Row>)
    ensures r.Some? <==> HasRow(rows, id)
    ensures r.Some? ==> r.value in rows && r.value.run.id == id
  {
    if rows == [] then None
    else if rows[|rows| - 1].run.id == id then Some(rows[|rows| - 1])
    else
      var r := Get(rows[..|rows| - 1], id);
      assert HasRow(rows[..|rows| - 1], id) <==> HasRow(rows, id);
      r
  }

  ghost predicate UniqueIds(rows: seq<Row>) {
    forall i, j :: 0 <= i < j < |rows| ==> rows[i].run.id != rows[j].run.id
  }

  lemma {:induction false} GetIs(rows: seq<Row>, i: nat)
    requires UniqueIds(rows) && i < |rows|
    ensures Get(rows, rows[i].run.id) == Some(rows[i])
  {
    if i < |rows| - 1 {
      GetIs(rows[..|rows| - 1], i);
    }
  }

  lemma GetOfInserted(rows: seq<Row>, row: Row, id: string)
    ensures Get(rows + [row], id) == if id == row.run.id then Some(row) else Get(rows, id)
  {
    assert (rows + [row])[..|rows|] == rows;
  }

  /** The progress is another's; id, job, trigger, acceptance time and owner stay. */
  predicate HasProgressOf(after: Row, before: Row, run: RunRecord) {
    && after.run.id == before.run.id && after.run.jobId == before.run.jobId && after.run.trigger == before.run.trigger
    && after.run.queuedAt == before.run.queuedAt && after.owner == before.owner
    && after.run.status == run.status && after.run.result == run.result && after.run.error == run.error
    && after.run.startedAt == run.startedAt && after.run.finishedAt == run.finishedAt
  }

  /** An update rewrites the progress of a live run with that id, and nothing else. */
  lemma RowOfUpdated(rows: seq<Row>, run: RunRecord, id: string)
    ensures
      var before, after := Get(rows, id), Get(Updated(rows, run), id);
      if before.Some? && id == run.id && IsLive(before.value.run.status)
      then after.Some? && HasProgressOf(after.value, before.value, run)
      else after == before
  {
    GetOfUpdated(rows, run, id);
  }

  /** A live run's row is rewritten, a final run's never. */
  lemma {:induction false} GetOfUpdated(rows: seq<Row>, run: RunRecord, id: string)
    ensures Get(Updated(rows, run), id) ==
            match Get(rows, id)
            case None => None
            case Some(row) => if id == run.id && IsLive(row.run.status) then Some(Written(row, run)) else Some(row)
  {
    var n := |rows| - 1;
    if rows != [] {
      assert Updated(rows, run)[..n] == Updated(rows[..n], run);
      GetOfUpdated(rows[..n], run, id);
    }
  }

  /** Only live runs of other processes are marked. */
  lemma {:induction false} GetOfMarked(rows: seq<Row>, owner: string, now: nat, reason: string, id: string)
    ensures
      var before, after := Get(rows, id), Get(Marked(rows, owner, now, reason), id);
      && (before.Some? <==> after.Some?)
      && (before.Some? && (!IsLive(before.value.run.status) || before.value.owner == Some(owner)) ==> after == before)
      && (before.Some? && IsLive(before.value.run.status) && before.value.owner != Some(owner) ==>
            && after.value.owner == before.value.owner
            && after.value.run == before.value.run.(status := Interrupted, finishedAt := Some(now), error := reason))
  {
    var n := |rows| - 1;
    if rows != [] {
      assert Marked(rows, owner, now, reason)[..n] == Marked(rows[..n], owner, now, reason);
      GetOfMarked(rows[..n], owner, now, reason, id);
    }
  }

  lemma {:induction false} KeptIdsAreUnique(rows: seq<Row>, keep: nat, n: nat)
    requires UniqueIds(rows) && n <= |rows|
    ensures UniqueIds(KeptOf(rows, keep, n))
  {
    if n > 0 {
      KeptIdsAreUnique(rows, keep, n - 1);
      var kept := KeptOf(rows, keep, n - 1);
      forall k | 0 <= k < |kept| ensures kept[k].run.id != rows[n - 1].run.id {
        KeptExactly(rows, keep, n - 1, kept[k]);
      }
    }
  }

  /** Pruning leaves a run as it is, or deletes it, and then it was final. */
  lemma GetOfPruned(rows: seq<Row>, keep: nat, id: string)
    requires UniqueIds(rows)
    ensures UniqueIds(Pruned(rows, keep))
    ensures
      var before, after := Get(rows, id), Get(Pruned(rows, keep), id);
      after == before || (after == None && before.Some? && !IsLive(before.value.run.status))
  {
    KeptIdsAreUnique(rows, keep, |rows|);
    var kept := Pruned(rows, keep);
    var before := Get(rows, id);
    if before.Some? {
      var i :| 0 <= i < |rows| && rows[i] == before.value;
      KeptExactly(rows, keep, |rows|, rows[i]);
      if k :| 0 <= k < |kept| && kept[k].run.id == id {
        KeptExactly(rows, keep, |rows|, kept[k]);
        GetIs(kept, k);
      }
    } else if k :| 0 <= k < |kept| && kept[k].run.id == id {
      KeptExactly(rows, keep, |rows|, kept[k]);
      assert HasRow(rows, id);
    }
  }

  // ---- The store ----

  /** Insert gives the run an id and an acceptance time if it has none. */
  function Accepted(run: RunRecord, freshId: string, now: nat): RunRecord {
    run.(id := if run.id == "" then freshId else run.id,
         queuedAt := if run.queuedAt.None? then Some(now) else run.queuedAt)
  }

  /** Prune every tenth of the limit, at least every insert and at most every hundred. */
  function PruneInterval(maxRuns: nat): nat {
    if maxRuns / 10 < 1 then 1 else if maxRuns / 10 > 100 then 100 else maxRuns / 10
  }

  class RunStore {
    const owner: string
    const maxRuns: nat
    var rows: seq<Row>
    var insertsSincePrune: nat

    ghost predicate Valid()
      reads this
    {
      UniqueIds(rows)
    }

    constructor (owner: string, maxRuns: nat, rows: seq<Row>)
      requires UniqueIds(rows)
      ensures Valid() && this.owner == owner && this.maxRuns == maxRuns && this.rows == rows
    {
      this.owner, this.maxRuns, this.rows, insertsSincePrune := owner, maxRuns, rows, 0;
    }

    /** Inserts a run, unless the statement fails or its id is taken; prunes now and then. */
    method InsertRun(run: RunRecord, freshId: string, now: nat, fails: bool) returns (stored: bool, r: RunRecord)
      requires Valid()
      modifies this
      ensures Valid() && r == Accepted(run, freshId, now)
      ensures stored <==> !fails && !HasRow(old(rows), r.id)
      ensures !stored ==> rows == old(rows)
      ensures stored ==>
                var inserted := old(rows) + [Row(r, Some(owner))];
                var due := maxRuns > 0 && old(insertsSincePrune) + 1 >= PruneInterval(maxRuns);
                && rows == (if due then Pruned(inserted, maxRuns) else inserted)
                && insertsSincePrune == (if maxRuns == 0 then old(insertsSincePrune)
                                         else if due then 0 else old(insertsSincePrune) + 1)
      ensures stored && IsLive(r.status) ==> Get(rows, r.id) == Some(Row(r, Some(owner)))
    {
      r := run;
      if r.id == "" { r := r.(id := freshId); }
      if r.queuedAt.None? { r := r.(queuedAt := Some(now)); }
      if fails || HasRow(rows, r.id) {
        return false, r;
      }
      ghost var row := Row(r, Some(owner));
      GetOfInserted(rows, row, r.id);
      rows := rows + [Row(r, Some(owner))];
      if maxRuns > 0 {
        insertsSincePrune := insertsSincePrune + 1;
        if insertsSincePrune >= PruneInterval(maxRuns) {
          insertsSincePrune := 0;
          GetOfPruned(rows, maxRuns, r.id);
          rows := Pruned(rows, maxRuns);
        }
      }
      stored := true;
    }

    /** Rewrites a live run's row; false if there is none, or the statement fails. */
    method UpdateRun(run: RunRecord, fails: bool) returns (ok: bool)
      requires Valid()
      modifies `rows
      ensures Valid() && rows == if fails then old(rows) else Updated(old(rows), run)
      ensures ok <==> !fails && HasRow(old(rows), run.id) && IsLive(Get(old(rows), run.id).value.run.status)
    {
      if fails {
        return false;
      }
      var row := Get(rows, run.id);
      ok := row.Some? && IsLive(row.value.run.status);
      rows := Updated(rows, run);
    }

    /** Marks the live runs other processes have left. */
    method MarkInterruptedRuns(now: nat, reason: string, fails: bool) returns (count: nat)
      requires Valid()
      modifies `rows
      ensures Valid() && rows == if fails then old(rows) else Marked(old(rows), owner, now, reason)
      ensures count ==
              if fails then 0
              else |set i: nat | i < |old(rows)| && IsLive(old(rows)[i].run.status) &&
                               old(rows)[i].owner != Some(owner)|
    {
      if fails {
        return 0;
      }
      count := |set i: nat | i < |rows| && IsLive(rows[i].run.status) && rows[i].owner != Some(owner)|;
      rows := Marked(rows, owner, now, reason);
    }

    /** Deletes the oldest final runs beyond `keep`. */
    method PruneRuns(keep: nat, fails: bool)
      requires Valid()
      modifies `rows
      ensures Valid() && rows == if fails then old(rows) else Pruned(old(rows), keep)
    {
      if !fails {
        KeptIdsAreUnique(rows, keep, |rows|);
        rows := Pruned(rows, keep);
      }
    }
  }
}
