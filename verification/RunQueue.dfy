/**
 The run queue as its threads see it: every critical section and every call to the
 store is one event, and events of different threads come in any order.
*/
module RunQueue {
  import opened Wrappers
  import opened RunStore
  import JobService

  // ---- The state ----

  datatype Config = Config(maxConcurrent: nat, maxQueued: nat)

  /** How far a runner is with the run it holds. */
  datatype Stage =
    | Picked
    | Executing(record: RunRecord)
    | Concluded(record: RunRecord)
    | Stored(record: RunRecord)
    | Completed

  datatype Sweeper = BySubmit | ByCancel | ByStop

  /** The thread that is responsible for a run, and how far it is with it. */
  datatype Phase =
    | Persisting                                                // submit has stored it, and not yet enqueued it
    | InQueue
    | Held(runner: nat, stage: Stage)
    | Sweeping(sweeper: Sweeper, record: Option<RunRecord>)     // finish_cancelled; Some once it has written
    | Done

  datatype Runner = Waiting | Busy(id: string) | Exited

  /** A run's record as accepted, its stop token, and its final record once there is one. */
  datatype Tracker = Tracker(run: RunRecord, stop: bool, final: Option<RunRecord>)

  /**
   `asking` counts the submit calls that hold a slot and have not stored their run,
   `failed` those whose run could not be stored. `enqueued`, `started`, `dropped` and
   `completions` record what has happened.
  */
  datatype Queue = Queue(
    queue: seq<string>,
    active: set<string>,
    running: nat,
    reserved: nat,
    stopping: bool,
    trackers: map<string, Tracker>,
    runners: seq<Runner>,
    asking: nat,
    failed: nat,
    storing: set<string>,
    phase: map<string, Phase>,
    enqueued: seq<string>,
    started: seq<string>,
    dropped: set<string>,
    completions: multiset<string>)

  /** The run table; `finals` records the final rows ever stored, `writesOk` that no status write has failed. */
  datatype Table = Table(rows: seq<Row>, finals: map<string, RunRecord>, writesOk: bool)

  datatype State = State(q: Queue, t: Table)

  ghost function Start(c: Config, rows: seq<Row>): State
    requires UniqueIds(rows)
  {
    State(
      Queue([], {}, 0, 0, false, map[], seq(c.maxConcurrent, r => Waiting), 0, 0, {}, map[], [], [], {}, multiset{}),
      Table(rows, map id | id in FinalIds(rows) :: Get(rows, id).value.run, true))
  }

  function FinalIds(rows: seq<Row>): (ids: set<string>)
    ensures forall id :: id in ids ==> HasRow(rows, id)
  {
    set i: nat | i < |rows| && !IsLive(rows[i].run.status) :: rows[i].run.id
  }

  // ---- Sequences without some of their elements ----

  function Kept(s: seq<string>, drop: set<string>): seq<string> {
    if s == [] then []
    else Kept(s[..|s| - 1], drop) + if s[|s| - 1] in drop then [] else [s[|s| - 1]]
  }

  lemma {:induction false} KeptHas(s: seq<string>, drop: set<string>, x: string)
    ensures x in Kept(s, drop) <==> x in s && x !in drop
  {
    if s != [] {
      KeptHas(s[..|s| - 1], drop, x);
    }
  }

  predicate Distinct(s: seq<string>) {
    forall i, j :: 0 <= i < j < |s| ==> s[i] != s[j]
  }

  lemma {:induction false} KeptTwice(s: seq<string>, a: set<string>, b: set<string>)
    ensures Kept(s, a + b) == Kept(Kept(s, a), b)
  {
    if s != [] {
      var front, last := s[..|s| - 1], s[|s| - 1];
      KeptTwice(front, a, b);
      if last in a {
        assert Kept(s, a) == Kept(front, a);
      } else {
        assert (Kept(front, a) + [last])[..|Kept(front, a)|] == Kept(front, a);
      }
    }
  }

  lemma {:induction false} KeptConcat(s: seq<string>, t: seq<string>, drop: set<string>)
    ensures Kept(s + t, drop) == Kept(s, drop) + Kept(t, drop)
  {
    if t == [] {
      assert s + t == s;
    } else {
      assert (s + t)[..|s + t| - 1] == s + t[..|t| - 1];
      KeptConcat(s, t[..|t| - 1], drop);
    }
  }

  lemma {:induction false} KeptAll(s: seq<string>, drop: set<string>)
    requires forall x :: x in s ==> x !in drop
    ensures Kept(s, drop) == s
  {
    if s != [] {
      KeptAll(s[..|s| - 1], drop);
    }
  }

  lemma {:induction false} KeptDistinct(s: seq<string>, drop: set<string>)
    requires Distinct(s)
    ensures Distinct(Kept(s, drop))
  {
    if s != [] {
      KeptDistinct(s[..|s| - 1], drop);
      KeptHas(s[..|s| - 1], drop, s[|s| - 1]);
    }
  }

  /** Erasing the one occurrence of an id. */
  lemma {:induction false} EraseIsKept(s: seq<string>, i: nat)
    requires Distinct(s) && i < |s|
    ensures s[..i] + s[i + 1..] == Kept(s, {s[i]})
  {
    var front, last := s[..|s| - 1], s[|s| - 1];
    if i == |s| - 1 {
      KeptAll(front, {last});
    } else {
      EraseIsKept(front, i);
      assert s[..i] + s[i + 1..] == (front[..i] + front[i + 1..]) + [last];
    }
  }

  // ---- Counting runners ----

  function BusyCount(runners: seq<Runner>): (n: nat)
    ensures n <= |runners|
  {
    if runners == [] then 0
    else BusyCount(runners[..|runners| - 1]) + if runners[|runners| - 1].Busy? then 1 else 0
  }

  lemma {:induction false} BusyCountOfUpdate(runners: seq<Runner>, r: nat, x: Runner)
    requires r < |runners|
    ensures BusyCount(runners[r := x]) ==
            BusyCount(runners) - (if runners[r].Busy? then 1 else 0) + (if x.Busy? then 1 else 0)
  {
    var n := |runners| - 1;
    if r == n {
      assert runners[r := x][..n] == runners[..n];
    } else {
      assert runners[r := x][..n] == runners[..n][r := x];
      BusyCountOfUpdate(runners[..n], r, x);
    }
  }

  lemma {:induction false} NoneBusy(runners: seq<Runner>)
    requires forall r :: 0 <= r < |runners| ==> !runners[r].Busy?
    ensures BusyCount(runners) == 0
  {
    if runners != [] {
      NoneBusy(runners[..|runners| - 1]);
    }
  }

  // ---- Events ----

  datatype Event =
    | Ask                                                       // submit: a slot is free, hold it
    | Insert(run: RunRecord)                                    // submit: the run is stored
    | InsertFails
    | GiveUp                                                    // submit: let go of the slot of a run not stored
    | Enqueue(id: string)                                       // submit: queue the run
    | Refuse(id: string)                                        // submit: stop has come between
    | Pick(runner: nat)
    | MarkRunning(runner: nat, now: nat, fails: bool)
    | Conclude(runner: nat, engine: JobService.EngineOutcome, shutdown: bool, now: nat)
    | StoreFinal(runner: nat, fails: bool, fallbackFails: bool)
    | Complete(runner: nat)
    | Release(runner: nat)
    | Exit(runner: nat)
    | CancelQueued(id: string)
    | CancelRunning(id: string)
    | Stop
    | SweepStore(id: string, reason: string, now: nat, fails: bool)
    | SweepComplete(id: string)
    | Prune(keep: nat)

  /** submit's admission test, as it is computed. */
  predicate IsFull(c: Config, q: Queue) {
    var idleRunners := c.maxConcurrent - q.running;
    |q.queue| + q.reserved >= c.maxQueued + idleRunners
  }

  predicate IsHeld(q: Queue, r: nat) {
    r < |q.runners| && q.runners[r].Busy? && q.runners[r].id in q.phase && q.phase[q.runners[r].id].Held?
    && q.phase[q.runners[r].id].runner == r && q.runners[r].id in q.trackers
  }

  function StageOf(q: Queue, r: nat): Stage
    requires IsHeld(q, r)
  {
    q.phase[q.runners[r].id].stage
  }

  predicate IsSwept(q: Queue, id: string) {
    id in q.phase && q.phase[id].Sweeping? && id in q.trackers
  }

  predicate CanQueue(c: Config, q: Queue, e: Event) {
    match e
    case Ask => !q.stopping && !IsFull(c, q)
    case Insert(run) => q.asking > 0 && run.status == Queued && run.id !in q.phase
    case InsertFails => q.asking > 0
    case GiveUp => q.failed > 0 && q.reserved > 0
    case Enqueue(id) => id in q.storing && !q.stopping && q.reserved > 0
    case Refuse(id) => id in q.storing && q.stopping && q.reserved > 0
    case Pick(r) => r < |q.runners| && q.runners[r] == Waiting && q.queue != []
    case MarkRunning(r, _, _) => IsHeld(q, r) && StageOf(q, r) == Picked
    case Conclude(r, _, _, _) => IsHeld(q, r) && StageOf(q, r).Executing?
    case StoreFinal(r, _, _) => IsHeld(q, r) && StageOf(q, r).Concluded?
    case Complete(r) => IsHeld(q, r) && StageOf(q, r).Stored?
    case Release(r) => IsHeld(q, r) && StageOf(q, r) == Completed && q.running > 0
    case Exit(r) => r < |q.runners| && q.runners[r] == Waiting && q.stopping && q.queue == []
    case CancelQueued(id) => id in q.queue
    case CancelRunning(id) => id !in q.queue && id in q.active && id in q.trackers
    case Stop => !q.stopping
    case SweepStore(id, _, _, _) => IsSwept(q, id) && q.phase[id].record.None?
    case SweepComplete(id) => IsSwept(q, id) && q.phase[id].record.Some?
    case Prune(_) => true
  }

  // ---- What the critical sections do ----

  function AtStage(q: Queue, r: nat, stage: Stage): Queue
    requires IsHeld(q, r)
  {
    q.(phase := q.phase[q.runners[r].id := Held(r, stage)])
  }

  function WithFinal(q: Queue, id: string, record: RunRecord): Queue
    requires id in q.trackers
  {
    q.(trackers := q.trackers[id := q.trackers[id].(final := Some(record))],
       completions := q.completions + multiset{id})
  }

  function Asked(q: Queue): Queue {
    q.(asking := q.asking + 1, reserved := q.reserved + 1)
  }

  function GivenUp(q: Queue): Queue
    requires q.failed > 0 && q.reserved > 0
  {
    q.(failed := q.failed - 1, reserved := q.reserved - 1)
  }

  function Inserted(q: Queue, run: RunRecord): Queue
    requires q.asking > 0
  {
    q.(asking := q.asking - 1, storing := q.storing + {run.id},
       trackers := q.trackers[run.id := Tracker(run, false, None)],
       phase := q.phase[run.id := Persisting])
  }

  function Enqueued(q: Queue, id: string): Queue
    requires q.reserved > 0
  {
    q.(reserved := q.reserved - 1, storing := q.storing - {id}, active := q.active + {id},
       queue := q.queue + [id], enqueued := q.enqueued + [id], phase := q.phase[id := InQueue])
  }

  function Refused(q: Queue, id: string): Queue
    requires q.reserved > 0
  {
    q.(reserved := q.reserved - 1, storing := q.storing - {id}, dropped := q.dropped + {id},
       phase := q.phase[id := Sweeping(BySubmit, None)])
  }

  function PickedUp(q: Queue, r: nat): Queue
    requires r < |q.runners| && q.queue != []
  {
    var id := q.queue[0];
    q.(queue := q.queue[1..], running := q.running + 1, runners := q.runners[r := Busy(id)],
       started := q.started + [id], phase := q.phase[id := Held(r, Picked)])
  }

  function Released(q: Queue, r: nat): Queue
    requires IsHeld(q, r) && q.running > 0
  {
    var id := q.runners[r].id;
    q.(running := q.running - 1, active := q.active - {id}, runners := q.runners[r := Waiting],
       phase := q.phase[id := Done])
  }

  /** Runs taken out of the queue and out of the active ones, to be recorded as cancelled. */
  function Dropped(q: Queue, ids: set<string>, sweeper: Sweeper): Queue {
    q.(queue := Kept(q.queue, ids), active := q.active - ids, dropped := q.dropped + ids,
       phase := map id | id in q.phase :: if id in ids then Sweeping(sweeper, None) else q.phase[id])
  }

  function StopRequested(q: Queue, ids: set<string>): Queue {
    q.(trackers := map id | id in q.trackers :: if id in ids then q.trackers[id].(stop := true) else q.trackers[id])
  }

  function ElementsOf(s: seq<string>): set<string> {
    set x | x in s
  }

  function Stopped(q: Queue): Queue {
    var swept := Dropped(q, ElementsOf(q.queue), ByStop);
    StopRequested(swept, swept.active).(stopping := true)
  }

  // ---- Admission ----

  /** The counters count what they stand for, and the bound holds. */
  ghost predicate Counts(c: Config, q: Queue) {
    && |q.runners| == c.maxConcurrent
    && q.running == BusyCount(q.runners)
    && q.reserved == q.asking + q.failed + |q.storing|
    && |q.queue| + q.reserved + q.running <= c.maxQueued + c.maxConcurrent
  }

  /** No more runs execute than there are runners, and a submit is refused exactly at the bound. */
  lemma FullExactlyAtBound(c: Config, q: Queue)
    requires Counts(c, q)
    ensures q.running <= c.maxConcurrent
    ensures IsFull(c, q) <==> |q.queue| + q.reserved + q.running == c.maxQueued + c.maxConcurrent
  {
  }

  lemma {:induction false} KeptLength(s: seq<string>, drop: set<string>)
    ensures |Kept(s, drop)| <= |s|
  {
    if s != [] {
      KeptLength(s[..|s| - 1], drop);
    }
  }

  // ---- Ownership ----

  /** A run is in the queue, or its runner has not let go of it yet. */
  predicate IsActive(p: Phase) {
    p == InQueue || p.Held?
  }

  /** The queue, the active runs, the runners and the submit calls hold the runs they are responsible for. */
  ghost predicate Places(q: Queue) {
    && q.phase.Keys == q.trackers.Keys
    && (forall id :: id in q.storing <==> id in q.phase && q.phase[id] == Persisting)
    && (forall id :: id in q.queue <==> id in q.phase && q.phase[id] == InQueue)
    && Distinct(q.queue)
    && (forall r :: 0 <= r < |q.runners| && q.runners[r].Busy? ==> IsHeld(q, r))
    && (forall id :: id in q.phase && q.phase[id].Held? ==>
          q.phase[id].runner < |q.runners| && q.runners[q.phase[id].runner] == Busy(id))
    && (forall id :: id in q.active <==> id in q.phase && IsActive(q.phase[id]))
  }

  lemma EnqueueKeepsPlaces(q: Queue, id: string)
    requires Places(q) && id in q.storing && q.reserved > 0
    ensures Places(Enqueued(q, id))
  {
    var q' := Enqueued(q, id);
    forall x ensures x in q'.queue <==> x in q'.phase && q'.phase[x] == InQueue {
      assert x in q'.queue <==> x in q.queue || x == id;
    }
  }

  lemma PickKeepsPlaces(q: Queue, r: nat)
    requires Places(q) && r < |q.runners| && q.runners[r] == Waiting && q.queue != []
    ensures Places(PickedUp(q, r))
  {
    var id := q.queue[0];
    var q' := PickedUp(q, r);
    forall x ensures x in q'.queue <==> x in q'.phase && q'.phase[x] == InQueue {
      assert x in q.queue <==> x == id || x in q.queue[1..];
      assert id !in q.queue[1..];
    }
    assert id in q.queue;
    forall s | 0 <= s < |q.runners| && q'.runners[s].Busy? ensures IsHeld(q', s) {
      if s != r { assert IsHeld(q, s); }
    }
  }

  lemma InsertKeepsPlaces(q: Queue, run: RunRecord)
    requires Places(q) && q.asking > 0 && run.id !in q.phase
    ensures Places(Inserted(q, run))
  {
    var q' := Inserted(q, run);
    forall s | 0 <= s < |q.runners| && q'.runners[s].Busy? ensures IsHeld(q', s) {
      assert IsHeld(q, s);
    }
  }

  lemma RefuseKeepsPlaces(q: Queue, id: string)
    requires Places(q) && id in q.storing && q.reserved > 0
    ensures Places(Refused(q, id))
  {
    var q' := Refused(q, id);
    forall s | 0 <= s < |q.runners| && q'.runners[s].Busy? ensures IsHeld(q', s) {
      assert IsHeld(q, s);
    }
  }

  lemma StageKeepsPlaces(q: Queue, r: nat, stage: Stage)
    requires Places(q) && IsHeld(q, r)
    ensures Places(AtStage(q, r, stage))
  {
    var q' := AtStage(q, r, stage);
    forall s | 0 <= s < |q.runners| && q'.runners[s].Busy? ensures IsHeld(q', s) {
      assert IsHeld(q, s);
    }
  }

  lemma ReleaseKeepsPlaces(q: Queue, r: nat)
    requires Places(q) && IsHeld(q, r) && q.running > 0
    ensures Places(Released(q, r))
  {
    var q' := Released(q, r);
    forall s | 0 <= s < |q.runners| && q'.runners[s].Busy? ensures IsHeld(q', s) {
      assert IsHeld(q, s);
    }
  }

  lemma DropKeepsPlaces(q: Queue, ids: set<string>, sweeper: Sweeper)
    requires Places(q) && forall id :: id in ids ==> id in q.queue
    ensures Places(Dropped(q, ids, sweeper))
  {
    var q' := Dropped(q, ids, sweeper);
    KeptDistinct(q.queue, ids);
    forall x ensures x in q'.queue <==> x in q'.phase && q'.phase[x] == InQueue {
      KeptHas(q.queue, ids, x);
    }
    forall s | 0 <= s < |q.runners| && q'.runners[s].Busy? ensures IsHeld(q', s) {
      assert IsHeld(q, s);
    }
    assert q'.phase.Keys == q.phase.Keys;
  }

  lemma StopRequestKeepsPlaces(q: Queue, ids: set<string>)
    requires Places(q)
    ensures Places(StopRequested(q, ids))
  {
    var q' := StopRequested(q, ids);
    assert q'.trackers.Keys == q.trackers.Keys;
    forall s | 0 <= s < |q.runners| && q'.runners[s].Busy? ensures IsHeld(q', s) {
      assert IsHeld(q, s);
    }
  }

  /** The final record of a run its runner or its sweeper completes. */
  lemma FinalKeepsPlaces(q: Queue, id: string, record: RunRecord)
    requires Places(q) && id in q.trackers
    ensures Places(WithFinal(q, id, record))
  {
    var q' := WithFinal(q, id, record);
    assert q'.trackers.Keys == q.trackers.Keys;
    forall s | 0 <= s < |q.runners| && q'.runners[s].Busy? ensures IsHeld(q', s) {
      assert IsHeld(q, s);
    }
  }

  lemma SweepKeepsPlaces(q: Queue, id: string, p: Phase)
    requires Places(q) && IsSwept(q, id) && (p.Sweeping? || p == Done)
    ensures Places(q.(phase := q.phase[id := p]))
  {
    var q' := q.(phase := q.phase[id := p]);
    forall s | 0 <= s < |q.runners| && q'.runners[s].Busy? ensures IsHeld(q', s) {
      assert IsHeld(q, s);
    }
  }

  lemma ExitKeepsPlaces(q: Queue, r: nat)
    requires Places(q) && r < |q.runners| && q.runners[r] == Waiting
    ensures Places(q.(runners := q.runners[r := Exited]))
  {
    var q' := q.(runners := q.runners[r := Exited]);
    forall s | 0 <= s < |q.runners| && q'.runners[s].Busy? ensures IsHeld(q', s) {
      assert IsHeld(q, s);
    }
  }

  // ---- Completion ----

  predicate IsOver(p: Phase) {
    p == Done || (p.Held? && p.stage == Completed)
  }

  /** A tracker is completed exactly when its run is over, and then once; after stop
      every run still held has been asked to stop, and none is queued. */
  ghost predicate Completions(q: Queue) {
    && (forall id :: id in q.phase && id in q.trackers ==> (q.trackers[id].final.Some? <==> IsOver(q.phase[id])))
    && (forall id :: id in q.phase ==> q.completions[id] == if IsOver(q.phase[id]) then 1 else 0)
    && (forall id :: id in q.completions ==> id in q.phase)
    && (q.stopping ==> q.queue == [])
    && (q.stopping ==> forall id :: id in q.phase && id in q.trackers && q.phase[id].Held? ==> q.trackers[id].stop)
  }

  // ---- Order ----

  /** The runs started are the runs enqueued and not dropped, in that order, but for those still queued. */
  ghost predicate Ordered(q: Queue) {
    && Kept(q.enqueued, q.dropped) == q.started + q.queue
    && Distinct(q.enqueued)
    && (forall id :: id in q.enqueued ==> id in q.phase && q.phase[id] != Persisting)
    && (forall id :: id in q.dropped ==> id in q.phase && (q.phase[id].Sweeping? || q.phase[id] == Done))
    && (forall id :: id in q.phase && q.phase[id].Sweeping? ==> id in q.dropped)
    && (forall id :: id in q.phase && q.phase[id].Held? ==> id in q.started)
    && (forall id :: id in q.phase && q.phase[id] == Done ==> id in q.started || id in q.dropped)
  }

  /** Runs start in the order they were enqueued, each at most once; one that is
      cancelled before it starts, or swept up, never does. */
  lemma ExecutedInOrderOnce(q: Queue, id: string)
    requires Ordered(q)
    ensures q.started <= Kept(q.enqueued, q.dropped)
    ensures multiset(q.started)[id] <= 1
    ensures id in q.dropped ==> id !in q.started
  {
    KeptDistinct(q.enqueued, q.dropped);
    KeptHas(q.enqueued, q.dropped, id);
    assert forall i :: 0 <= i < |q.started| ==> q.started[i] == (q.started + q.queue)[i];
    DistinctOnce(q.started, id);
    assert id in q.started ==> id in q.started + q.queue;
  }

  lemma {:induction false} DistinctOnce(s: seq<string>, x: string)
    requires Distinct(s)
    ensures multiset(s)[x] == if x in s then 1 else 0
  {
    if s != [] {
      var front := s[..|s| - 1];
      assert s == front + [s[|s| - 1]];
      DistinctOnce(front, x);
    }
  }

  lemma EnqueueKeepsOrder(q: Queue, id: string)
    requires Places(q) && Ordered(q) && id in q.storing && q.reserved > 0
    ensures Ordered(Enqueued(q, id))
  {
    KeptOneMore(q.enqueued, q.dropped, id);
    assert q.started + (q.queue + [id]) == (q.started + q.queue) + [id];
    assert id !in q.enqueued && id !in q.dropped;
  }

  lemma KeptOneMore(s: seq<string>, drop: set<string>, x: string)
    ensures Kept(s + [x], drop) == Kept(s, drop) + if x in drop then [] else [x]
  {
    assert (s + [x])[..|s|] == s;
  }

  lemma PickKeepsOrder(q: Queue, r: nat)
    requires Places(q) && Ordered(q) && r < |q.runners| && q.queue != []
    ensures Ordered(PickedUp(q, r))
  {
    var q' := PickedUp(q, r);
    assert q.started + q.queue == q'.started + q'.queue;
    assert q.queue[0] in q.started + q.queue;
    KeptHas(q.enqueued, q.dropped, q.queue[0]);
  }

  lemma DropKeepsOrder(q: Queue, ids: set<string>, sweeper: Sweeper)
    requires Places(q) && Ordered(q) && forall id :: id in ids ==> id in q.queue
    ensures Ordered(Dropped(q, ids, sweeper))
  {
    var q' := Dropped(q, ids, sweeper);
    KeptTwice(q.enqueued, q.dropped, ids);
    KeptConcat(q.started, q.queue, ids);
    forall id | id in q.started ensures id !in ids {
      StartedIsNotQueued(q, id);
    }
    KeptAll(q.started, ids);
    forall id | id in ids ensures id in q.phase && q'.phase[id].Sweeping? {
      assert id in q.queue;
    }
  }

  lemma StartedIsNotQueued(q: Queue, id: string)
    requires Ordered(q) && id in q.started
    ensures id !in q.queue
  {
    KeptDistinct(q.enqueued, q.dropped);
    var all := q.started + q.queue;
    var i :| 0 <= i < |q.started| && q.started[i] == id;
    assert all[i] == id;
    forall j | 0 <= j < |q.queue| ensures q.queue[j] != id {
      assert all[|q.started| + j] == q.queue[j];
    }
  }

  // ---- The queue's part of an event ----

  function CancelledRecord(q: Queue, id: string, reason: string, now: nat): RunRecord
    requires id in q.trackers
  {
    q.trackers[id].run.(status := Cancelled, error := reason, finishedAt := Some(now))
  }

  /** `final` is the record a StoreFinal event has stored. */
  function DoQueue(c: Config, q: Queue, e: Event, final: RunRecord): Queue
    requires CanQueue(c, q, e)
  {
    match e
    case Ask => Asked(q)
    case Insert(run) => Inserted(q, run)
    case InsertFails => q.(asking := q.asking - 1, failed := q.failed + 1)
    case GiveUp => GivenUp(q)
    case Enqueue(id) => Enqueued(q, id)
    case Refuse(id) => Refused(q, id)
    case Pick(r) => PickedUp(q, r)
    case MarkRunning(r, now, _) =>
      AtStage(q, r, Executing(JobService.Started(q.trackers[q.runners[r].id].run, now)))
    case Conclude(r, engine, shutdown, now) =>
      AtStage(q, r, Concluded(JobService.Concluded(
        StageOf(q, r).record, engine, q.trackers[q.runners[r].id].stop || shutdown, now)))
    case StoreFinal(r, _, _) => AtStage(q, r, Stored(final))
    case Complete(r) => WithFinal(AtStage(q, r, Completed), q.runners[r].id, StageOf(q, r).record)
    case Release(r) => Released(q, r)
    case Exit(r) => q.(runners := q.runners[r := Exited])
    case CancelQueued(id) => Dropped(q, {id}, ByCancel)
    case CancelRunning(id) => StopRequested(q, {id})
    case Stop => Stopped(q)
    case SweepStore(id, reason, now, _) =>
      q.(phase := q.phase[id := q.phase[id].(record := Some(CancelledRecord(q, id, reason, now)))])
    case SweepComplete(id) =>
      WithFinal(q.(phase := q.phase[id := Done]), id, q.phase[id].record.value)
    case Prune(_) => q
  }

  ghost predicate QueueInv(c: Config, q: Queue) {
    Counts(c, q) && Places(q) && Completions(q) && Ordered(q)
  }

  predicate IsRunnerEvent(e: Event) {
    e.Pick? || e.MarkRunning? || e.Conclude? || e.StoreFinal? || e.Complete? || e.Release? || e.Exit?
  }

  lemma RunnerKeepsPlaces(c: Config, q: Queue, e: Event, final: RunRecord)
    requires Places(q) && CanQueue(c, q, e) && IsRunnerEvent(e)
    ensures Places(DoQueue(c, q, e, final))
  {
    match e
    case Pick(r) => PickKeepsPlaces(q, r);
    case MarkRunning(r, _, _) => StageKeepsPlaces(q, r, StageOf(DoQueue(c, q, e, final), r));
    case Conclude(r, _, _, _) => StageKeepsPlaces(q, r, StageOf(DoQueue(c, q, e, final), r));
    case StoreFinal(r, _, _) => StageKeepsPlaces(q, r, Stored(final));
    case Complete(r) =>
      StageKeepsPlaces(q, r, Completed);
      FinalKeepsPlaces(AtStage(q, r, Completed), q.runners[r].id, StageOf(q, r).record);
    case Release(r) => ReleaseKeepsPlaces(q, r);
    case Exit(r) => ExitKeepsPlaces(q, r);
  }

  lemma StopKeepsPlaces(q: Queue)
    requires Places(q)
    ensures Places(Stopped(q))
  {
    var swept := Dropped(q, ElementsOf(q.queue), ByStop);
    DropKeepsPlaces(q, ElementsOf(q.queue), ByStop);
    StopRequestKeepsPlaces(swept, swept.active);
  }

  lemma SweptKeepsPlaces(q: Queue, id: string)
    requires Places(q) && IsSwept(q, id) && q.phase[id].record.Some?
    ensures Places(WithFinal(q.(phase := q.phase[id := Done]), id, q.phase[id].record.value))
  {
    SweepKeepsPlaces(q, id, Done);
    FinalKeepsPlaces(q.(phase := q.phase[id := Done]), id, q.phase[id].record.value);
  }

  lemma CallerKeepsPlaces(c: Config, q: Queue, e: Event, final: RunRecord)
    requires Places(q) && CanQueue(c, q, e) && !IsRunnerEvent(e)
    ensures Places(DoQueue(c, q, e, final))
  {
    match e
    case Ask =>
    case Insert(run) => InsertKeepsPlaces(q, run);
    case InsertFails =>
    case GiveUp =>
    case Enqueue(id) => EnqueueKeepsPlaces(q, id);
    case Refuse(id) => RefuseKeepsPlaces(q, id);
    case CancelQueued(id) => DropKeepsPlaces(q, {id}, ByCancel);
    case CancelRunning(id) => StopRequestKeepsPlaces(q, {id});
    case Stop => StopKeepsPlaces(q);
    case SweepStore(id, reason, now, _) => SweepKeepsPlaces(q, id, DoQueue(c, q, e, final).phase[id]);
    case SweepComplete(id) => SweptKeepsPlaces(q, id);
    case Prune(_) =>
  }

  lemma StageKeepsCompletions(q: Queue, r: nat, stage: Stage)
    requires Places(q) && Completions(q) && IsHeld(q, r) && StageOf(q, r) != Completed && stage != Completed
    ensures Completions(AtStage(q, r, stage))
  {
  }

  lemma PickKeepsCompletions(q: Queue, r: nat)
    requires Places(q) && Completions(q) && r < |q.runners| && q.queue != []
    ensures Completions(PickedUp(q, r))
  {
    assert q.queue[0] in q.queue;
  }

  /** A run that is over keeps its record; one that is completed gets it. */
  lemma CompleteKeepsCompletions(q: Queue, id: string, p: Phase, record: RunRecord)
    requires Places(q) && Completions(q) && id in q.phase && !IsOver(q.phase[id]) && IsOver(p)
    requires p.Held? ==> q.phase[id].Held?
    ensures Completions(WithFinal(q.(phase := q.phase[id := p]), id, record))
  {
  }

  lemma ReleaseKeepsCompletions(q: Queue, r: nat)
    requires Places(q) && Completions(q) && IsHeld(q, r) && q.running > 0 && StageOf(q, r) == Completed
    ensures Completions(Released(q, r))
  {
  }

  lemma RunnerKeepsCompletions(c: Config, q: Queue, e: Event, final: RunRecord)
    requires Places(q) && Completions(q) && CanQueue(c, q, e) && IsRunnerEvent(e)
    ensures Completions(DoQueue(c, q, e, final))
  {
    match e
    case Pick(r) => PickKeepsCompletions(q, r);
    case MarkRunning(r, _, _) => StageKeepsCompletions(q, r, StageOf(DoQueue(c, q, e, final), r));
    case Conclude(r, _, _, _) => StageKeepsCompletions(q, r, StageOf(DoQueue(c, q, e, final), r));
    case StoreFinal(r, _, _) => StageKeepsCompletions(q, r, Stored(final));
    case Complete(r) => CompleteKeepsCompletions(q, q.runners[r].id, Held(r, Completed), StageOf(q, r).record);
    case Release(r) => ReleaseKeepsCompletions(q, r);
    case Exit(r) =>
  }

  lemma StopKeepsCompletions(q: Queue)
    requires Places(q) && Completions(q)
    ensures Completions(Stopped(q))
  {
    var q' := Stopped(q);
    assert q'.queue == [] by {
      if q'.queue != [] {
        KeptHas(q.queue, ElementsOf(q.queue), q'.queue[0]);
      }
    }
    forall id | id in q'.phase && q'.phase[id].Held? ensures q'.trackers[id].stop {
      assert id in q.active && id !in q.queue;
    }
  }

  lemma InsertKeepsCompletions(q: Queue, run: RunRecord)
    requires Places(q) && Completions(q) && q.asking > 0 && run.id !in q.phase
    ensures Completions(Inserted(q, run))
  {
  }

  lemma EnqueueKeepsCompletions(q: Queue, id: string)
    requires Places(q) && Completions(q) && id in q.storing && q.reserved > 0 && !q.stopping
    ensures Completions(Enqueued(q, id))
  {
  }

  lemma RefuseKeepsCompletions(q: Queue, id: string)
    requires Places(q) && Completions(q) && id in q.storing && q.reserved > 0
    ensures Completions(Refused(q, id))
  {
  }

  lemma CancelKeepsCompletions(q: Queue, id: string)
    requires Places(q) && Completions(q) && id in q.queue
    ensures Completions(Dropped(q, {id}, ByCancel))
  {
    KeptLength(q.queue, {id});
  }

  lemma CallerKeepsCompletions(c: Config, q: Queue, e: Event, final: RunRecord)
    requires Places(q) && Completions(q) && CanQueue(c, q, e) && !IsRunnerEvent(e)
    ensures Completions(DoQueue(c, q, e, final))
  {
    match e
    case Insert(run) => InsertKeepsCompletions(q, run);
    case Enqueue(id) => EnqueueKeepsCompletions(q, id);
    case Refuse(id) => RefuseKeepsCompletions(q, id);
    case CancelQueued(id) => CancelKeepsCompletions(q, id);
    case Stop => StopKeepsCompletions(q);
    case SweepComplete(id) => CompleteKeepsCompletions(q, id, Done, q.phase[id].record.value);
    case _ => OtherKeepsCompletions(c, q, e, final);
  }

  /** Events that neither move a run between places nor complete one. */
  predicate IsAside(e: Event) {
    e.Ask? || e.InsertFails? || e.GiveUp? || e.CancelRunning? || e.SweepStore? || e.Prune?
  }

  lemma OtherKeepsCompletions(c: Config, q: Queue, e: Event, final: RunRecord)
    requires Places(q) && Completions(q) && CanQueue(c, q, e) && IsAside(e)
    ensures Completions(DoQueue(c, q, e, final))
  {
    if e.CancelRunning? {
      StopRequestKeepsCompletions(q, {e.id});
    } else if e.SweepStore? {
      SweepKeepsCompletions(q, e.id, q.phase[e.id].(record := Some(CancelledRecord(q, e.id, e.reason, e.now))));
    } else {
      SameCompletions(q, DoQueue(c, q, e, final));
    }
  }

  /** Completion only depends on these parts. */
  lemma SameCompletions(q: Queue, q': Queue)
    requires Completions(q) && q'.trackers == q.trackers && q'.phase == q.phase && q'.completions == q.completions
    requires q'.stopping == q.stopping && q'.queue == q.queue
    ensures Completions(q')
  {
  }

  lemma StopRequestKeepsCompletions(q: Queue, ids: set<string>)
    requires Completions(q)
    ensures Completions(StopRequested(q, ids))
  {
  }

  lemma SweepKeepsCompletions(q: Queue, id: string, p: Phase)
    requires Completions(q) && id in q.phase && q.phase[id].Sweeping? && p.Sweeping?
    ensures Completions(q.(phase := q.phase[id := p]))
  {
  }

  lemma RefuseKeepsOrder(q: Queue, id: string)
    requires Places(q) && Ordered(q) && id in q.storing && q.reserved > 0
    ensures Ordered(Refused(q, id))
  {
    KeptTwice(q.enqueued, q.dropped, {id});
    KeptHas(q.enqueued, q.dropped, id);
    KeptAll(Kept(q.enqueued, q.dropped), {id});
  }

  /** A phase that leaves a run with its runner, or ends it there or in a sweep, is no step in the order. */
  lemma PhaseKeepsOrder(q: Queue, id: string, p: Phase)
    requires Places(q) && Ordered(q) && id in q.phase
    requires (q.phase[id].Held? && (p.Held? || p == Done)) || (q.phase[id].Sweeping? && (p.Sweeping? || p == Done))
    ensures Ordered(q.(phase := q.phase[id := p]))
  {
  }

  lemma RunnerKeepsOrder(c: Config, q: Queue, e: Event, final: RunRecord)
    requires Places(q) && Ordered(q) && CanQueue(c, q, e) && IsRunnerEvent(e)
    ensures Ordered(DoQueue(c, q, e, final))
  {
    if e.Pick? {
      PickKeepsOrder(q, e.runner);
    } else if !e.Exit? {
      var id := q.runners[e.runner].id;
      PhaseKeepsOrder(q, id, DoQueue(c, q, e, final).phase[id]);
    }
  }

  lemma CallerKeepsOrder(c: Config, q: Queue, e: Event, final: RunRecord)
    requires Places(q) && Ordered(q) && CanQueue(c, q, e) && !IsRunnerEvent(e)
    ensures Ordered(DoQueue(c, q, e, final))
  {
    match e
    case Enqueue(id) => EnqueueKeepsOrder(q, id);
    case Refuse(id) => RefuseKeepsOrder(q, id);
    case CancelQueued(id) => DropKeepsOrder(q, {id}, ByCancel);
    case Stop => DropKeepsOrder(q, ElementsOf(q.queue), ByStop);
    case _ => OtherKeepsOrder(c, q, e, final);
  }

  lemma OtherKeepsOrder(c: Config, q: Queue, e: Event, final: RunRecord)
    requires Places(q) && Ordered(q) && CanQueue(c, q, e) && (IsAside(e) || e.Insert? || e.SweepComplete?)
    ensures Ordered(DoQueue(c, q, e, final))
  {
    if e.Insert? {
      InsertKeepsOrder(q, e.run);
    } else if e.SweepStore? {
      PhaseKeepsOrder(q, e.id, q.phase[e.id].(record := Some(CancelledRecord(q, e.id, e.reason, e.now))));
    } else if e.SweepComplete? {
      PhaseKeepsOrder(q, e.id, Done);
      SameOrder(q.(phase := q.phase[e.id := Done]), DoQueue(c, q, e, final));
    } else {
      SameOrder(q, DoQueue(c, q, e, final));
    }
  }

  /** The order only depends on these parts. */
  lemma SameOrder(q: Queue, q': Queue)
    requires Ordered(q) && q'.enqueued == q.enqueued && q'.dropped == q.dropped && q'.started == q.started
    requires q'.queue == q.queue && q'.phase == q.phase
    ensures Ordered(q')
  {
  }

  lemma InsertKeepsOrder(q: Queue, run: RunRecord)
    requires Ordered(q) && q.asking > 0 && run.id !in q.phase
    ensures Ordered(Inserted(q, run))
  {
  }

  lemma RunnerKeepsCounts(c: Config, q: Queue, e: Event, final: RunRecord)
    requires Counts(c, q) && CanQueue(c, q, e) && IsRunnerEvent(e)
    ensures Counts(c, DoQueue(c, q, e, final))
  {
    match e
    case Pick(r) => BusyCountOfUpdate(q.runners, r, Busy(q.queue[0]));
    case Release(r) => BusyCountOfUpdate(q.runners, r, Waiting);
    case Exit(r) => BusyCountOfUpdate(q.runners, r, Exited);
    case _ =>
  }

  lemma CallerKeepsCounts(c: Config, q: Queue, e: Event, final: RunRecord)
    requires Places(q) && Counts(c, q) && CanQueue(c, q, e) && !IsRunnerEvent(e)
    ensures Counts(c, DoQueue(c, q, e, final))
  {
    match e
    case CancelQueued(id) => KeptLength(q.queue, {id});
    case Stop => KeptLength(q.queue, ElementsOf(q.queue));
    case _ =>
  }

  // ---- The run table's part of an event ----

  /** A status write that works: a live run's row is rewritten, and a final status is there to stay. */
  function Write(t: Table, run: RunRecord): Table {
    t.(rows := Updated(t.rows, run),
       finals := if JobService.WasLive(t.rows, run.id) && !IsLive(run.status)
                 then t.finals[run.id := run] else t.finals)
  }

  /** The record a runner ends up with: without its result if that could not be stored. */
  function FinalRecord(t: Table, record: RunRecord, fails: bool, fallbackFails: bool): RunRecord {
    if JobService.WasLive(t.rows, record.id) && fails && !fallbackFails then JobService.Fallback(record) else record
  }

  predicate CanTable(t: Table, e: Event) {
    e.Insert? ==> !HasRow(t.rows, e.run.id)
  }

  function DoTable(owner: string, c: Config, s: State, e: Event): Table
    requires CanQueue(c, s.q, e)
  {
    var q, t := s.q, s.t;
    match e
    case Insert(run) => t.(rows := t.rows + [Row(run, Some(owner))])
    case MarkRunning(r, now, fails) =>
      if fails then t else Write(t, JobService.Started(q.trackers[q.runners[r].id].run, now))
    case StoreFinal(r, fails, fallbackFails) =>
      if fails && fallbackFails then t.(writesOk := false)
      else Write(t, FinalRecord(t, StageOf(q, r).record, fails, fallbackFails))
    case SweepStore(id, reason, now, fails) =>
      if fails then t.(writesOk := false) else Write(t, CancelledRecord(q, id, reason, now))
    case Prune(keep) => t.(rows := Pruned(t.rows, keep))
    case _ => t
  }

  function Apply(owner: string, c: Config, s: State, e: Event): State
    requires CanQueue(c, s.q, e)
  {
    var final := if e.StoreFinal? then FinalRecord(s.t, StageOf(s.q, e.runner).record, e.fails, e.fallbackFails)
                 else RunRecord("", None, "", Queued, None, None, "", "", None);
    State(DoQueue(c, s.q, e, final), DoTable(owner, c, s, e))
  }

  /** The parts of a record that no write changes. */
  predicate SameRun(a: RunRecord, b: RunRecord) {
    a.id == b.id && a.jobId == b.jobId && a.trigger == b.trigger && a.queuedAt == b.queuedAt
  }

  /** The run's final record has not been written yet. */
  predicate IsUnwritten(p: Phase) {
    match p
    case Persisting => true
    case InQueue => true
    case Held(_, stage) => stage == Picked || stage.Executing? || stage.Concluded?
    case Sweeping(_, record) => record.None?
    case Done => false
  }

  /** The row of a run whose final record is still to be written. */
  ghost predicate UnwrittenRow(t: Table, run: RunRecord) {
    && HasRow(t.rows, run.id)
    && var row := Get(t.rows, run.id).value;
       IsLive(row.run.status) && SameRun(row.run, run)
  }

  /** The record that is, or will be, the tracker's final one. */
  function Outcome(q: Queue, id: string): Option<RunRecord>
    requires id in q.phase && id in q.trackers
  {
    match q.phase[id]
    case Held(_, Stored(record)) => Some(record)
    case Held(_, Completed) => q.trackers[id].final
    case Sweeping(_, record) => record
    case Done => q.trackers[id].final
    case _ => None
  }

  ghost predicate RecordsOk(q: Queue) {
    forall id :: id in q.phase && id in q.trackers ==>
      && q.trackers[id].run.id == id
      && (q.phase[id].Held? && q.phase[id].stage.Executing? ==>
            SameRun(q.phase[id].stage.record, q.trackers[id].run) && IsLive(q.phase[id].stage.record.status))
      && (q.phase[id].Held? && q.phase[id].stage.Concluded? ==>
            SameRun(q.phase[id].stage.record, q.trackers[id].run) && !IsLive(q.phase[id].stage.record.status))
  }

  /** The run's outcome is the final row stored, which is no longer live. */
  predicate IsOnRecord(s: State, id: string)
    requires id in s.q.phase && id in s.q.trackers
  {
    id in s.t.finals && Outcome(s.q, id) == Some(s.t.finals[id]) && !JobService.WasLive(s.t.rows, id)
  }

  /** Every final row is on record as the one stored; with all status writes done, so is every outcome. */
  ghost predicate TableOk(s: State) {
    && UniqueIds(s.t.rows)
    && (forall id :: id in s.q.phase && id in s.q.trackers && IsUnwritten(s.q.phase[id]) ==>
          UnwrittenRow(s.t, s.q.trackers[id].run))
    && (s.t.writesOk ==> forall id :: id in s.q.phase && id in s.q.trackers && !IsUnwritten(s.q.phase[id]) ==>
          IsOnRecord(s, id))
    && (forall id :: HasRow(s.t.rows, id) && !IsLive(Get(s.t.rows, id).value.run.status) ==>
          id in s.t.finals && s.t.finals[id] == Get(s.t.rows, id).value.run)
  }

  /** The frame: ids whose record is as far as it was. */
  ghost predicate SameProgress(q: Queue, q': Queue, id: string) {
    && (id in q.phase && id in q.trackers <==> id in q'.phase && id in q'.trackers)
    && (id in q.phase && id in q.trackers && id in q'.phase && id in q'.trackers ==>
          && q'.trackers[id].run == q.trackers[id].run
          && IsUnwritten(q'.phase[id]) == IsUnwritten(q.phase[id])
          && (!IsUnwritten(q.phase[id]) ==> Outcome(q', id) == Outcome(q, id)))
  }

  lemma ProgressKeepsTable(s: State, q': Queue)
    requires TableOk(s) && forall id :: SameProgress(s.q, q', id)
    ensures TableOk(State(q', s.t))
  {
    forall id | id in q'.phase && id in q'.trackers
      ensures IsUnwritten(q'.phase[id]) ==> UnwrittenRow(s.t, q'.trackers[id].run)
      ensures s.t.writesOk && !IsUnwritten(q'.phase[id]) ==> IsOnRecord(State(q', s.t), id)
    {
      assert SameProgress(s.q, q', id);
    }
  }

  /** Writing a record of the run to its live row leaves exactly that record there. */
  lemma WriteIs(t: Table, run: RunRecord, record: RunRecord)
    requires UniqueIds(t.rows) && UnwrittenRow(t, run) && SameRun(record, run)
    ensures var t' := Write(t, record);
      && UniqueIds(t'.rows) && HasRow(t'.rows, run.id) && Get(t'.rows, run.id).value.run == record
      && (!IsLive(record.status) ==> run.id in t'.finals && t'.finals[run.id] == record)
      && (IsLive(record.status) ==> t'.finals == t.finals && UnwrittenRow(t', run))
  {
    GetOfUpdated(t.rows, record, run.id);
  }

  lemma WriteElsewhere(t: Table, record: RunRecord, id: string)
    requires id != record.id
    ensures Get(Write(t, record).rows, id) == Get(t.rows, id)
    ensures id in Write(t, record).finals <==> id in t.finals
    ensures id in t.finals ==> Write(t, record).finals[id] == t.finals[id]
  {
    GetOfUpdated(t.rows, record, id);
  }

  /** The final rows on record. */
  ghost predicate FinalsOk(t: Table) {
    forall id :: HasRow(t.rows, id) && !IsLive(Get(t.rows, id).value.run.status) ==>
      id in t.finals && t.finals[id] == Get(t.rows, id).value.run
  }

  lemma WriteKeepsFinals(t: Table, run: RunRecord, record: RunRecord)
    requires UniqueIds(t.rows) && FinalsOk(t) && UnwrittenRow(t, run) && SameRun(record, run)
    ensures FinalsOk(Write(t, record))
  {
    WriteIs(t, run, record);
    var t' := Write(t, record);
    forall id | HasRow(t'.rows, id) && !IsLive(Get(t'.rows, id).value.run.status)
      ensures id in t'.finals && t'.finals[id] == Get(t'.rows, id).value.run
    {
      if id != record.id {
        WriteElsewhere(t, record, id);
      }
    }
  }

  /** Writing a status on the way. */
  lemma MarkKeepsTable(s: State, id: string, record: RunRecord, q': Queue)
    requires TableOk(s) && RecordsOk(s.q) && s.q.phase.Keys == s.q.trackers.Keys
    requires id in s.q.phase && IsUnwritten(s.q.phase[id])
    requires SameRun(record, s.q.trackers[id].run) && IsLive(record.status)
    requires forall x :: SameProgress(s.q, q', x)
    ensures TableOk(State(q', Write(s.t, record)))
  {
    WriteIs(s.t, s.q.trackers[id].run, record);
    WriteKeepsFinals(s.t, s.q.trackers[id].run, record);
    ProgressKeepsTable(s, q');
    var t' := Write(s.t, record);
    forall x | x in q'.phase && x in q'.trackers && IsUnwritten(q'.phase[x])
      ensures UnwrittenRow(t', q'.trackers[x].run)
    {
      assert SameProgress(s.q, q', x);
      if x != id { WriteElsewhere(s.t, record, x); }
    }
    forall x | x in q'.phase && x in q'.trackers && !IsUnwritten(q'.phase[x])
      ensures t'.writesOk ==> IsOnRecord(State(q', t'), x)
    {
      assert SameProgress(s.q, q', x);
      WriteElsewhere(s.t, record, x);
    }
  }

  /** Writing the final record of a run: now its outcome is on record. */
  lemma FinalKeepsTable(s: State, id: string, record: RunRecord, q': Queue)
    requires TableOk(s) && RecordsOk(s.q) && s.q.phase.Keys == s.q.trackers.Keys == q'.phase.Keys == q'.trackers.Keys
    requires id in s.q.phase && IsUnwritten(s.q.phase[id])
    requires SameRun(record, s.q.trackers[id].run) && !IsLive(record.status)
    requires !IsUnwritten(q'.phase[id]) && Outcome(q', id) == Some(record)
    requires forall x :: x != id ==> SameProgress(s.q, q', x)
    ensures TableOk(State(q', Write(s.t, record)))
  {
    var s' := State(q', Write(s.t, record));
    WriteIs(s.t, s.q.trackers[id].run, record);
    WriteKeepsFinals(s.t, s.q.trackers[id].run, record);
    forall x ensures RowFits(s', x) {
      if x == id {
        OwnRowFits(s, id, record, q');
      } else if x in q'.phase {
        assert SameProgress(s.q, q', x);
        Elsewhere(s, record, q', x);
      }
    }
    AllRowsFit(s');
  }

  /** What TableOk says of one run. */
  ghost predicate RowFits(s: State, id: string) {
    id in s.q.phase && id in s.q.trackers ==>
      && (IsUnwritten(s.q.phase[id]) ==> UnwrittenRow(s.t, s.q.trackers[id].run))
      && (s.t.writesOk && !IsUnwritten(s.q.phase[id]) ==> IsOnRecord(s, id))
  }

  lemma AllRowsFit(s: State)
    requires UniqueIds(s.t.rows) && FinalsOk(s.t) && forall id :: RowFits(s, id)
    ensures TableOk(s)
  {
    forall id | id in s.q.phase && id in s.q.trackers
      ensures IsUnwritten(s.q.phase[id]) ==> UnwrittenRow(s.t, s.q.trackers[id].run)
      ensures s.t.writesOk && !IsUnwritten(s.q.phase[id]) ==> IsOnRecord(s, id)
    {
      assert RowFits(s, id);
    }
  }

  lemma OwnRowFits(s: State, id: string, record: RunRecord, q': Queue)
    requires UniqueIds(s.t.rows) && id in s.q.trackers && s.q.trackers[id].run.id == id
    requires UnwrittenRow(s.t, s.q.trackers[id].run)
    requires SameRun(record, s.q.trackers[id].run) && !IsLive(record.status)
    requires id in q'.phase && id in q'.trackers && !IsUnwritten(q'.phase[id]) && Outcome(q', id) == Some(record)
    ensures RowFits(State(q', Write(s.t, record)), id)
  {
    WriteIs(s.t, s.q.trackers[id].run, record);
  }

  lemma Elsewhere(s: State, record: RunRecord, q': Queue, x: string)
    requires TableOk(s) && x in s.q.phase && x in s.q.trackers && x != record.id && s.q.trackers[x].run.id == x
    requires SameProgress(s.q, q', x)
    ensures RowFits(State(q', Write(s.t, record)), x)
  {
    if IsUnwritten(q'.phase[x]) {
      UnwrittenElsewhere(s.t, record, s.q.trackers[x].run);
    } else if s.t.writesOk {
      RecordedElsewhere(s, record, q', x);
    }
  }

  /** What is known of other runs stays so. */
  lemma UnwrittenElsewhere(t: Table, record: RunRecord, run: RunRecord)
    requires UnwrittenRow(t, run) && run.id != record.id
    ensures UnwrittenRow(Write(t, record), run)
  {
    WriteElsewhere(t, record, run.id);
  }

  lemma RecordedElsewhere(s: State, record: RunRecord, q': Queue, x: string)
    requires x in s.q.phase && x in s.q.trackers && x in q'.phase && x in q'.trackers && x != record.id
    requires IsOnRecord(s, x) && Outcome(q', x) == Outcome(s.q, x)
    ensures IsOnRecord(State(q', Write(s.t, record)), x)
  {
    WriteElsewhere(s.t, record, x);
  }

  /** A final record that could not be written: from here on nothing is promised of outcomes. */
  lemma LostKeepsTable(s: State, id: string, q': Queue)
    requires TableOk(s) && s.q.phase.Keys == s.q.trackers.Keys == q'.phase.Keys == q'.trackers.Keys
    requires id in s.q.phase && !IsUnwritten(q'.phase[id])
    requires forall x :: x != id ==> SameProgress(s.q, q', x)
    ensures TableOk(State(q', s.t.(writesOk := false)))
  {
    forall x | x in q'.phase && x in q'.trackers && IsUnwritten(q'.phase[x])
      ensures UnwrittenRow(s.t.(writesOk := false), q'.trackers[x].run)
    {
      assert SameProgress(s.q, q', x);
    }
  }

  /** A new row, and that it leaves the others. */
  lemma RowAdded(t: Table, row: Row)
    requires UniqueIds(t.rows) && FinalsOk(t) && IsLive(row.run.status) && !HasRow(t.rows, row.run.id)
    ensures var t' := t.(rows := t.rows + [row]);
            UniqueIds(t'.rows) && FinalsOk(t') && UnwrittenRow(t', row.run)
  {
    var t' := t.(rows := t.rows + [row]);
    forall id ensures Get(t'.rows, id) == if id == row.run.id then Some(row) else Get(t.rows, id) {
      GetOfInserted(t.rows, row, id);
    }
    assert Get(t'.rows, row.run.id) == Some(row);
  }

  lemma InsertProgress(q: Queue, run: RunRecord, id: string)
    requires q.asking > 0 && id != run.id
    ensures SameProgress(q, Inserted(q, run), id)
  {
  }

  lemma InsertKeepsTable(s: State, run: RunRecord, owner: string)
    requires TableOk(s) && s.q.phase.Keys == s.q.trackers.Keys
    requires s.q.asking > 0 && run.id !in s.q.phase && run.status == Queued && !HasRow(s.t.rows, run.id)
    ensures TableOk(State(Inserted(s.q, run), s.t.(rows := s.t.rows + [Row(run, Some(owner))])))
  {
    var q', row := Inserted(s.q, run), Row(run, Some(owner));
    var t' := s.t.(rows := s.t.rows + [row]);
    RowAdded(s.t, row);
    forall id | id in q'.phase && id in q'.trackers && id != run.id
      ensures IsUnwritten(q'.phase[id]) ==> UnwrittenRow(t', q'.trackers[id].run)
      ensures s.t.writesOk && !IsUnwritten(q'.phase[id]) ==> IsOnRecord(State(q', t'), id)
    {
      InsertProgress(s.q, run, id);
      GetOfInserted(s.t.rows, row, id);
      GetOfInserted(s.t.rows, row, q'.trackers[id].run.id);
    }
  }

  lemma PruneKeepsTable(s: State, keep: nat)
    requires TableOk(s)
    ensures TableOk(State(s.q, s.t.(rows := Pruned(s.t.rows, keep))))
  {
    forall id { GetOfPruned(s.t.rows, keep, id); }
  }

  /** Events that neither store a run nor write a final record. */
  predicate IsQuiet(e: Event) {
    !e.Insert? && !e.StoreFinal? && !e.SweepStore? && !e.Prune?
  }

  lemma DropProgress(q: Queue, ids: set<string>, sweeper: Sweeper, id: string)
    requires Places(q) && forall x :: x in ids ==> x in q.queue
    ensures SameProgress(q, Dropped(q, ids, sweeper), id)
  {
  }

  lemma StopRequestProgress(q: Queue, ids: set<string>, id: string)
    ensures SameProgress(q, StopRequested(q, ids), id)
  {
  }

  lemma StopProgress(q: Queue, id: string)
    requires Places(q)
    ensures SameProgress(q, Stopped(q), id)
  {
    var swept := Dropped(q, ElementsOf(q.queue), ByStop);
    DropProgress(q, ElementsOf(q.queue), ByStop, id);
    StopRequestProgress(swept, swept.active, id);
  }

  lemma QuietCallerProgress(c: Config, q: Queue, e: Event, final: RunRecord, id: string)
    requires Places(q) && CanQueue(c, q, e) && IsQuiet(e) && !IsRunnerEvent(e)
    ensures SameProgress(q, DoQueue(c, q, e, final), id)
  {
    match e
    case CancelQueued(x) => DropProgress(q, {x}, ByCancel, id);
    case CancelRunning(x) => StopRequestProgress(q, {x}, id);
    case Stop => StopProgress(q, id);
    case _ =>
  }

  lemma PickProgress(q: Queue, r: nat, id: string)
    requires Places(q) && r < |q.runners| && q.queue != []
    ensures SameProgress(q, PickedUp(q, r), id)
  {
    assert q.queue[0] in q.queue;
  }

  lemma CompleteProgress(q: Queue, r: nat, id: string)
    requires IsHeld(q, r) && StageOf(q, r).Stored?
    ensures SameProgress(q, WithFinal(AtStage(q, r, Completed), q.runners[r].id, StageOf(q, r).record), id)
  {
  }

  lemma ReleaseProgress(q: Queue, r: nat, id: string)
    requires IsHeld(q, r) && StageOf(q, r) == Completed && q.running > 0
    ensures SameProgress(q, Released(q, r), id)
  {
  }

  lemma QuietRunnerProgress(c: Config, q: Queue, e: Event, final: RunRecord, id: string)
    requires Places(q) && CanQueue(c, q, e) && IsQuiet(e) && IsRunnerEvent(e)
    ensures SameProgress(q, DoQueue(c, q, e, final), id)
  {
    match e
    case Pick(r) => PickProgress(q, r, id);
    case Complete(r) => CompleteProgress(q, r, id);
    case Release(r) => ReleaseProgress(q, r, id);
    case _ =>
  }

  lemma QuietKeepsTable(c: Config, s: State, e: Event, final: RunRecord)
    requires Places(s.q) && TableOk(s) && CanQueue(c, s.q, e) && IsQuiet(e)
    ensures TableOk(State(DoQueue(c, s.q, e, final), s.t))
  {
    forall id ensures SameProgress(s.q, DoQueue(c, s.q, e, final), id) {
      if IsRunnerEvent(e) {
        QuietRunnerProgress(c, s.q, e, final, id);
      } else {
        QuietCallerProgress(c, s.q, e, final, id);
      }
    }
    ProgressKeepsTable(s, DoQueue(c, s.q, e, final));
  }

  lemma MarkRunningKeepsTable(owner: string, c: Config, s: State, e: Event)
    requires Places(s.q) && TableOk(s) && RecordsOk(s.q) && CanQueue(c, s.q, e) && e.MarkRunning?
    ensures TableOk(Apply(owner, c, s, e))
  {
    var s' := Apply(owner, c, s, e);
    var id := s.q.runners[e.runner].id;
    forall x ensures SameProgress(s.q, s'.q, x) {
    }
    if e.fails {
      ProgressKeepsTable(s, s'.q);
    } else {
      MarkKeepsTable(s, id, JobService.Started(s.q.trackers[id].run, e.now), s'.q);
    }
  }

  lemma FinalRecordFits(t: Table, record: RunRecord, run: RunRecord, fails: bool, fallbackFails: bool)
    requires SameRun(record, run) && !IsLive(record.status)
    ensures SameRun(FinalRecord(t, record, fails, fallbackFails), run)
    ensures !IsLive(FinalRecord(t, record, fails, fallbackFails).status)
  {
  }

  lemma StoredProgress(q: Queue, r: nat, final: RunRecord)
    requires Places(q) && IsHeld(q, r)
    ensures forall x :: x != q.runners[r].id ==> SameProgress(q, AtStage(q, r, Stored(final)), x)
  {
  }

  lemma StoreFinalKeepsTable(owner: string, c: Config, s: State, e: Event)
    requires Places(s.q) && TableOk(s) && RecordsOk(s.q) && CanQueue(c, s.q, e) && e.StoreFinal?
    ensures TableOk(Apply(owner, c, s, e))
  {
    var id, record := s.q.runners[e.runner].id, StageOf(s.q, e.runner).record;
    var final := FinalRecord(s.t, record, e.fails, e.fallbackFails);
    var q' := AtStage(s.q, e.runner, Stored(final));
    FinalRecordFits(s.t, record, s.q.trackers[id].run, e.fails, e.fallbackFails);
    StoredProgress(s.q, e.runner, final);
    assert q'.phase.Keys == s.q.phase.Keys;
    if e.fails && e.fallbackFails {
      LostKeepsTable(s, id, q');
    } else {
      FinalKeepsTable(s, id, final, q');
    }
  }

  lemma SweepStoreKeepsTable(owner: string, c: Config, s: State, e: Event)
    requires Places(s.q) && TableOk(s) && RecordsOk(s.q) && CanQueue(c, s.q, e) && e.SweepStore?
    ensures TableOk(Apply(owner, c, s, e))
  {
    var q' := Apply(owner, c, s, e).q;
    assert q'.phase.Keys == s.q.phase.Keys;
    forall x | x != e.id ensures SameProgress(s.q, q', x) {
    }
    if e.fails {
      LostKeepsTable(s, e.id, q');
    } else {
      FinalKeepsTable(s, e.id, CancelledRecord(s.q, e.id, e.reason, e.now), q');
    }
  }

  lemma EventKeepsTable(owner: string, c: Config, s: State, e: Event)
    requires Places(s.q) && TableOk(s) && RecordsOk(s.q) && CanQueue(c, s.q, e) && CanTable(s.t, e)
    ensures TableOk(Apply(owner, c, s, e))
  {
    if e.MarkRunning? {
      MarkRunningKeepsTable(owner, c, s, e);
    } else if e.StoreFinal? {
      StoreFinalKeepsTable(owner, c, s, e);
    } else if e.SweepStore? {
      SweepStoreKeepsTable(owner, c, s, e);
    } else {
      OtherKeepsTable(owner, c, s, e);
    }
  }

  lemma OtherKeepsTable(owner: string, c: Config, s: State, e: Event)
    requires Places(s.q) && TableOk(s) && CanQueue(c, s.q, e) && CanTable(s.t, e)
    requires !e.MarkRunning? && !e.StoreFinal? && !e.SweepStore?
    ensures TableOk(Apply(owner, c, s, e))
  {
    match e
    case Insert(run) => InsertKeepsTable(s, run, owner);
    case Prune(keep) => PruneKeepsTable(s, keep);
    case _ => QuietKeepsTable(c, s, e, RunRecord("", None, "", Queued, None, None, "", "", None));
  }

  /** What a stage's record has to do with the run's. */
  predicate FitsRun(stage: Stage, run: RunRecord) {
    && (stage.Executing? ==> SameRun(stage.record, run) && IsLive(stage.record.status))
    && (stage.Concluded? ==> SameRun(stage.record, run) && !IsLive(stage.record.status))
  }

  lemma StageKeepsRecords(q: Queue, r: nat, stage: Stage)
    requires RecordsOk(q) && IsHeld(q, r) && FitsRun(stage, q.trackers[q.runners[r].id].run)
    ensures RecordsOk(AtStage(q, r, stage))
  {
  }

  lemma MarkRunningKeepsRecords(c: Config, q: Queue, e: Event, final: RunRecord)
    requires RecordsOk(q) && CanQueue(c, q, e) && e.MarkRunning?
    ensures RecordsOk(DoQueue(c, q, e, final))
  {
    StageKeepsRecords(q, e.runner, StageOf(DoQueue(c, q, e, final), e.runner));
  }

  lemma ConcludeKeepsRecords(c: Config, q: Queue, e: Event, final: RunRecord)
    requires RecordsOk(q) && CanQueue(c, q, e) && e.Conclude?
    ensures RecordsOk(DoQueue(c, q, e, final))
  {
    StageKeepsRecords(q, e.runner, StageOf(DoQueue(c, q, e, final), e.runner));
  }

  lemma PickKeepsRecords(q: Queue, r: nat)
    requires Places(q) && RecordsOk(q) && r < |q.runners| && q.queue != []
    ensures RecordsOk(PickedUp(q, r))
  {
    assert q.queue[0] in q.queue;
  }

  lemma FinalKeepsRecords(q: Queue, id: string, record: RunRecord)
    requires RecordsOk(q) && id in q.trackers
    ensures RecordsOk(WithFinal(q, id, record))
  {
  }

  lemma ReleaseKeepsRecords(q: Queue, r: nat)
    requires RecordsOk(q) && IsHeld(q, r) && q.running > 0
    ensures RecordsOk(Released(q, r))
  {
  }

  lemma RunnerKeepsRecords(c: Config, q: Queue, e: Event, final: RunRecord)
    requires Places(q) && RecordsOk(q) && CanQueue(c, q, e) && IsRunnerEvent(e)
    ensures RecordsOk(DoQueue(c, q, e, final))
  {
    match e
    case Pick(r) => PickKeepsRecords(q, r);
    case MarkRunning(_, _, _) => MarkRunningKeepsRecords(c, q, e, final);
    case Conclude(_, _, _, _) => ConcludeKeepsRecords(c, q, e, final);
    case StoreFinal(r, _, _) => StageKeepsRecords(q, r, Stored(final));
    case Complete(r) =>
      StageKeepsRecords(q, r, Completed);
      FinalKeepsRecords(AtStage(q, r, Completed), q.runners[r].id, StageOf(q, r).record);
    case Release(r) => ReleaseKeepsRecords(q, r);
    case Exit(r) =>
  }

  lemma DropKeepsRecords(q: Queue, ids: set<string>, sweeper: Sweeper)
    requires RecordsOk(q)
    ensures RecordsOk(Dropped(q, ids, sweeper))
  {
  }

  lemma StopRequestKeepsRecords(q: Queue, ids: set<string>)
    requires RecordsOk(q)
    ensures RecordsOk(StopRequested(q, ids))
  {
  }

  lemma PhaseKeepsRecords(q: Queue, id: string, p: Phase)
    requires RecordsOk(q) && !p.Held? && id in q.phase
    ensures RecordsOk(q.(phase := q.phase[id := p]))
  {
  }

  lemma InsertKeepsRecords(q: Queue, run: RunRecord)
    requires RecordsOk(q) && q.asking > 0
    ensures RecordsOk(Inserted(q, run))
  {
  }

  lemma CallerKeepsRecords(c: Config, q: Queue, e: Event, final: RunRecord)
    requires Places(q) && RecordsOk(q) && CanQueue(c, q, e) && !IsRunnerEvent(e)
    ensures RecordsOk(DoQueue(c, q, e, final))
  {
    match e
    case Insert(run) => InsertKeepsRecords(q, run);
    case Enqueue(id) => PhaseKeepsRecords(q, id, InQueue);
    case Refuse(id) => PhaseKeepsRecords(q, id, Sweeping(BySubmit, None));
    case CancelQueued(id) => DropKeepsRecords(q, {id}, ByCancel);
    case CancelRunning(id) => StopRequestKeepsRecords(q, {id});
    case Stop =>
      var swept := Dropped(q, ElementsOf(q.queue), ByStop);
      DropKeepsRecords(q, ElementsOf(q.queue), ByStop);
      StopRequestKeepsRecords(swept, swept.active);
    case SweepStore(id, _, _, _) => PhaseKeepsRecords(q, id, DoQueue(c, q, e, final).phase[id]);
    case SweepComplete(id) =>
      PhaseKeepsRecords(q, id, Done);
      FinalKeepsRecords(q.(phase := q.phase[id := Done]), id, q.phase[id].record.value);
    case _ =>
  }

  // ---- Runs of the machine ----

  ghost predicate Inv(c: Config, s: State) {
    QueueInv(c, s.q) && RecordsOk(s.q) && TableOk(s)
  }

  ghost predicate Can(c: Config, s: State, e: Event) {
    CanQueue(c, s.q, e) && CanTable(s.t, e)
  }

  /** Every event keeps every part of the invariant. */
  lemma EventKeepsInv(owner: string, c: Config, s: State, e: Event)
    requires Inv(c, s) && Can(c, s, e)
    ensures Inv(c, Apply(owner, c, s, e))
  {
    var final := if e.StoreFinal? then FinalRecord(s.t, StageOf(s.q, e.runner).record, e.fails, e.fallbackFails)
                 else RunRecord("", None, "", Queued, None, None, "", "", None);
    EventKeepsQueueInv(c, s.q, e, final);
    EventKeepsTable(owner, c, s, e);
  }

  lemma EventKeepsQueueInv(c: Config, q: Queue, e: Event, final: RunRecord)
    requires QueueInv(c, q) && RecordsOk(q) && CanQueue(c, q, e)
    ensures QueueInv(c, DoQueue(c, q, e, final)) && RecordsOk(DoQueue(c, q, e, final))
  {
    if IsRunnerEvent(e) {
      RunnerKeepsCounts(c, q, e, final);
      RunnerKeepsPlaces(c, q, e, final);
      RunnerKeepsCompletions(c, q, e, final);
      RunnerKeepsOrder(c, q, e, final);
      RunnerKeepsRecords(c, q, e, final);
    } else {
      CallerKeepsCounts(c, q, e, final);
      CallerKeepsPlaces(c, q, e, final);
      CallerKeepsCompletions(c, q, e, final);
      CallerKeepsOrder(c, q, e, final);
      CallerKeepsRecords(c, q, e, final);
    }
  }

  lemma StartInv(c: Config, rows: seq<Row>)
    requires UniqueIds(rows)
    ensures Inv(c, Start(c, rows))
  {
    var s := Start(c, rows);
    NoneBusy(s.q.runners);
    forall id | HasRow(rows, id) && !IsLive(Get(rows, id).value.run.status)
      ensures id in s.t.finals && s.t.finals[id] == Get(rows, id).value.run
    {
      assert Get(rows, id).value in rows;
    }
  }

  ghost predicate IsStep(owner: string, c: Config, s: State, e: Event, s': State) {
    Can(c, s, e) && s' == Apply(owner, c, s, e)
  }

  /** The states that events, each when it is its turn, lead through from the start. */
  ghost predicate IsRun(owner: string, c: Config, rows: seq<Row>, events: seq<Event>, states: seq<State>)
    requires UniqueIds(rows)
  {
    && |states| == |events| + 1
    && states[0] == Start(c, rows)
    && forall k :: 0 <= k < |events| ==> IsStep(owner, c, states[k], events[k], states[k + 1])
  }

  /** Every state of a run satisfies the invariant. */
  lemma {:induction false} RunKeepsInv(
    owner: string, c: Config, rows: seq<Row>, events: seq<Event>, states: seq<State>, k: nat)
    requires UniqueIds(rows) && IsRun(owner, c, rows, events, states) && k < |states|
    ensures Inv(c, states[k])
  {
    if k == 0 {
      StartInv(c, rows);
    } else {
      RunKeepsInv(owner, c, rows, events, states, k - 1);
      assert IsStep(owner, c, states[k - 1], events[k - 1], states[k - 1 + 1]);
      EventKeepsInv(owner, c, states[k - 1], events[k - 1]);
    }
  }

  // ---- What holds in every reachable state ----

  /** The five places an admitted run can be in. */
  ghost predicate IsPersisting(q: Queue, id: string) { id in q.storing }
  ghost predicate IsQueued(q: Queue, id: string) { id in q.queue }
  ghost predicate IsRunning(q: Queue, id: string) {
    exists r :: 0 <= r < |q.runners| && q.runners[r] == Busy(id) && id in q.trackers && q.trackers[id].final.None?
  }
  ghost predicate IsFinishing(q: Queue, id: string) { IsSwept(q, id) }
  ghost predicate IsDone(q: Queue, id: string) { id in q.trackers && q.trackers[id].final.Some? }

  function Count(b: bool): nat { if b then 1 else 0 }

  /** Exactly-once ownership: every admitted run is in exactly one of the five places,
      and has been completed exactly if it is done, and then once. */
  lemma InExactlyOnePlace(c: Config, s: State, id: string)
    requires Inv(c, s) && id in s.q.trackers
    ensures Count(IsPersisting(s.q, id)) + Count(IsQueued(s.q, id)) + Count(IsRunning(s.q, id))
            + Count(IsFinishing(s.q, id)) + Count(IsDone(s.q, id)) == 1
    ensures s.q.completions[id] == Count(IsDone(s.q, id))
  {
    var q := s.q;
    assert id in q.phase;
    if q.phase[id].Held? && q.phase[id].stage != Completed {
      assert q.runners[q.phase[id].runner] == Busy(id);
    }
    if r :| 0 <= r < |q.runners| && q.runners[r] == Busy(id) {
      assert IsHeld(q, r);
    }
  }

  /** The runs an event drops: taken out of the queue by cancel or stop, or refused. */
  function DroppedBy(q: Queue, e: Event): set<string> {
    match e
    case CancelQueued(id) => {id}
    case Refuse(id) => {id}
    case Stop => ElementsOf(q.queue)
    case _ => {}
  }

  lemma StepDrops(owner: string, c: Config, s: State, e: Event, s': State)
    requires IsStep(owner, c, s, e, s')
    ensures s'.q.dropped == s.q.dropped + DroppedBy(s.q, e)
  {
  }

  lemma {:induction false} DroppedForGood(
    owner: string, c: Config, rows: seq<Row>, events: seq<Event>, states: seq<State>, k: nat, l: nat)
    requires UniqueIds(rows) && IsRun(owner, c, rows, events, states) && k < l < |states|
    ensures DroppedBy(states[k].q, events[k]) <= states[l].q.dropped
  {
    assert IsStep(owner, c, states[l - 1], events[l - 1], states[l - 1 + 1]);
    StepDrops(owner, c, states[l - 1], events[l - 1], states[l]);
    if k + 1 < l {
      DroppedForGood(owner, c, rows, events, states, k, l - 1);
    }
  }

  /** A run for which cancel has answered Cancelled, which stop has swept up, or which
      submit has refused is never executed, before or after. */
  lemma DroppedIsNeverExecuted(
    owner: string, c: Config, rows: seq<Row>, events: seq<Event>, states: seq<State>, k: nat, id: string)
    requires UniqueIds(rows) && IsRun(owner, c, rows, events, states)
    requires k < |events| && id in DroppedBy(states[k].q, events[k])
    ensures id !in states[|events|].q.started
  {
    var n := |events|;
    DroppedForGood(owner, c, rows, events, states, k, n);
    RunKeepsInv(owner, c, rows, events, states, n);
    ExecutedInOrderOnce(states[n].q, id);
  }

  // ---- Status monotonicity ----

  /** How one event may change a run's row: a new row is queued, a live one moves on, a
      final one stays as it is or is deleted. */
  predicate Moves(before: Option<Row>, after: Option<Row>) {
    match before
    case None => after.Some? ==> after.value.run.status == Queued
    case Some(row) =>
      if IsLive(row.run.status)
      then after.Some? && (after == before || after.value.run.status != Queued)
      else after == before || after == None
  }

  lemma WriteMoves(t: Table, record: RunRecord, id: string)
    requires record.status != Queued
    ensures Moves(Get(t.rows, id), Get(Write(t, record).rows, id))
  {
    GetOfUpdated(t.rows, record, id);
  }

  lemma WritesMove(owner: string, c: Config, s: State, e: Event, id: string)
    requires RecordsOk(s.q) && Can(c, s, e) && (e.MarkRunning? || e.StoreFinal? || e.SweepStore?)
    ensures Moves(Get(s.t.rows, id), Get(DoTable(owner, c, s, e).rows, id))
  {
    match e
    case MarkRunning(r, now, _) => WriteMoves(s.t, JobService.Started(s.q.trackers[s.q.runners[r].id].run, now), id);
    case StoreFinal(r, fails, fallbackFails) =>
      WriteMoves(s.t, FinalRecord(s.t, StageOf(s.q, r).record, fails, fallbackFails), id);
    case SweepStore(x, reason, now, _) => WriteMoves(s.t, CancelledRecord(s.q, x, reason, now), id);
  }

  /** Whatever happens, every run's status only moves on, and a final one never changes. */
  lemma StatusMoves(owner: string, c: Config, s: State, e: Event, id: string)
    requires Inv(c, s) && Can(c, s, e)
    ensures Moves(Get(s.t.rows, id), Get(Apply(owner, c, s, e).t.rows, id))
  {
    RowsMove(owner, c, s, e, id);
  }

  lemma RowsMove(owner: string, c: Config, s: State, e: Event, id: string)
    requires RecordsOk(s.q) && UniqueIds(s.t.rows) && Can(c, s, e)
    ensures Moves(Get(s.t.rows, id), Get(DoTable(owner, c, s, e).rows, id))
  {
    if e.Insert? {
      GetOfInserted(s.t.rows, Row(e.run, Some(owner)), id);
    } else if e.Prune? {
      GetOfPruned(s.t.rows, e.keep, id);
    } else if e.MarkRunning? || e.StoreFinal? || e.SweepStore? {
      WritesMove(owner, c, s, e, id);
    }
  }

  // ---- Quiescence ----

  ghost predicate NoSweeps(q: Queue, sweeper: Sweeper) {
    forall id :: id in q.phase && q.phase[id].Sweeping? ==> q.phase[id].sweeper != sweeper
  }

  /** The call of stop that took the queue down has returned. */
  ghost predicate StopReturned(q: Queue) {
    && q.stopping && NoSweeps(q, ByStop)
    && forall r :: 0 <= r < |q.runners| ==> q.runners[r] == Exited
  }

  ghost predicate SubmitsReturned(q: Queue) {
    q.asking == 0 && q.failed == 0 && q.storing == {} && NoSweeps(q, BySubmit)
  }

  predicate HasLiveRow(t: Table, id: string) {
    JobService.WasLive(t.rows, id)
  }

  lemma SettledButForCancels(c: Config, q: Queue, id: string)
    requires QueueInv(c, q) && StopReturned(q) && SubmitsReturned(q) && id in q.phase
    ensures q.phase[id] == Done || (q.phase[id].Sweeping? && q.phase[id].sweeper == ByCancel)
  {
    assert id !in q.queue && id !in q.storing;
  }

  /** Once stop and every submit have returned, an admitted run still has a live row
      exactly if a call of cancel has taken it and not yet recorded that. */
  lemma QuiescentButForCancels(c: Config, s: State, id: string)
    requires Inv(c, s) && s.t.writesOk && StopReturned(s.q) && SubmitsReturned(s.q) && id in s.q.phase
    ensures HasLiveRow(s.t, id) <==> s.q.phase[id] == Sweeping(ByCancel, None)
  {
    SettledButForCancels(c, s.q, id);
    if !IsUnwritten(s.q.phase[id]) {
      assert IsOnRecord(s, id);
    } else {
      assert UnwrittenRow(s.t, s.q.trackers[id].run);
    }
  }

  // ---- Waiting ----

  /** What wait answers: the tracker's record while the run is active, else the stored one if final. */
  function WaitAnswer(s: State, id: string): Option<RunRecord> {
    if id in s.q.active && id in s.q.trackers then s.q.trackers[id].final
    else if HasRow(s.t.rows, id) && !IsLive(Get(s.t.rows, id).value.run.status) then Some(Get(s.t.rows, id).value.run)
    else None
  }

  /** Whatever wait returns is the final row as it was stored; so is a record that a
      tracker fetched earlier comes to hold. */
  lemma WaitReturnsStored(c: Config, s: State, id: string)
    requires Inv(c, s) && s.t.writesOk
    ensures WaitAnswer(s, id).Some? ==> id in s.t.finals && WaitAnswer(s, id) == Some(s.t.finals[id])
    ensures id in s.q.trackers && s.q.trackers[id].final.Some? ==>
              id in s.t.finals && s.q.trackers[id].final == Some(s.t.finals[id])
  {
    if id in s.q.trackers && s.q.trackers[id].final.Some? {
      CompletedIsOnRecord(s, id);
    }
  }

  lemma CompletedIsOnRecord(s: State, id: string)
    requires s.q.phase.Keys == s.q.trackers.Keys && Completions(s.q) && TableOk(s) && s.t.writesOk
    requires id in s.q.trackers && s.q.trackers[id].final.Some?
    ensures id in s.t.finals && s.q.trackers[id].final == Some(s.t.finals[id])
  {
    assert IsOver(s.q.phase[id]);
    assert IsOnRecord(s, id);
  }

  // ---- Why the cancels have to have returned ----

  const ONE_RUNNER := Config(1, 0)

  function QueueWith(run: RunRecord, queue: seq<string>, phase: Phase, dropped: set<string>): Queue {
    Queue(queue, ElementsOf(queue), 0, 0, false, map[run.id := Tracker(run, false, None)], [Waiting], 0, 0, {},
          map[run.id := phase], [run.id], [], dropped, multiset{})
  }

  lemma InsertFirst(owner: string, run: RunRecord) returns (states: seq<State>)
    requires run.status == Queued
    ensures IsRun(owner, ONE_RUNNER, [], [Ask, Insert(run)], states)
    ensures states[2].q == QueueWith(run, [], Persisting, {}).(reserved := 1, storing := {run.id}, enqueued := [])
    ensures states[2].t == Table([Row(run, Some(owner))], map[], true)
  {
    var s0 := Start(ONE_RUNNER, []);
    assert s0.q.runners == [Waiting];
    var s1 := Apply(owner, ONE_RUNNER, s0, Ask);
    states := [s0, s1, Apply(owner, ONE_RUNNER, s1, Insert(run))];
  }

  lemma EnqueueFirst(owner: string, run: RunRecord) returns (states: seq<State>)
    requires run.status == Queued
    ensures IsRun(owner, ONE_RUNNER, [], [Ask, Insert(run), Enqueue(run.id)], states)
    ensures states[3] == State(QueueWith(run, [run.id], InQueue, {}), Table([Row(run, Some(owner))], map[], true))
  {
    var first := InsertFirst(owner, run);
    var last := Apply(owner, ONE_RUNNER, first[2], Enqueue(run.id));
    assert last.q == QueueWith(run, [run.id], InQueue, {});
    states := first + [last];
    var events := [Ask, Insert(run), Enqueue(run.id)];
    forall k | 0 <= k < 3 ensures IsStep(owner, ONE_RUNNER, states[k], events[k], states[k + 1]) {
      if k < 2 {
        assert IsStep(owner, ONE_RUNNER, first[k], [Ask, Insert(run)][k], first[k + 1]);
      }
    }
  }

  /** Between cancel's critical section and its write. */
  function Cancelling(run: RunRecord): Queue {
    QueueWith(run, [], Sweeping(ByCancel, None), {run.id})
  }

  lemma CancelFirst(run: RunRecord)
    ensures Dropped(QueueWith(run, [run.id], InQueue, {}), {run.id}, ByCancel) == Cancelling(run)
  {
    assert Kept([run.id], {run.id}) == [] by { assert [run.id][..0] == []; }
    assert Dropped(QueueWith(run, [run.id], InQueue, {}), {run.id}, ByCancel).phase == Cancelling(run).phase;
  }

  lemma StopThen(run: RunRecord)
    ensures var q := Stopped(Cancelling(run)).(runners := [Exited]);
            q.queue == [] && StopReturned(q) && SubmitsReturned(q)
  {
    assert ElementsOf([]) == {};
  }

  lemma CancelAndStop(owner: string, run: RunRecord) returns (states: seq<State>)
    requires run.status == Queued
    ensures |states| == 4
    ensures states[0] == State(QueueWith(run, [run.id], InQueue, {}), Table([Row(run, Some(owner))], map[], true))
    ensures forall k :: 0 <= k < 3 ==>
              IsStep(owner, ONE_RUNNER, states[k], [CancelQueued(run.id), Stop, Exit(0)][k], states[k + 1])
    ensures StopReturned(states[3].q) && SubmitsReturned(states[3].q)
    ensures states[3].t.writesOk && HasLiveRow(states[3].t, run.id)
  {
    var c, id := ONE_RUNNER, run.id;
    var t := Table([Row(run, Some(owner))], map[], true);
    var s0 := State(QueueWith(run, [id], InQueue, {}), t);
    CancelFirst(run);
    StopThen(run);
    var s1 := State(Cancelling(run), t);
    var s2 := State(Stopped(s1.q), t);
    var s3 := State(s2.q.(runners := [Exited]), t);
    states := [s0, s1, s2, s3];
    assert s2.q.runners[0 := Exited] == [Exited];
    assert Get(t.rows, id) == Some(Row(run, Some(owner)));
  }

  /**
   Stop and every submit have returned, every status write has succeeded, and yet an
   admitted run is live: a call of cancel has taken it out of the queue, so that stop
   does not see it, and has not recorded it as cancelled yet.
  */
  lemma OutstandingCancelLeavesRunLive(owner: string, run: RunRecord) returns (events: seq<Event>, states: seq<State>)
    requires run.status == Queued
    ensures IsRun(owner, ONE_RUNNER, [], events, states)
    ensures var s := states[|events|];
            StopReturned(s.q) && SubmitsReturned(s.q) && s.t.writesOk && HasLiveRow(s.t, run.id)
  {
    var first := EnqueueFirst(owner, run);
    var rest := CancelAndStop(owner, run);
    events := [Ask, Insert(run), Enqueue(run.id)] + [CancelQueued(run.id), Stop, Exit(0)];
    states := first + rest[1..];
    forall k | 0 <= k < 6 ensures IsStep(owner, ONE_RUNNER, states[k], events[k], states[k + 1]) {
      if k < 3 {
        assert IsStep(owner, ONE_RUNNER, first[k], [Ask, Insert(run), Enqueue(run.id)][k], first[k + 1]);
      } else {
        assert IsStep(owner, ONE_RUNNER, rest[k - 3], [CancelQueued(run.id), Stop, Exit(0)][k - 3], rest[k - 3 + 1]);
      }
    }
  }
}
