/**
 Executing a persisted run: what the run's outcome is recorded as, and how it is stored.
*/
module JobService {
  import opened Wrappers
  import opened RunStore

  /** What the engine does with a run. */
  datatype EngineOutcome =
    | Returned(success: bool, error: string, result: string)
    | Threw(message: string)
    | ThrewUnknown

  /** The record as the engine's outcome leaves it. */
  function Outcome(run: RunRecord, engine: EngineOutcome): RunRecord {
    match engine
    case Returned(success, error, result) =>
      run.(status := if success then Success else Failed, error := error, result := result)
    case Threw(message) => run.(status := Failed, error := message, result := "null")
    case ThrewUnknown => run.(status := Failed, error := "Unknown error while executing the run", result := "null")
  }

  /** The message of the engine's outcome. */
  predicate Says(engine: EngineOutcome, error: string) {
    match engine
    case Returned(_, message, _) => error == message
    case Threw(message) => error == message
    case ThrewUnknown => error == "Unknown error while executing the run"
  }

  /** A run that did not succeed and was asked to stop is cancelled. */
  function Concluded(run: RunRecord, engine: EngineOutcome, stopRequested: bool, now: nat): (r: RunRecord)
    ensures r.id == run.id && !IsLive(r.status) && r.status != Interrupted
    ensures r.status == Success <==> engine.Returned? && engine.success
    ensures r.status == Cancelled <==> !(engine.Returned? && engine.success) && stopRequested
    ensures r.status == Cancelled ==> r.error != ""
    ensures Says(engine, r.error) || (r.status == Cancelled && Says(engine, "") && r.error == "Cancelled")
    ensures r.result == if engine.Returned? then engine.result else "null"
    ensures r.finishedAt == Some(now) && r.startedAt == run.startedAt
    ensures r.jobId == run.jobId && r.trigger == run.trigger && r.queuedAt == run.queuedAt
  {
    var r := Outcome(run, engine);
    var settled :=
      if r.status != Success && stopRequested
      then r.(status := Cancelled, error := if r.error == "" then "Cancelled" else r.error)
      else r;
    settled.(finishedAt := Some(now))
  }

  /** The record without its result, when that could not be stored. */
  function Fallback(run: RunRecord): (r: RunRecord)
    ensures r.status == run.status && r.finishedAt == run.finishedAt && r.startedAt == run.startedAt
    ensures r.result == "null" && run.error <= r.error && r.error != run.error
  {
    run.(result := "null",
         error := (if run.error == "" then "" else run.error + "; ") + "the run's result could not be stored")
  }

  function Started(run: RunRecord, now: nat): RunRecord {
    run.(status := Running, startedAt := Some(now))
  }

  predicate WasLive(rows: seq<Row>, id: string) {
    HasRow(rows, id) && IsLive(Get(rows, id).value.run.status)
  }

  /** Updating a run that is not live changes nothing. */
  lemma UpdatedNotLive(rows: seq<Row>, run: RunRecord)
    requires UniqueIds(rows) && !WasLive(rows, run.id)
    ensures Updated(rows, run) == rows
  {
    forall i | 0 <= i < |rows| ensures Updated(rows, run)[i] == rows[i] {
      GetIs(rows, i);
    }
  }

  /** Stores the final record; without its result if need be. A run that is no longer
      live is left as it is. */
  method StoreFinal(store: RunStore, run: RunRecord, fails: bool, fallbackFails: bool) returns (final: RunRecord)
    requires store.Valid() && !IsLive(run.status)
    modifies store`rows
    ensures store.Valid()
    ensures !WasLive(old(store.rows), run.id) ==> final == run && store.rows == old(store.rows)
    ensures WasLive(old(store.rows), run.id) ==>
              && final == (if fails && !fallbackFails then Fallback(run) else run)
              && store.rows == (if fails && fallbackFails then old(store.rows) else Updated(old(store.rows), final))
  {
    final := run;
    if !WasLive(store.rows, run.id) {
      UpdatedNotLive(store.rows, run);
      UpdatedNotLive(store.rows, Fallback(run));
    }
    var ok := store.UpdateRun(run, fails);
    if !ok {
      var fallback := Fallback(run);
      var stored := store.UpdateRun(fallback, fallbackFails);
      if stored {
        final := fallback;
      }
    }
  }

  method Conclude(run: RunRecord, engine: EngineOutcome, stopRequested: bool, now: nat) returns (r: RunRecord)
    ensures r == Concluded(run, engine, stopRequested, now)
  {
    r := Outcome(run, engine);
    if r.status != Success && stopRequested {
      r := r.(status := Cancelled);
      if r.error == "" { r := r.(error := "Cancelled"); }
    }
    r := r.(finishedAt := Some(now));
  }

  /**
   Executes a persisted run: marks it running, takes the engine's outcome, and stores
   what that comes to. Never leaves the run live unless both final writes fail.
  */
  method Execute(store: RunStore, run: RunRecord, engine: EngineOutcome, stopRequested: bool,
                 startedAt: nat, finishedAt: nat, startFails: bool, fails: bool, fallbackFails: bool)
    returns (final: RunRecord)
    requires store.Valid()
    modifies store`rows
    ensures store.Valid()
    ensures var concluded := Concluded(Started(run, startedAt), engine, stopRequested, finishedAt);
            final == concluded || final == Fallback(concluded)
    ensures final.status == Concluded(run, engine, stopRequested, finishedAt).status
    ensures WasLive(old(store.rows), run.id) && !(fails && fallbackFails) ==>
              && Get(store.rows, run.id).Some?
              && Get(store.rows, run.id).value.run.status == final.status
              && HasProgressOf(Get(store.rows, run.id).value, Get(old(store.rows), run.id).value, final)
  {
    var r := run.(status := Running, startedAt := Some(startedAt));
    GetOfUpdated(store.rows, r, r.id);
    var started := store.UpdateRun(r, startFails);
    r := Conclude(r, engine, stopRequested, finishedAt);
    ghost var marked := store.rows;
    final := StoreFinal(store, r, fails, fallbackFails);
    GetOfUpdated(marked, final, run.id);
  }
}
