/**
 Which status a run ends with: told from the events that concluded it, or that swept it up.
*/
module RunQueueOutcomes {
  import opened Wrappers
  import opened RunStore
  import opened RunQueue
  import JobService

  // ---- What the events say ----

  /** The run has been asked to stop: by cancel while it was running, or by stop. */
  predicate WasAsked(past: seq<Event>, id: string) {
    CancelRunning(id) in past || Stop in past
  }

  /** What the engine came to, and whether the run was asked to stop before, make this record. */
  predicate IsVerdict(past: seq<Event>, id: string, e: Event, record: RunRecord)
    requires e.Conclude?
  {
    var succeeded := e.engine.Returned? && e.engine.success;
    && (record.status == Success <==> succeeded)
    && (record.status == Cancelled <==> !succeeded && (e.shutdown || WasAsked(past, id)))
    && (record.status == Failed <==> !succeeded && !e.shutdown && !WasAsked(past, id))
    && record.finishedAt == Some(e.now)
    && (record.result == "null" || (e.engine.Returned? && record.result == e.engine.result))
  }

  /** The m-th event concludes the run, with this record. */
  ghost predicate ConcludedAt(events: seq<Event>, states: seq<State>, m: nat, id: string, record: RunRecord) {
    && m < |events| && m < |states| && events[m].Conclude?
    && events[m].runner < |states[m].q.runners| && states[m].q.runners[events[m].runner] == Busy(id)
    && IsVerdict(events[..m], id, events[m], record)
  }

  ghost predicate IsConcluded(events: seq<Event>, states: seq<State>, k: nat, id: string, record: RunRecord) {
    exists m: nat :: m < k && ConcludedAt(events, states, m, id, record)
  }

  /** The m-th event records the run, which was swept up before it started, as cancelled. */
  ghost predicate SweptAt(events: seq<Event>, m: nat, id: string, record: RunRecord) {
    && m < |events| && events[m].SweepStore? && events[m].id == id
    && record.status == Cancelled && record.error == events[m].reason && record.finishedAt == Some(events[m].now)
  }

  ghost predicate IsSweptUp(events: seq<Event>, k: nat, id: string, record: RunRecord) {
    exists m: nat :: m < k && SweptAt(events, m, id, record)
  }

  // ---- What is known of a run on its way ----

  /** The run's place, its stop token and its record, told from the first k events. */
  ghost predicate Told(events: seq<Event>, states: seq<State>, k: nat, q: Queue, id: string)
    requires k <= |events|
  {
    && (q.stopping <==> Stop in events[..k])
    && if id !in q.phase || id !in q.trackers then CancelRunning(id) !in events[..k]
       else
         match q.phase[id]
         case Persisting => CancelRunning(id) !in events[..k] && !q.trackers[id].stop
         case InQueue => CancelRunning(id) !in events[..k] && !q.trackers[id].stop
         case Held(_, Picked) => q.trackers[id].stop <==> WasAsked(events[..k], id)
         case Held(_, Executing(_)) => q.trackers[id].stop <==> WasAsked(events[..k], id)
         case Held(_, Concluded(record)) => IsConcluded(events, states, k, id, record)
         case Held(_, Stored(record)) => IsConcluded(events, states, k, id, record)
         case Held(_, Completed) =>
           q.trackers[id].final.Some? && IsConcluded(events, states, k, id, q.trackers[id].final.value)
         case Sweeping(_, record) => record.Some? ==> IsSweptUp(events, k, id, record.value)
         case Done =>
           && q.trackers[id].final.Some?
           && (id in q.started ==> IsConcluded(events, states, k, id, q.trackers[id].final.value))
           && (id in q.dropped ==> IsSweptUp(events, k, id, q.trackers[id].final.value))
  }

  lemma StillConcluded(events: seq<Event>, states: seq<State>, k: nat, id: string, record: RunRecord)
    requires IsConcluded(events, states, k, id, record)
    ensures IsConcluded(events, states, k + 1, id, record)
  {
    var m: nat :| m < k && ConcludedAt(events, states, m, id, record);
    assert m < k + 1;
  }

  lemma StillSweptUp(events: seq<Event>, k: nat, id: string, record: RunRecord)
    requires IsSweptUp(events, k, id, record)
    ensures IsSweptUp(events, k + 1, id, record)
  {
    var m: nat :| m < k && SweptAt(events, m, id, record);
    assert m < k + 1;
  }

  lemma OneMore(events: seq<Event>, k: nat)
    requires k < |events|
    ensures forall e :: e in events[..k + 1] <==> e in events[..k] || e == events[k]
  {
    assert events[..k + 1] == events[..k] + [events[k]];
  }

  /** The run is where it was, and nothing has been asked of it. */
  ghost predicate Untouched(q: Queue, e: Event, q': Queue, id: string) {
    && e != Stop && e != CancelRunning(id) && q'.stopping == q.stopping
    && (id in q.phase <==> id in q'.phase) && (id in q.trackers <==> id in q'.trackers)
    && (id in q.phase && id in q'.phase ==> q'.phase[id] == q.phase[id])
    && (id in q.trackers && id in q'.trackers ==> q'.trackers[id] == q.trackers[id])
    && (id in q.phase && q.phase[id] == Done ==>
          (id in q'.started <==> id in q.started) && (id in q'.dropped <==> id in q.dropped))
  }

  lemma UntouchedIsTold(events: seq<Event>, states: seq<State>, k: nat, q: Queue, q': Queue, id: string)
    requires k < |events| && Told(events, states, k, q, id) && Untouched(q, events[k], q', id)
    ensures Told(events, states, k + 1, q', id)
  {
    OneMore(events, k);
    if id in q.phase && id in q.trackers {
      match q.phase[id]
      case Held(_, Concluded(record)) => StillConcluded(events, states, k, id, record);
      case Held(_, Stored(record)) => StillConcluded(events, states, k, id, record);
      case Held(_, Completed) => StillConcluded(events, states, k, id, q.trackers[id].final.value);
      case Sweeping(_, record) => if record.Some? { StillSweptUp(events, k, id, record.value); }
      case Done => {
        if id in q.started { StillConcluded(events, states, k, id, q.trackers[id].final.value); }
        if id in q.dropped { StillSweptUp(events, k, id, q.trackers[id].final.value); }
      }
      case _ =>
    }
  }

  // ---- What each event makes of it ----

  /** The event is about this run. */
  predicate Touches(q: Queue, e: Event, id: string) {
    match e
    case Insert(run) => run.id == id
    case Enqueue(x) => x == id
    case Refuse(x) => x == id
    case Pick(_) => q.queue != [] && q.queue[0] == id
    case MarkRunning(r, _, _) => Holds(q, r, id)
    case Conclude(r, _, _, _) => Holds(q, r, id)
    case StoreFinal(r, _, _) => Holds(q, r, id)
    case Complete(r) => Holds(q, r, id)
    case Release(r) => Holds(q, r, id)
    case CancelQueued(x) => x == id
    case CancelRunning(x) => x == id
    case Stop => true
    case SweepStore(x, _, _, _) => x == id
    case SweepComplete(x) => x == id
    case _ => false
  }

  predicate Holds(q: Queue, r: nat, id: string) {
    r < |q.runners| && q.runners[r] == Busy(id)
  }

  lemma RunnerLeavesOthers(c: Config, q: Queue, e: Event, final: RunRecord, id: string)
    requires Places(q) && CanQueue(c, q, e) && IsRunnerEvent(e) && !Touches(q, e, id)
    ensures Untouched(q, e, DoQueue(c, q, e, final), id)
  {
  }

  lemma CallerLeavesOthers(c: Config, q: Queue, e: Event, final: RunRecord, id: string)
    requires Places(q) && CanQueue(c, q, e) && !IsRunnerEvent(e) && !Touches(q, e, id)
    ensures Untouched(q, e, DoQueue(c, q, e, final), id)
  {
  }

  /** What holds before the k-th event, which can happen. */
  ghost predicate Before(c: Config, events: seq<Event>, states: seq<State>, k: nat, id: string) {
    && k < |events| && k < |states|
    && CanQueue(c, states[k].q, events[k])
    && Told(events, states, k, states[k].q, id)
  }

  lemma SubmitIsTold(c: Config, events: seq<Event>, states: seq<State>, k: nat, id: string, final: RunRecord)
    requires k < |states| && Places(states[k].q)
    requires Before(c, events, states, k, id) && Touches(states[k].q, events[k], id)
    requires events[k].Insert? || events[k].Enqueue? || events[k].Refuse?
    ensures Told(events, states, k + 1, DoQueue(c, states[k].q, events[k], final), id)
  {
    OneMore(events, k);
  }

  lemma PickIsTold(c: Config, events: seq<Event>, states: seq<State>, k: nat, id: string, final: RunRecord)
    requires k < |states| && Places(states[k].q) && Completions(states[k].q)
    requires Before(c, events, states, k, id) && Touches(states[k].q, events[k], id)
    requires events[k].Pick? || events[k].MarkRunning?
    ensures Told(events, states, k + 1, DoQueue(c, states[k].q, events[k], final), id)
  {
    OneMore(events, k);
    if events[k].Pick? { assert id in states[k].q.queue; }
  }

  lemma ConcludeIsTold(c: Config, events: seq<Event>, states: seq<State>, k: nat, id: string, final: RunRecord)
    requires Before(c, events, states, k, id) && Touches(states[k].q, events[k], id) && events[k].Conclude?
    ensures Told(events, states, k + 1, DoQueue(c, states[k].q, events[k], final), id)
  {
    OneMore(events, k);
    var q, e := states[k].q, events[k];
    var asked := q.trackers[id].stop || e.shutdown;
    var record := JobService.Concluded(StageOf(q, e.runner).record, e.engine, asked, e.now);
    assert ConcludedAt(events, states, k, id, record);
    assert IsConcluded(events, states, k + 1, id, record);
  }

  /** Without its result, a record still says the same of the run. */
  lemma FallbackIsVerdict(
    events: seq<Event>, states: seq<State>, k: nat, id: string, record: RunRecord, final: RunRecord)
    requires IsConcluded(events, states, k, id, record) && final in {record, JobService.Fallback(record)}
    ensures IsConcluded(events, states, k + 1, id, final)
  {
    var m: nat :| m < k && ConcludedAt(events, states, m, id, record);
    assert ConcludedAt(events, states, m, id, final);
  }

  lemma StoreIsTold(c: Config, events: seq<Event>, states: seq<State>, k: nat, id: string, final: RunRecord)
    requires Before(c, events, states, k, id) && Touches(states[k].q, events[k], id) && events[k].StoreFinal?
    requires final in {StageOf(states[k].q, events[k].runner).record,
                       JobService.Fallback(StageOf(states[k].q, events[k].runner).record)}
    ensures Told(events, states, k + 1, DoQueue(c, states[k].q, events[k], final), id)
  {
    OneMore(events, k);
    FallbackIsVerdict(events, states, k, id, StageOf(states[k].q, events[k].runner).record, final);
  }

  lemma CompleteIsTold(c: Config, events: seq<Event>, states: seq<State>, k: nat, id: string, final: RunRecord)
    requires Before(c, events, states, k, id) && Touches(states[k].q, events[k], id) && events[k].Complete?
    ensures Told(events, states, k + 1, DoQueue(c, states[k].q, events[k], final), id)
  {
    OneMore(events, k);
    StillConcluded(events, states, k, id, StageOf(states[k].q, events[k].runner).record);
  }

  lemma ReleaseIsTold(c: Config, events: seq<Event>, states: seq<State>, k: nat, id: string, final: RunRecord)
    requires k < |states| && Ordered(states[k].q)
    requires Before(c, events, states, k, id) && Touches(states[k].q, events[k], id) && events[k].Release?
    ensures Told(events, states, k + 1, DoQueue(c, states[k].q, events[k], final), id)
  {
    OneMore(events, k);
    var q := states[k].q;
    ExecutedInOrderOnce(q, id);
    StillConcluded(events, states, k, id, q.trackers[id].final.value);
  }

  lemma SweepIsTold(c: Config, events: seq<Event>, states: seq<State>, k: nat, id: string, final: RunRecord)
    requires k < |states| && Ordered(states[k].q)
    requires Before(c, events, states, k, id) && Touches(states[k].q, events[k], id)
    requires events[k].SweepStore? || events[k].SweepComplete?
    ensures Told(events, states, k + 1, DoQueue(c, states[k].q, events[k], final), id)
  {
    OneMore(events, k);
    var q, e := states[k].q, events[k];
    if e.SweepStore? {
      var record := CancelledRecord(q, id, e.reason, e.now);
      assert SweptAt(events, k, id, record);
      assert IsSweptUp(events, k + 1, id, record);
    } else {
      ExecutedInOrderOnce(q, id);
      StillSweptUp(events, k, id, q.phase[id].record.value);
    }
  }

  lemma CancelIsTold(c: Config, events: seq<Event>, states: seq<State>, k: nat, id: string, final: RunRecord)
    requires k < |states| && Places(states[k].q)
    requires Before(c, events, states, k, id) && Touches(states[k].q, events[k], id)
    requires events[k].CancelQueued? || events[k].CancelRunning?
    ensures Told(events, states, k + 1, DoQueue(c, states[k].q, events[k], final), id)
  {
    OneMore(events, k);
    if events[k].CancelRunning? { AskingIsTold(events, states, k, states[k].q, StopRequested(states[k].q, {id}), id); }
  }

  /** A running run has been asked to stop. */
  lemma AskingIsTold(events: seq<Event>, states: seq<State>, k: nat, q: Queue, q': Queue, id: string)
    requires k < |events| && Told(events, states, k, q, id) && WasAsked(events[..k + 1], id)
    requires id in q.phase && id in q.trackers && id in q'.phase && id in q'.trackers && q.phase[id].Held?
    requires q'.phase[id] == q.phase[id] && q'.trackers[id] == q.trackers[id].(stop := true)
    requires q'.stopping <==> Stop in events[..k + 1]
    ensures Told(events, states, k + 1, q', id)
  {
    match q.phase[id].stage
    case Concluded(record) => StillConcluded(events, states, k, id, record);
    case Stored(record) => StillConcluded(events, states, k, id, record);
    case Completed => StillConcluded(events, states, k, id, q.trackers[id].final.value);
    case _ =>
  }

  /** What stop does to one run. */
  lemma StopMoves(q: Queue, id: string)
    requires Places(q)
    ensures var q' := Stopped(q);
      && q'.stopping && q'.started == q.started
      && (id in q'.phase <==> id in q.phase) && (id in q'.trackers <==> id in q.phase)
      && (id in q.phase ==>
            && q'.phase[id] == (if q.phase[id] == InQueue then Sweeping(ByStop, None) else q.phase[id])
            && q'.trackers[id] == q.trackers[id].(stop := q.phase[id].Held? || q.trackers[id].stop)
            && (q.phase[id] == Done ==> (id in q'.dropped <==> id in q.dropped)))
  {
  }

  lemma StopIsTold(c: Config, events: seq<Event>, states: seq<State>, k: nat, id: string, final: RunRecord)
    requires k < |states| && Places(states[k].q)
    requires Before(c, events, states, k, id) && events[k] == Stop
    ensures Told(events, states, k + 1, DoQueue(c, states[k].q, events[k], final), id)
  {
    OneMore(events, k);
    var q := states[k].q;
    var q' := Stopped(q);
    StopMoves(q, id);
    if id in q.phase && q.phase[id].Held? {
      AskingIsTold(events, states, k, q, q', id);
    } else if id in q.phase && q.phase[id].Sweeping? && q.phase[id].record.Some? {
      StillSweptUp(events, k, id, q.phase[id].record.value);
    } else if id in q.phase && q.phase[id] == Done {
      if id in q.started { StillConcluded(events, states, k, id, q.trackers[id].final.value); }
      if id in q.dropped { StillSweptUp(events, k, id, q.trackers[id].final.value); }
    }
  }

  lemma QueueIsTold(c: Config, events: seq<Event>, states: seq<State>, k: nat, id: string, final: RunRecord)
    requires Before(c, events, states, k, id)
    requires Places(states[k].q) && Completions(states[k].q) && Ordered(states[k].q)
    requires events[k].StoreFinal? ==> final in {StageOf(states[k].q, events[k].runner).record,
                                                 JobService.Fallback(StageOf(states[k].q, events[k].runner).record)}
    ensures Told(events, states, k + 1, DoQueue(c, states[k].q, events[k], final), id)
  {
    var q, e := states[k].q, events[k];
    if !Touches(q, e, id) {
      if IsRunnerEvent(e) { RunnerLeavesOthers(c, q, e, final, id); } else { CallerLeavesOthers(c, q, e, final, id); }
      UntouchedIsTold(events, states, k, q, DoQueue(c, q, e, final), id);
    } else if e == Stop {
      StopIsTold(c, events, states, k, id, final);
    } else if e.Pick? || e.MarkRunning? {
      PickIsTold(c, events, states, k, id, final);
    } else if e.Conclude? {
      ConcludeIsTold(c, events, states, k, id, final);
    } else if e.StoreFinal? {
      StoreIsTold(c, events, states, k, id, final);
    } else if e.Complete? {
      CompleteIsTold(c, events, states, k, id, final);
    } else if e.Release? {
      ReleaseIsTold(c, events, states, k, id, final);
    } else if e.SweepStore? || e.SweepComplete? {
      SweepIsTold(c, events, states, k, id, final);
    } else if e.CancelQueued? || e.CancelRunning? {
      CancelIsTold(c, events, states, k, id, final);
    } else {
      SubmitIsTold(c, events, states, k, id, final);
    }
  }

  lemma StepIsTold(owner: string, c: Config, events: seq<Event>, states: seq<State>, k: nat, id: string)
    requires k < |events| && k + 1 < |states| && Inv(c, states[k])
    requires IsStep(owner, c, states[k], events[k], states[k + 1])
    requires Told(events, states, k, states[k].q, id)
    ensures Told(events, states, k + 1, states[k + 1].q, id)
  {
    var s, e := states[k], events[k];
    var final := if e.StoreFinal? then FinalRecord(s.t, StageOf(s.q, e.runner).record, e.fails, e.fallbackFails)
                 else RunRecord("", None, "", Queued, None, None, "", "", None);
    QueueIsTold(c, events, states, k, id, final);
  }

  /** In every state of a run of the machine. */
  lemma {:induction false} RunIsTold(
    owner: string, c: Config, rows: seq<Row>, events: seq<Event>, states: seq<State>, k: nat, id: string)
    requires UniqueIds(rows) && IsRun(owner, c, rows, events, states) && k < |states|
    ensures Told(events, states, k, states[k].q, id)
  {
    if k == 0 {
      StartIsTold(c, rows, events, states, id);
    } else {
      RunIsTold(owner, c, rows, events, states, k - 1, id);
      TellsOn(owner, c, rows, events, states, k - 1, id);
    }
  }

  lemma StartIsTold(c: Config, rows: seq<Row>, events: seq<Event>, states: seq<State>, id: string)
    requires UniqueIds(rows)
    ensures Told(events, states, 0, Start(c, rows).q, id)
  {
  }

  lemma TellsOn(
    owner: string, c: Config, rows: seq<Row>, events: seq<Event>, states: seq<State>, k: nat, id: string)
    requires UniqueIds(rows) && IsRun(owner, c, rows, events, states) && k < |events|
    requires Told(events, states, k, states[k].q, id)
    ensures Told(events, states, k + 1, states[k + 1].q, id)
  {
    RunKeepsInv(owner, c, rows, events, states, k);
    StepIsTold(owner, c, events, states, k, id);
  }

  // ---- The status a run ends with ----

  lemma FinalIsOutcome(c: Config, s: State, id: string)
    requires Inv(c, s) && s.t.writesOk && id in s.q.phase
    requires HasRow(s.t.rows, id) && !IsLive(Get(s.t.rows, id).value.run.status)
    ensures id in s.q.trackers && Outcome(s.q, id) == Some(Get(s.t.rows, id).value.run)
  {
    assert IsUnwritten(s.q.phase[id]) ==> UnwrittenRow(s.t, s.q.trackers[id].run);
    assert IsOnRecord(s, id);
  }

  lemma OutcomeIsTold(events: seq<Event>, states: seq<State>, k: nat, q: Queue, id: string)
    requires k <= |events| && Told(events, states, k, q, id) && Ordered(q)
    requires id in q.phase && id in q.trackers && Outcome(q, id).Some?
    ensures (id in q.started) != (id in q.dropped)
    ensures id in q.started ==> IsConcluded(events, states, k, id, Outcome(q, id).value)
    ensures id in q.dropped ==> IsSweptUp(events, k, id, Outcome(q, id).value)
  {
    ExecutedInOrderOnce(q, id);
  }

  /**
   With successful writes, a final row says what has become of the run: one that was
   swept up before it started is cancelled, with the reason of the event that recorded it;
   one that was started has succeeded exactly if the engine did when it was concluded, is
   cancelled exactly if the engine did not and the run had been asked to stop before, and
   has failed otherwise.
  */
  lemma FinalStatusIs(
    owner: string, c: Config, rows: seq<Row>, events: seq<Event>, states: seq<State>, k: nat, id: string)
    requires UniqueIds(rows) && IsRun(owner, c, rows, events, states) && k < |states|
    requires states[k].t.writesOk && id in states[k].q.phase
    requires HasRow(states[k].t.rows, id) && !IsLive(Get(states[k].t.rows, id).value.run.status)
    ensures (id in states[k].q.started) != (id in states[k].q.dropped)
    ensures id in states[k].q.started ==>
              IsConcluded(events, states, k, id, Get(states[k].t.rows, id).value.run)
    ensures id in states[k].q.dropped ==> IsSweptUp(events, k, id, Get(states[k].t.rows, id).value.run)
  {
    RunKeepsInv(owner, c, rows, events, states, k);
    RunIsTold(owner, c, rows, events, states, k, id);
    FinalIsOutcome(c, states[k], id);
    OutcomeIsTold(events, states, k, states[k].q, id);
  }

  // ---- The row on its way there ----

  /** An admitted run's row is the record as accepted, under this process. */
  lemma InsertedRow(owner: string, c: Config, s: State, run: RunRecord)
    requires Inv(c, s) && Can(c, s, Insert(run))
    ensures Get(Apply(owner, c, s, Insert(run)).t.rows, run.id) == Some(Row(run, Some(owner)))
  {
    GetOfInserted(s.t.rows, Row(run, Some(owner)), run.id);
  }

  /** Marking a run that a runner has picked up as running, when the write succeeds, shows in its row. */
  lemma RunningRow(owner: string, c: Config, s: State, r: nat, now: nat)
    requires Inv(c, s) && Can(c, s, MarkRunning(r, now, false))
    ensures
      var row := Get(Apply(owner, c, s, MarkRunning(r, now, false)).t.rows, s.q.runners[r].id);
      row.Some? && row.value.run.status == Running && row.value.run.startedAt == Some(now)
  {
    var id := s.q.runners[r].id;
    assert UnwrittenRow(s.t, s.q.trackers[id].run);
    GetOfUpdated(s.t.rows, JobService.Started(s.q.trackers[id].run, now), id);
  }

  /** With successful writes, the row of a run that is done is final, and so is its record. */
  lemma DoneIsFinal(c: Config, s: State, id: string)
    requires Inv(c, s) && s.t.writesOk && id in s.q.phase && s.q.phase[id] == Done
    ensures !HasLiveRow(s.t, id)
    ensures id in s.t.finals && id in s.q.trackers && s.q.trackers[id].final == Some(s.t.finals[id])
  {
    assert IsOnRecord(s, id);
  }
}
