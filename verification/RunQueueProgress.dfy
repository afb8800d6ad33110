/**
 That stop() comes to its end: once it has taken the queue down, the runs it has swept up
 and the runners have only so much left to do, and can always go on with it.
*/
module RunQueueProgress {
  import opened Wrappers
  import opened RunStore
  import opened RunQueue
  import JobService

  // ---- What is left to do ----

  function StageWork(stage: Stage): nat {
    match stage
    case Picked => 5
    case Executing(_) => 4
    case Concluded(_) => 3
    case Stored(_) => 2
    case Completed => 1
  }

  /** A runner is to finish its run and to exit. */
  function RunnerWork(q: Queue, r: nat): nat
    requires r < |q.runners|
  {
    match q.runners[r]
    case Waiting => 1
    case Busy(_) => 1 + if IsHeld(q, r) then StageWork(StageOf(q, r)) else 0
    case Exited => 0
  }

  function RunnersWork(q: Queue, n: nat): nat
    requires n <= |q.runners|
  {
    if n == 0 then 0 else RunnersWork(q, n - 1) + RunnerWork(q, n - 1)
  }

  /** The runs stop has swept up, and not yet or already recorded as cancelled. */
  function SweptByStop(q: Queue, stored: bool): set<string> {
    set id | id in q.phase && q.phase[id].Sweeping? && q.phase[id].sweeper == ByStop &&
             q.phase[id].record.Some? == stored
  }

  function StopWork(q: Queue): nat {
    2 * |SweptByStop(q, false)| + |SweptByStop(q, true)| + RunnersWork(q, |q.runners|)
  }

  /** An event of stop's own sweep, or of a runner. */
  predicate IsStopEvent(q: Queue, e: Event) {
    IsRunnerEvent(e) || ((e.SweepStore? || e.SweepComplete?) && e.id in SweptByStop(q, e.SweepComplete?))
  }

  // ---- Stop can go on ----

  lemma RunnerCanGoOn(c: Config, s: State, r: nat) returns (e: Event)
    requires QueueInv(c, s.q) && s.q.stopping && r < |s.q.runners| && s.q.runners[r] != Exited
    ensures Can(c, s, e) && IsStopEvent(s.q, e)
  {
    if s.q.runners[r] == Waiting {
      e := Exit(r);
    } else {
      assert IsHeld(s.q, r);
      e := match StageOf(s.q, r)
           case Picked => MarkRunning(r, 0, false)
           case Executing(_) => Conclude(r, JobService.ThrewUnknown, true, 0)
           case Concluded(_) => StoreFinal(r, false, false)
           case Stored(_) => Complete(r)
           case Completed => Release(r);
      if e.Release? { SomeoneIsBusy(s.q.runners, r); }
    }
  }

  lemma {:induction false} SomeoneIsBusy(runners: seq<Runner>, r: nat)
    requires r < |runners| && runners[r].Busy?
    ensures BusyCount(runners) > 0
  {
    if r < |runners| - 1 {
      SomeoneIsBusy(runners[..|runners| - 1], r);
    }
  }

  /** Until stop has returned, its sweep or, after that, a runner can go on. */
  lemma StopCanGoOn(c: Config, s: State) returns (e: Event)
    requires Inv(c, s) && s.q.stopping && !StopReturned(s.q)
    ensures Can(c, s, e) && IsStopEvent(s.q, e)
  {
    if id :| id in SweptByStop(s.q, false) {
      e := SweepStore(id, "", 0, false);
    } else if id :| id in SweptByStop(s.q, true) {
      e := SweepComplete(id);
    } else {
      assert NoSweeps(s.q, ByStop) by { AllSweptAreSwept(s.q); }
      var r :| 0 <= r < |s.q.runners| && s.q.runners[r] != Exited;
      e := RunnerCanGoOn(c, s, r);
    }
  }

  lemma AllSweptAreSwept(q: Queue)
    ensures SweptByStop(q, false) == {} && SweptByStop(q, true) == {} <==> NoSweeps(q, ByStop)
  {
    forall id | id in q.phase && q.phase[id].Sweeping? && q.phase[id].sweeper == ByStop
      ensures id in SweptByStop(q, false) || id in SweptByStop(q, true)
    {
    }
  }

  // ---- And comes nearer to its end ----

  /** Nothing changes for runner r. */
  ghost predicate SameRunner(q: Queue, q': Queue, r: nat)
    requires |q'.runners| == |q.runners|
  {
    r < |q.runners| ==>
      && q'.runners[r] == q.runners[r]
      && (q.runners[r].Busy? ==>
            var id := q.runners[r].id;
            id in q.phase && id in q'.phase && q'.phase[id] == q.phase[id] && (id in q.trackers <==> id in q'.trackers))
  }

  lemma {:induction false} RunnersWorkOfStep(q: Queue, q': Queue, r: nat, n: nat)
    requires |q'.runners| == |q.runners| && n <= |q.runners|
    requires forall s :: 0 <= s < |q.runners| && s != r ==> SameRunner(q, q', s)
    requires r < |q.runners| ==> RunnerWork(q', r) < RunnerWork(q, r)
    ensures RunnersWork(q', n) <= RunnersWork(q, n) - if r < n then 1 else 0
  {
    if n > 0 {
      RunnersWorkOfStep(q, q', r, n - 1);
      if n - 1 != r {
        assert SameRunner(q, q', n - 1);
        assert RunnerWork(q', n - 1) == RunnerWork(q, n - 1);
      }
    }
  }

  lemma HeldByOneOnly(q: Queue, r: nat, s: nat)
    requires Places(q) && IsHeld(q, r) && s < |q.runners| && s != r && q.runners[s].Busy?
    ensures q.runners[s].id != q.runners[r].id && IsHeld(q, s)
  {
    assert IsHeld(q, s);
  }

  /** A runner's event brings that runner nearer to its exit. */
  lemma RunnerEventWorks(c: Config, q: Queue, e: Event, final: RunRecord)
    requires Places(q) && CanQueue(c, q, e) && IsRunnerEvent(e) && !e.Pick?
    ensures var q' := DoQueue(c, q, e, final);
            |q'.runners| == |q.runners| && e.runner < |q.runners| && RunnerWork(q', e.runner) < RunnerWork(q, e.runner)
  {
  }

  lemma OtherRunnersStay(c: Config, q: Queue, e: Event, final: RunRecord, s: nat)
    requires Places(q) && CanQueue(c, q, e) && IsRunnerEvent(e) && !e.Pick? && s < |q.runners| && s != e.runner
    ensures var q' := DoQueue(c, q, e, final);
            |q'.runners| == |q.runners| && SameRunner(q, q', s)
  {
    if q.runners[s].Busy? {
      assert IsHeld(q, s);
      if !e.Exit? { HeldByOneOnly(q, e.runner, s); }
    }
  }

  /** An event of a caller leaves the runners as they are. */
  lemma CallerEventLeaves(c: Config, q: Queue, e: Event, final: RunRecord, s: nat)
    requires Places(q) && q.stopping && q.queue == [] && CanQueue(c, q, e) && !IsRunnerEvent(e) && s < |q.runners|
    ensures var q' := DoQueue(c, q, e, final);
            |q'.runners| == |q.runners| && SameRunner(q, q', s)
  {
    if q.runners[s].Busy? {
      assert IsHeld(q, s);
      var id := q.runners[s].id;
      assert id !in q.storing;
    }
  }

  lemma StillStopping(c: Config, q: Queue, e: Event, final: RunRecord)
    requires q.stopping && q.queue == [] && CanQueue(c, q, e)
    ensures DoQueue(c, q, e, final).stopping && !e.Pick?
  {
  }

  /** Only stop's own events touch the runs it has swept up. */
  lemma SweepsOfStep(c: Config, q: Queue, e: Event, final: RunRecord, stored: bool)
    requires Places(q) && q.stopping && q.queue == [] && CanQueue(c, q, e)
    ensures SweptByStop(DoQueue(c, q, e, final), stored) ==
            if !(e.SweepStore? || e.SweepComplete?) || !IsStopEvent(q, e) then SweptByStop(q, stored)
            else if e.SweepStore? && stored then SweptByStop(q, true) + {e.id}
            else SweptByStop(q, stored) - {e.id}
  {
    var q' := DoQueue(c, q, e, final);
    forall id ensures SameSweep(q, q', e, id) {
      if IsRunnerEvent(e) { SweepOfRunner(c, q, e, final, id); } else { SweepOfCaller(c, q, e, final, id); }
    }
  }

  /** Apart from stop's own events, a run is swept up by stop after the event just as before. */
  ghost predicate SameSweep(q: Queue, q': Queue, e: Event, id: string) {
    !((e.SweepStore? || e.SweepComplete?) && e.id == id) ==>
    ((id in q.phase && q.phase[id].Sweeping? && q.phase[id].sweeper == ByStop) ==
     (id in q'.phase && q'.phase[id].Sweeping? && q'.phase[id].sweeper == ByStop) &&
     (id in q.phase && q.phase[id].Sweeping? ==> id in q'.phase && q'.phase[id] == q.phase[id]))
  }

  lemma SweepOfRunner(c: Config, q: Queue, e: Event, final: RunRecord, id: string)
    requires Places(q) && q.stopping && q.queue == [] && CanQueue(c, q, e) && IsRunnerEvent(e)
    ensures SameSweep(q, DoQueue(c, q, e, final), e, id)
  {
  }

  lemma SweepOfCaller(c: Config, q: Queue, e: Event, final: RunRecord, id: string)
    requires Places(q) && q.stopping && q.queue == [] && CanQueue(c, q, e) && !IsRunnerEvent(e)
    ensures SameSweep(q, DoQueue(c, q, e, final), e, id)
  {
  }

  /** Stop's events leave less to do, and no other leaves more. */
  lemma StopEndsSooner(owner: string, c: Config, s: State, e: Event)
    requires Inv(c, s) && s.q.stopping && Can(c, s, e)
    ensures Apply(owner, c, s, e).q.stopping
    ensures StopWork(Apply(owner, c, s, e).q) <= StopWork(s.q) - if IsStopEvent(s.q, e) then 1 else 0
  {
    var final := if e.StoreFinal? then FinalRecord(s.t, StageOf(s.q, e.runner).record, e.fails, e.fallbackFails)
                 else RunRecord("", None, "", Queued, None, None, "", "", None);
    StillStopping(c, s.q, e, final);
    QueueWorkOfStep(c, s.q, e, final);
  }

  /** With nothing left to do, stop has returned. */
  lemma NothingLeftToDo(owner: string, c: Config, s: State)
    requires Inv(c, s) && s.q.stopping && StopWork(s.q) == 0
    ensures StopReturned(s.q)
  {
    if !StopReturned(s.q) {
      var e := StopCanGoOn(c, s);
      StopEndsSooner(owner, c, s, e);
    }
  }

  lemma QueueWorkOfStep(c: Config, q: Queue, e: Event, final: RunRecord)
    requires Places(q) && q.stopping && q.queue == [] && CanQueue(c, q, e) && !e.Pick?
    ensures StopWork(DoQueue(c, q, e, final)) <= StopWork(q) - if IsStopEvent(q, e) then 1 else 0
  {
    var q' := DoQueue(c, q, e, final);
    SweepsOfStep(c, q, e, final, false);
    SweepsOfStep(c, q, e, final, true);
    if IsRunnerEvent(e) {
      RunnerEventWorks(c, q, e, final);
      forall s | 0 <= s < |q.runners| && s != e.runner ensures SameRunner(q, q', s) {
        OtherRunnersStay(c, q, e, final, s);
      }
      RunnersWorkOfStep(q, q', e.runner, |q.runners|);
    } else {
      forall s | 0 <= s < |q.runners| ensures |q'.runners| == |q.runners| && SameRunner(q, q', s) {
        CallerEventLeaves(c, q, e, final, s);
      }
      assert |q'.runners| == |q.runners|;
      RunnersWorkOfStep(q, q', |q.runners|, |q.runners|);
    }
  }

  // ---- Over a whole run ----

  /** Which events are stop's, and what is left to do in each state. */
  function StopSteps(events: seq<Event>, states: seq<State>): seq<bool>
    requires |events| <= |states|
  {
    seq(|events|, i requires 0 <= i < |events| => IsStopEvent(states[i].q, events[i]))
  }

  function Works(states: seq<State>): seq<nat> {
    seq(|states|, i requires 0 <= i < |states| => StopWork(states[i].q))
  }

  /** How many are marked from the k-th on and before the l-th. */
  function Marked(marks: seq<bool>, k: nat, l: nat): nat
    requires l <= |marks|
  {
    if l <= k then 0 else Marked(marks, k, l - 1) + if marks[l - 1] then 1 else 0
  }

  lemma {:induction false} Falls(work: seq<nat>, marks: seq<bool>, k: nat, l: nat)
    requires |work| == |marks| + 1 && k <= l < |work|
    requires forall m :: k <= m < l ==> work[m + 1] + (if marks[m] then 1 else 0) <= work[m]
    ensures Marked(marks, k, l) + work[l] <= work[k]
  {
    if k < l {
      Falls(work, marks, k, l - 1);
      assert work[l - 1 + 1] + (if marks[l - 1] then 1 else 0) <= work[l - 1];
    }
  }

  lemma StepIs(owner: string, c: Config, rows: seq<Row>, events: seq<Event>, states: seq<State>, k: nat)
    requires UniqueIds(rows) && IsRun(owner, c, rows, events, states) && k < |events|
    ensures IsStep(owner, c, states[k], events[k], states[k + 1])
  {
  }

  lemma StepEndsSooner(owner: string, c: Config, s: State, e: Event, s': State)
    requires Inv(c, s) && s.q.stopping && IsStep(owner, c, s, e, s')
    ensures s'.q.stopping && StopWork(s'.q) <= StopWork(s.q) - if IsStopEvent(s.q, e) then 1 else 0
  {
    StopEndsSooner(owner, c, s, e);
  }

  lemma SoonerAt(owner: string, c: Config, rows: seq<Row>, events: seq<Event>, states: seq<State>, k: nat)
    requires UniqueIds(rows) && IsRun(owner, c, rows, events, states) && k < |events| && states[k].q.stopping
    ensures states[k + 1].q.stopping
    ensures StopWork(states[k + 1].q) <= StopWork(states[k].q) - if IsStopEvent(states[k].q, events[k]) then 1 else 0
  {
    RunKeepsInv(owner, c, rows, events, states, k);
    StepIs(owner, c, rows, events, states, k);
    StepEndsSooner(owner, c, states[k], events[k], states[k + 1]);
  }

  lemma {:induction false} StaysStopping(
    owner: string, c: Config, rows: seq<Row>, events: seq<Event>, states: seq<State>, k: nat, l: nat)
    requires UniqueIds(rows) && IsRun(owner, c, rows, events, states) && k <= l < |states| && states[k].q.stopping
    ensures states[l].q.stopping
  {
    if k < l {
      StaysStopping(owner, c, rows, events, states, k, l - 1);
      SoonerAt(owner, c, rows, events, states, l - 1);
    }
  }

  /** Once stopping, a run has no more events of stop's sweep and of the runners than what is left to do. */
  lemma StopReturnsSoon(
    owner: string, c: Config, rows: seq<Row>, events: seq<Event>, states: seq<State>, k: nat, l: nat)
    requires UniqueIds(rows) && IsRun(owner, c, rows, events, states) && k <= l < |states| && states[k].q.stopping
    ensures Marked(StopSteps(events, states), k, l) + Works(states)[l] <= Works(states)[k]
  {
    forall m | k <= m < l
      ensures Works(states)[m + 1] + (if StopSteps(events, states)[m] then 1 else 0) <= Works(states)[m]
    {
      StaysStopping(owner, c, rows, events, states, k, m);
      SoonerAt(owner, c, rows, events, states, m);
    }
    Falls(Works(states), StopSteps(events, states), k, l);
  }
}
