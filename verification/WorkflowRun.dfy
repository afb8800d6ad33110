/**
 The engine's execute: the launch loop, the threads of the parallel steps it starts,
 the wait for all of them, and the rollback. Which thread moves when is arbitrary.
*/
module WorkflowRun {
  import opened Wrappers
  import opened Json
  import opened Placeholders
  import opened WorkflowEngine
  import opened WorkflowConfluence
  import Rollback

  /** What a step meets besides its command: cancellation, deadlines, circuit breaker. */
  datatype Circumstances = Circumstances(
    cancelled: bool, late: bool, open: bool,       // as it starts
    overran: bool, cancelledMeanwhile: bool,       // as its command returns
    timeoutMessage: string, openMessage: string)

  predicate Calm(c: Circumstances) {
    !c.cancelled && !c.late && !c.open && !c.overran && !c.cancelledMeanwhile
  }

  /** Why a step is not even started. */
  function Refusal(c: Circumstances): (r: Option<Outcome>)
    ensures r.Some? ==> !r.value.success && !Calm(c)
  {
    if c.cancelled then Some(Outcome(false, "Cancelled", Null, Cancelled))
    else if c.late then Some(Outcome(false, c.timeoutMessage, Null, Timeout))
    else if c.open then Some(Outcome(false, c.openMessage, Null, CircuitOpen))
    else None
  }

  /** A result that comes too late is not trusted; a failure under cancellation is one. */
  function Settled(o: Outcome, c: Circumstances): (r: Outcome)
    ensures Calm(c) ==> r == o
    ensures r.success ==> r == o && !c.overran
  {
    if c.overran then Outcome(false, c.timeoutMessage, o.output, Timeout)
    else if !o.success && c.cancelledMeanwhile then
      var error :=
        if "Cancelled" <= o.error then o.error
        else if o.error == "" then "Cancelled"
        else "Cancelled: " + o.error;
      Outcome(false, error, o.output, Cancelled)
    else o
  }

  /** The result is what the command and what it has met come to: refused before it starts,
      else the command's own, unless that comes too late or fails under cancellation. */
  predicate IsMet(registry: Registry, step: Step, params: Json, c: Circumstances, r: StepResult) {
    && (r.success <==>
          !c.cancelled && !c.late && !c.open && !c.overran && CommandSucceeds(registry, step.command, params))
    && if c.cancelled then r.failure == Cancelled && r.error == "Cancelled"
       else if c.late then r.failure == Timeout && r.error == c.timeoutMessage
       else if c.open then r.failure == CircuitOpen && r.error == c.openMessage
       else if c.overran then r.failure == Timeout && r.error == c.timeoutMessage
       else if c.cancelledMeanwhile && !r.success then r.failure == Cancelled && "Cancelled" <= r.error
       else IsCommanded(registry, step.command, params, r)
  }

  /** So it is for every step that has returned. */
  ghost predicate AllMet(def: Definition, registry: Registry, circumstances: seq<Circumstances>, s: Run)
    requires |circumstances| == |def.steps| && Sized(def, s)
  {
    forall i :: 0 <= i < |s.phases| && s.phases[i] == Done ==>
      && IsMet(registry, def.steps[i], s.executed[i], circumstances[i], s.results[i])
      && IsFiled(def.steps[i], i, s.results[i])
  }

  lemma RefusalIsMet(registry: Registry, step: Step, i: nat, params: Json, c: Circumstances)
    requires Refusal(c).Some?
    ensures IsMet(registry, step, params, c, Record(step, i, Refusal(c).value))
  {
  }

  lemma SettledIsMet(registry: Registry, step: Step, i: nat, params: Json, c: Circumstances)
    requires Refusal(c).None?
    ensures IsMet(registry, step, params, c,
                  Record(step, i, Settled(ExecuteSingleStep(registry, step.command, params), c)))
  {
    RecordIsCommanded(registry, step, i, params);
  }

  predicate Movable(def: Definition, s: Run, i: nat)
    requires Sized(def, s)
  {
    i < s.next && (s.phases[i] == Executing || (s.phases[i] == Launched && Unblocked(def, s, i)))
  }

  /** What the thread of step i does next. */
  function NextEvent(def: Definition, registry: Registry, circumstances: seq<Circumstances>, s: Run, i: nat): Event
    requires Sized(def, s) && |circumstances| == |def.steps| && i < |def.steps|
  {
    if s.phases[i] == Launched then
      match Refusal(circumstances[i])
      case Some(o) => Reject(i, o)
      case None => Begin(i)
    else
      Finish(i, Settled(ExecuteSingleStep(registry, def.steps[i].command, s.executed[i]), circumstances[i]))
  }

  ghost predicate AllCalm(circumstances: seq<Circumstances>) {
    forall i :: 0 <= i < |circumstances| ==> Calm(circumstances[i])
  }

  /** No step of s is launched, stopped or taken back on the way to t. */
  ghost predicate Further(s: Run, t: Run) {
    && t.next == s.next && |t.phases| == |s.phases|
    && (s.stopped ==> t.stopped)
    && forall j :: 0 <= j < |s.phases| && s.phases[j] == Done ==> t.phases[j] == Done
  }

  /** s is where these events lead, undisturbed when no step meets anything. */
  ghost predicate Follows(
    def: Definition, registry: Registry, circumstances: seq<Circumstances>, events: seq<Event>, s: Run)
  {
    && Legal(def, events)
    && s == After(def, events)
    && (AllCalm(circumstances) ==> UndisturbedRun(def, registry, events))
  }

  lemma EventFollows(
    def: Definition, registry: Registry, circumstances: seq<Circumstances>, events: seq<Event>, s: Run, e: Event)
    requires Follows(def, registry, circumstances, events, s)
    requires Enabled(def, s, e) && (AllCalm(circumstances) ==> Undisturbed(def, registry, s, e))
    ensures Follows(def, registry, circumstances, events + [e], Apply(def, s, e))
  {
    assert (events + [e])[..|events|] == events;
  }

  lemma MoveIsEnabled(def: Definition, registry: Registry, circumstances: seq<Circumstances>, s: Run, i: nat)
    requires Sized(def, s) && |circumstances| == |def.steps| && Movable(def, s, i)
    ensures var e := NextEvent(def, registry, circumstances, s, i);
      && Enabled(def, s, e)
      && (AllCalm(circumstances) ==> Undisturbed(def, registry, s, e))
      && Further(s, Apply(def, s, e))
  {
    assert AllCalm(circumstances) ==> Calm(circumstances[i]);
  }

  /** What a thread does next follows, goes further, and leaves less to do. */
  lemma MoveFollows(
    def: Definition, registry: Registry, circumstances: seq<Circumstances>, events: seq<Event>, s: Run, i: nat)
    requires Follows(def, registry, circumstances, events, s) && |circumstances| == |def.steps|
    requires Movable(def, s, i)
    ensures var e := NextEvent(def, registry, circumstances, s, i);
      && e.step < |def.steps|
      && Follows(def, registry, circumstances, events + [e], Apply(def, s, e))
      && Further(s, Apply(def, s, e))
      && Work(Apply(def, s, e).phases) < Work(s.phases)
  {
    var e := NextEvent(def, registry, circumstances, s, i);
    MoveIsEnabled(def, registry, circumstances, s, i);
    EventFollows(def, registry, circumstances, events, s, e);
    StepDoesWork(def, s, e);
  }

  /** A step that has begun has met nothing that would have kept it from it. */
  ghost predicate BegunIfMay(circumstances: seq<Circumstances>, s: Run) {
    forall i :: 0 <= i < |s.phases| && i < |circumstances| && s.phases[i] == Executing ==>
      Refusal(circumstances[i]).None?
  }

  lemma MoveIsMet(def: Definition, registry: Registry, circumstances: seq<Circumstances>, s: Run, i: nat)
    requires Sized(def, s) && |circumstances| == |def.steps| && Movable(def, s, i)
    requires AllMet(def, registry, circumstances, s) && BegunIfMay(circumstances, s)
    ensures var t := Apply(def, s, NextEvent(def, registry, circumstances, s, i));
            AllMet(def, registry, circumstances, t) && BegunIfMay(circumstances, t)
  {
    var c := circumstances[i];
    if s.phases[i] == Executing {
      var o := Settled(ExecuteSingleStep(registry, def.steps[i].command, s.executed[i]), c);
      SettledIsMet(registry, def.steps[i], i, s.executed[i], c);
      RecordedIsMet(def, registry, circumstances, s, i, o);
    } else if Refusal(c).Some? {
      RefusalIsMet(registry, def.steps[i], i, s.executed[i], c);
      RecordedIsMet(def, registry, circumstances, s, i, Refusal(c).value);
    } else {
      BegunIsMet(def, registry, circumstances, s, i);
    }
  }

  lemma RecordedIsMet(
    def: Definition, registry: Registry, circumstances: seq<Circumstances>, s: Run, i: nat, o: Outcome)
    requires Sized(def, s) && |circumstances| == |def.steps| && i < |def.steps|
    requires AllMet(def, registry, circumstances, s) && BegunIfMay(circumstances, s)
    requires IsMet(registry, def.steps[i], s.executed[i], circumstances[i], Record(def.steps[i], i, o))
    ensures AllMet(def, registry, circumstances, Recorded(def, s, i, o))
    ensures BegunIfMay(circumstances, Recorded(def, s, i, o))
  {
  }

  lemma BegunIsMet(def: Definition, registry: Registry, circumstances: seq<Circumstances>, s: Run, i: nat)
    requires Sized(def, s) && |circumstances| == |def.steps| && i < |def.steps| && s.phases[i] == Launched
    requires AllMet(def, registry, circumstances, s) && BegunIfMay(circumstances, s) && Refusal(circumstances[i]).None?
    ensures AllMet(def, registry, circumstances, Apply(def, s, Begin(i)))
    ensures BegunIfMay(circumstances, Apply(def, s, Begin(i)))
  {
  }

  ghost predicate DoneBelow(phases: seq<Phase>, i: nat) {
    i <= |phases| && forall j :: 0 <= j < i ==> phases[j] == Done
  }

  lemma FurtherDone(s: Run, t: Run, i: nat)
    requires Further(s, t) && DoneBelow(s.phases, i) && i < |t.phases| && t.phases[i] == Done
    ensures DoneBelow(t.phases, i + 1)
  {
  }

  /** With the launched step waited for if it is sequential, the loop can go on. */
  lemma LoopGoesOn(def: Definition, s: Run, t: Run)
    requires Sized(def, s) && Sized(def, t) && s.next < |def.steps| && LoopFree(def, s)
    requires Further(Apply(def, s, WorkflowEngine.Launch(s.next)), t) && s.phases[s.next] != Done
    requires !def.steps[s.next].parallel ==> t.phases[s.next] == Done
    ensures LoopFree(def, t)
  {
    var launched := Apply(def, s, WorkflowEngine.Launch(s.next));
    assert forall j :: 0 <= j < s.next ==> launched.phases[j] == s.phases[j];
  }

  lemma FurtherStill(s: Run, t: Run, u: Run)
    requires (s == t || Further(s, t)) && Further(t, u)
    ensures Further(s, u)
  {
  }

  /** What a finished run reports, and the rollback calls it makes. */
  ghost function Concluded(def: Definition, registered: Registry, shuttingDown: bool, s: Run)
    : (WorkflowResult, seq<Rollback.Call>)
    requires Inv(def, s)
  {
    var result := ResultOf(s.results);
    if result.success || def.rollback == NoRollback || s.completed == [] then (result, [])
    else
      var u := Rollback.UndoDownTo(def.rollback, registered, shuttingDown, s.completed, s.results, s.executed, 0);
      (result.(results := u.results), u.calls)
  }

  /** What a finished run reports: success if all its steps have returned and succeeded, else
      an error; and if it has failed and is to be rolled back, what has become of each step
      that had succeeded. */
  ghost predicate Reports(
    def: Definition, registered: Registry, shuttingDown: bool, s: Run, r: WorkflowResult, calls: seq<Rollback.Call>)
    requires Inv(def, s)
  {
    && (r.success <==> forall i :: 0 <= i < |def.steps| ==> s.phases[i] == Done && s.results[i].success)
    && r.error == (if r.success then "" else FirstError(s.results))
    && |r.results| == |s.results|
    && (forall i :: 0 <= i < |s.results| ==> r.results[i].(rollback := None) == s.results[i].(rollback := None))
    && if r.success || def.rollback == NoRollback then r.results == s.results && calls == []
       else AllUndone(def, registered, shuttingDown, s, r.results)
  }

  /** Every step that had succeeded has an outcome, and no other has. */
  ghost predicate AllUndone(
    def: Definition, registered: Registry, shuttingDown: bool, s: Run, after: seq<StepResult>)
    requires Inv(def, s) && |after| == |s.results|
  {
    && (forall i :: 0 <= i < |after| && !Succeeded(s, i) ==> after[i] == s.results[i])
    && (forall l :: 0 <= l < |s.completed| ==> StepUndone(def, registered, shuttingDown, s, after, l))
  }

  /** The outcome of the step that completed at place l. */
  ghost predicate StepUndone(
    def: Definition, registered: Registry, shuttingDown: bool, s: Run, after: seq<StepResult>, l: nat)
    requires Inv(def, s) && |after| == |s.results| && l < |s.completed|
  {
    var o := after[s.completed[l]].rollback;
    && o.Some?
    && (o.value.status == Skipped <==>
          shuttingDown ||
          (def.rollback == Reverse && Rollback.LaterFails(registered, s.completed, s.results, s.executed, l)))
    && (o.value.status != Skipped ==>
          Rollback.IsAttempted(registered, s.results[s.completed[l]].command, s.executed[s.completed[l]], o.value))
  }

  lemma ConcludedReports(def: Definition, registered: Registry, shuttingDown: bool, s: Run)
    requires Inv(def, s)
    ensures Reports(def, registered, shuttingDown, s, Concluded(def, registered, shuttingDown, s).0,
                    Concluded(def, registered, shuttingDown, s).1)
  {
    if !ResultOf(s.results).success && def.rollback != NoRollback {
      UndoingReports(def, registered, shuttingDown, s);
    }
  }

  lemma UndoingReports(def: Definition, registered: Registry, shuttingDown: bool, s: Run)
    requires Inv(def, s)
    ensures var after := Rollback.UndoDownTo(
              def.rollback, registered, shuttingDown, s.completed, s.results, s.executed, 0).results;
      && AllUndone(def, registered, shuttingDown, s, after)
      && forall i :: 0 <= i < |s.results| ==> after[i].(rollback := None) == s.results[i].(rollback := None)
  {
    forall l | 0 <= l < |s.completed|
      ensures var after := Rollback.UndoDownTo(
                def.rollback, registered, shuttingDown, s.completed, s.results, s.executed, 0).results;
              StepUndone(def, registered, shuttingDown, s, after, l)
    {
      Rollback.OutcomeSays(def.rollback, registered, shuttingDown, s.completed, s.results, s.executed, l);
    }
    forall i | 0 <= i < |s.results|
      ensures var after := Rollback.UndoDownTo(
                def.rollback, registered, shuttingDown, s.completed, s.results, s.executed, 0).results;
              && after[i].(rollback := None) == s.results[i].(rollback := None)
              && (!Succeeded(s, i) ==> after[i] == s.results[i])
    {
      if Succeeded(s, i) {
        var l :| 0 <= l < |s.completed| && s.completed[l] == i;
        Rollback.OutcomeOf(def.rollback, registered, shuttingDown, s.completed, s.results, s.executed, 0, l);
      } else {
        Rollback.UntouchedBelow(def.rollback, registered, shuttingDown, s.completed, s.results, s.executed, 0, i);
      }
    }
  }

  /** Nothing met, and no race: the run has ended as the steps in index order would. */
  lemma EndsInOrder(
    def: Definition, registry: Registry, circumstances: seq<Circumstances>, events: seq<Event>, s: Run)
    requires Follows(def, registry, circumstances, events, s) && Finished(def, s)
    requires AllCalm(circumstances) && RaceFree(def)
    ensures s.executed == RunInOrder(def, registry, |def.steps|).executed
    ensures ResultOf(s.results) == ResultOf(RunInOrder(def, registry, |def.steps|).results)
  {
    Confluence(def, registry, events);
  }

  /** The error message: of the first failed step that has one. */
  method ErrorOf(results: seq<StepResult>) returns (error: string)
    ensures error == FirstError(results)
  {
    var i := 0;
    while i < |results|
      invariant i <= |results|
      invariant FirstError(results) == FirstError(results[i..])
    {
      if !results[i].success && results[i].error != "" {
        return results[i].error;
      }
      assert results[i..][1..] == results[i + 1..];
      i := i + 1;
    }
    return "";
  }

  class WorkflowRun {
    const def: Definition
    const registry: Registry
    const circumstances: seq<Circumstances>

    var next: nat
    var stopped: bool
    var phases: seq<Phase>
    var results: seq<StepResult>
    var executed: seq<Json>
    var completed: seq<nat>

    ghost var events: seq<Event>

    function View(): Run
      reads `next, `stopped, `phases, `results, `executed, `completed
    {
      Run(next, stopped, phases, results, executed, completed)
    }

    /** The state is the one its history leads to. */
    ghost predicate Valid()
      reads this
    {
      && |circumstances| == |def.steps|
      && Follows(def, registry, circumstances, events, View())
      && AllMet(def, registry, circumstances, View()) && BegunIfMay(circumstances, View())
    }

    constructor (def: Definition, registry: Registry, circumstances: seq<Circumstances>)
      requires |circumstances| == |def.steps|
      ensures Valid() && events == []
      ensures this.def == def && this.registry == registry && this.circumstances == circumstances
    {
      this.def, this.registry, this.circumstances := def, registry, circumstances;
      next, stopped, completed := 0, false, [];
      phases := seq(|def.steps|, i => NotLaunched);
      results := seq(|def.steps|, i => BLANK);
      executed := seq(|def.steps|, i => Null);
      events := [];
    }

    /** The loop gets to its next step. */
    method Advance()
      requires Sized(def, View()) && next < |def.steps|
      modifies `next, `phases
      ensures View() == Apply(def, old(View()), WorkflowEngine.Launch(old(next)))
    {
      phases := phases[next := Launched];
      next := next + 1;
    }

    /** The loop launches its next step. */
    method Launch()
      requires Valid() && next < |def.steps| && !stopped && LoopFree(def, View())
      modifies this
      ensures Valid()
      ensures View() == Apply(def, old(View()), WorkflowEngine.Launch(old(next)))
    {
      ghost var before, history, e := View(), events, WorkflowEngine.Launch(next);
      EventFollows(def, registry, circumstances, history, before, e);
      Advance();
      events := history + [e];
      assert View() == Apply(def, before, e);
    }

    /** The result is stored under the lock, with the completion order. */
    method Store(i: nat, o: Outcome)
      requires Sized(def, View()) && i < |def.steps|
      modifies `phases, `results, `completed, `stopped
      ensures View() == Recorded(def, old(View()), i, o)
    {
      var step := def.steps[i];
      phases := phases[i := Done];
      results := results[i := Record(step, i, o)];
      if o.success {
        completed := completed + [i];
      }
      stopped := stopped || (!step.parallel && !o.success);
    }

    /** What the thread of step i does next: start the command or refuse to, or store what it came to. */
    method Perform(i: nat)
      requires Sized(def, View()) && |circumstances| == |def.steps| && Movable(def, View(), i)
      modifies `phases, `results, `executed, `completed, `stopped
      ensures View() == Apply(def, old(View()), NextEvent(def, registry, circumstances, old(View()), i))
    {
      if phases[i] == Launched {
        var refusal := Refusal(circumstances[i]);
        if refusal.Some? {
          Store(i, refusal.value);
        } else {
          executed := executed[i := Resolve(def.steps[i].params, results)];
          phases := phases[i := Executing];
        }
      } else {
        var outcome := ExecuteSingleStep(registry, def.steps[i].command, executed[i]);
        Store(i, Settled(outcome, circumstances[i]));
      }
    }

    /** The thread of step i goes on by one event. */
    method Move(i: nat)
      requires Valid() && Movable(def, View(), i)
      modifies this
      ensures Valid()
      ensures View() == Apply(def, old(View()), NextEvent(def, registry, circumstances, old(View()), i))
      ensures Further(old(View()), View()) && Work(phases) < old(Work(phases))
    {
      ghost var before, history := View(), events;
      ghost var e := NextEvent(def, registry, circumstances, before, i);
      MoveFollows(def, registry, circumstances, history, before, i);
      MoveIsMet(def, registry, circumstances, before, i);
      Perform(i);
      events := history + [e];
      assert View() == Apply(def, before, e);
    }

    /** Waits for step d while the threads move in any order. */
    method Await(d: nat)
      requires Valid() && d < next
      modifies this
      ensures Valid() && Further(old(View()), View()) && phases[d] == Done
    {
      while phases[d] != Done
        invariant Valid() && Further(old(View()), View())
        decreases Work(phases)
      {
        ghost var free := SomeStepIsFree(def, View(), d);
        assert Movable(def, View(), free);
        var i :| 0 <= i < next && Movable(def, View(), i);
        Move(i);
      }
    }

    /** The threads move on for a while. */
    method Interleave()
      requires Valid()
      modifies this
      ensures Valid() && Further(old(View()), View())
    {
      while *
        invariant Valid() && Further(old(View()), View())
        decreases Work(phases)
      {
        if i :| 0 <= i < next && Movable(def, View(), i) {
          Move(i);
        } else {
          break;
        }
      }
    }

    /** Launches the steps in order; a sequential one is waited for, and its failure ends the loop. */
    method LaunchAll()
      requires Valid() && next == 0
      modifies this
      ensures Valid() && (next == |def.steps| || stopped)
    {
      while next < |def.steps| && !stopped
        invariant Valid() && next <= |def.steps| && LoopFree(def, View())
        decreases |def.steps| - next
      {
        LaunchNext();
      }
    }

    method LaunchNext()
      requires Valid() && next < |def.steps| && !stopped && LoopFree(def, View())
      modifies this
      ensures Valid() && next == old(next) + 1 && LoopFree(def, View())
    {
      ghost var before := View();
      Launch();
      ghost var launched := View();
      if !def.steps[next - 1].parallel {
        Await(next - 1);
      }
      ghost var waited := View();
      Interleave();
      FurtherStill(launched, waited, View());
      LoopGoesOn(def, before, View());
    }

    method WaitAll()
      requires Valid()
      modifies this
      ensures Valid() && Further(old(View()), View())
      ensures DoneBelow(phases, next)
    {
      var i := 0;
      while i < next
        invariant Valid() && Further(old(View()), View())
        invariant i <= next && DoneBelow(phases, i)
      {
        ghost var before := View();
        Await(i);
        FurtherDone(before, View(), i);
        i := i + 1;
      }
    }

    /**
     Runs the workflow to its end: with terminating commands the loop and the wait
     finish under every schedule. A failed run is rolled back.
    */
    method Execute(registered: Registry, shuttingDown: bool)
      returns (result: WorkflowResult, calls: seq<Rollback.Call>)
      requires Valid() && next == 0
      modifies this
      ensures Valid() && Finished(def, View())
      ensures (result, calls) == Concluded(def, registered, shuttingDown, View())
      ensures AllCalm(circumstances) && RaceFree(def) ==>
                && executed == RunInOrder(def, registry, |def.steps|).executed
                && ResultOf(results) == ResultOf(RunInOrder(def, registry, |def.steps|).results)
      ensures forall i :: 0 <= i < |def.steps| && phases[i] == Done ==>
                && IsMet(registry, def.steps[i], executed[i], circumstances[i], results[i])
                && IsFiled(def.steps[i], i, results[i])
      ensures Reports(def, registered, shuttingDown, View(), result, calls)
    {
      RunToEnd();
      if AllCalm(circumstances) && RaceFree(def) {
        EndsInOrder(def, registry, circumstances, events, View());
      }
      ConcludedReports(def, registered, shuttingDown, View());
      result, calls := Conclude(registered, shuttingDown);
    }

    /** The launch loop, and the wait for every thread it has started. */
    method RunToEnd()
      requires Valid() && next == 0
      modifies this
      ensures Valid() && Finished(def, View())
    {
      LaunchAll();
      WaitAll();
    }

    /** The result of the finished run; a failed one is rolled back. */
    method Conclude(registered: Registry, shuttingDown: bool)
      returns (result: WorkflowResult, calls: seq<Rollback.Call>)
      requires Inv(def, View())
      ensures (result, calls) == Concluded(def, registered, shuttingDown, View())
    {
      var success := forall i :: 0 <= i < |results| ==> results[i].success;
      result, calls := WorkflowResult(success, results, ""), [];
      if !success {
        var error := ErrorOf(results);
        result := result.(error := error);
        if def.rollback != NoRollback && completed != [] {
          var undone;
          undone, calls := Rollback.RollBack(def.rollback, registered, shuttingDown, completed, executed, results);
          result := result.(results := undone);
        }
      }
    }
  }
}
