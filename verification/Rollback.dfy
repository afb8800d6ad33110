/**
 Undoing a failed run: the completed steps are undone in reverse completion order,
 each with the parameters it ran with.
*/
module Rollback {
  import opened Wrappers
  import opened Json
  import opened Placeholders
  import opened WorkflowEngine

  /** A call of a command's rollback: for the step at place `at` of the completion order. */
  datatype Call = Call(at: nat, step: nat, params: Json)

  datatype Undone = Undone(results: seq<StepResult>, calls: seq<Call>, halted: bool)

  /** What undoing one step on its own comes to. */
  function Attempt(registry: Registry, command: string, params: Json): StepRollback {
    if command !in registry then StepRollback(Failed, "command is no longer registered")
    else if !registry[command].supportsRollback then StepRollback(NotSupported, "")
    else
      match registry[command].undo(params)
      case None => StepRollback(RolledBack, "")
      case Some(message) => StepRollback(Failed, message)
  }

  predicate IsCalled(registry: Registry, command: string) {
    command in registry && registry[command].supportsRollback
  }

  /** All completed steps have a result and executed parameters. */
  ghost predicate Undoable(completed: seq<nat>, results: seq<StepResult>, executed: seq<Json>) {
    && |executed| == |results|
    && (forall k :: 0 <= k < |completed| ==> completed[k] < |results|)
    && (forall k, l :: 0 <= k < l < |completed| ==> completed[k] != completed[l])
  }

  /** Undoes the completed steps from the last one down to place k. */
  function UndoDownTo(
    strategy: RollbackStrategy, registry: Registry, shuttingDown: bool,
    completed: seq<nat>, results: seq<StepResult>, executed: seq<Json>, k: nat): (u: Undone)
    requires Undoable(completed, results, executed) && k <= |completed|
    ensures |u.results| == |results|
    decreases |completed| - k
  {
    if k == |completed| then Undone(results, [], false)
    else
      var u := UndoDownTo(strategy, registry, shuttingDown, completed, results, executed, k + 1);
      UndoOne(strategy, registry, shuttingDown, u, k, completed[k], executed[completed[k]])
  }

  function UndoOne(
    strategy: RollbackStrategy, registry: Registry, shuttingDown: bool,
    u: Undone, at: nat, step: nat, params: Json): (r: Undone)
    requires step < |u.results|
    ensures |r.results| == |u.results|
  {
    var command := u.results[step].command;
    if shuttingDown || u.halted then
      var message := if shuttingDown then "server shutting down" else "an earlier rollback failed";
      u.(results := u.results[step := u.results[step].(rollback := Some(StepRollback(Skipped, message)))])
    else
      var attempt := Attempt(registry, command, params);
      Undone(
        u.results[step := u.results[step].(rollback := Some(attempt))],
        if IsCalled(registry, command) then u.calls + [Call(at, step, params)] else u.calls,
        attempt.status == Failed && strategy == Reverse)
  }

  /** Walks the completion order backwards, undoing one step after the other. */
  method RollBack(
    strategy: RollbackStrategy, registry: Registry, shuttingDown: bool,
    completed: seq<nat>, executed: seq<Json>, before: seq<StepResult>)
    returns (results: seq<StepResult>, calls: seq<Call>)
    requires Undoable(completed, before, executed)
    ensures var u := UndoDownTo(strategy, registry, shuttingDown, completed, before, executed, 0);
            results == u.results && calls == u.calls
  {
    results, calls := before, [];
    var halted := false;
    var k: nat := |completed|;
    while k > 0
      invariant k <= |completed| && |results| == |before|
      invariant Undone(results, calls, halted) ==
                UndoDownTo(strategy, registry, shuttingDown, completed, before, executed, k)
    {
      k := k - 1;
      var step := completed[k];
      var command := results[step].command;
      var rollback := StepRollback(Skipped, "");
      if shuttingDown {
        rollback := rollback.(message := "server shutting down");
      } else if halted {
        rollback := rollback.(message := "an earlier rollback failed");
      } else if command !in registry {
        rollback := StepRollback(Failed, "command is no longer registered");
      } else if !registry[command].supportsRollback {
        rollback := rollback.(status := NotSupported);
      } else {
        calls := calls + [Call(k, step, executed[step])];
        var failure := registry[command].undo(executed[step]);
        rollback := if failure.None? then StepRollback(RolledBack, "") else StepRollback(Failed, failure.value);
      }
      if rollback.status == Failed {
        halted := strategy == Reverse;
      }
      results := results[step := results[step].(rollback := Some(rollback))];
    }
  }

  // ---- What the walk comes to ----

  /** Undoing the step at place k would fail. */
  predicate Fails(registry: Registry, completed: seq<nat>, results: seq<StepResult>, executed: seq<Json>, k: nat)
    requires k < |completed| && completed[k] < |results| == |executed|
  {
    Attempt(registry, results[completed[k]].command, executed[completed[k]]).status == Failed
  }

  /** A step that completed later, and so was undone earlier, failed to be undone. */
  ghost predicate FailedEarlier(
    registry: Registry, completed: seq<nat>, results: seq<StepResult>, executed: seq<Json>, k: nat)
    requires Undoable(completed, results, executed)
  {
    exists l :: k <= l < |completed| && Fails(registry, completed, results, executed, l)
  }

  /** The outcome of the step at place k, from the completion order alone. */
  ghost function Verdict(
    strategy: RollbackStrategy, registry: Registry, shuttingDown: bool,
    completed: seq<nat>, results: seq<StepResult>, executed: seq<Json>, k: nat): StepRollback
    requires Undoable(completed, results, executed) && k < |completed|
  {
    if shuttingDown then StepRollback(Skipped, "server shutting down")
    else if strategy == Reverse && FailedEarlier(registry, completed, results, executed, k + 1) then
      StepRollback(Skipped, "an earlier rollback failed")
    else Attempt(registry, results[completed[k]].command, executed[completed[k]])
  }

  /** The walk has halted exactly when, under Reverse, some step it met has failed. */
  lemma {:induction false} HaltedMeansFailed(
    strategy: RollbackStrategy, registry: Registry,
    completed: seq<nat>, results: seq<StepResult>, executed: seq<Json>, k: nat)
    requires Undoable(completed, results, executed) && k <= |completed|
    ensures var u := UndoDownTo(strategy, registry, false, completed, results, executed, k);
            u.halted <==> strategy == Reverse && FailedEarlier(registry, completed, results, executed, k)
    decreases |completed| - k
  {
    if k < |completed| {
      HaltedMeansFailed(strategy, registry, completed, results, executed, k + 1);
      assert completed[k] !in completed[k + 1..];
      UntouchedBelow(strategy, registry, false, completed, results, executed, k + 1, completed[k]);
      assert FailedEarlier(registry, completed, results, executed, k) <==>
             Fails(registry, completed, results, executed, k) ||
             FailedEarlier(registry, completed, results, executed, k + 1);
    }
  }

  /** A step the walk has not met keeps its result. */
  lemma {:induction false} UntouchedBelow(
    strategy: RollbackStrategy, registry: Registry, shuttingDown: bool,
    completed: seq<nat>, results: seq<StepResult>, executed: seq<Json>, k: nat, i: nat)
    requires Undoable(completed, results, executed) && k <= |completed|
    requires i < |results| && i !in completed[k..]
    ensures UndoDownTo(strategy, registry, shuttingDown, completed, results, executed, k).results[i] == results[i]
    decreases |completed| - k
  {
    if k < |completed| {
      assert completed[k..] == [completed[k]] + completed[k + 1..];
      UntouchedBelow(strategy, registry, shuttingDown, completed, results, executed, k + 1, i);
    }
  }

  /** Every step the walk has met has the outcome its place gives it. */
  lemma {:induction false} OutcomeOf(
    strategy: RollbackStrategy, registry: Registry, shuttingDown: bool,
    completed: seq<nat>, results: seq<StepResult>, executed: seq<Json>, k: nat, l: nat)
    requires Undoable(completed, results, executed) && k <= l < |completed|
    ensures
      UndoDownTo(strategy, registry, shuttingDown, completed, results, executed, k).results[completed[l]] ==
      results[completed[l]].(
        rollback := Some(Verdict(strategy, registry, shuttingDown, completed, results, executed, l)))
    decreases |completed| - k
  {
    if k < l {
      OutcomeOf(strategy, registry, shuttingDown, completed, results, executed, k + 1, l);
    } else {
      assert completed[k] !in completed[k + 1..];
      UntouchedBelow(strategy, registry, shuttingDown, completed, results, executed, k + 1, completed[k]);
      NotHaltedByShutdown(strategy, registry, completed, results, executed, k + 1);
      if !shuttingDown {
        HaltedMeansFailed(strategy, registry, completed, results, executed, k + 1);
      }
    }
  }

  lemma {:induction false} NotHaltedByShutdown(
    strategy: RollbackStrategy, registry: Registry,
    completed: seq<nat>, results: seq<StepResult>, executed: seq<Json>, k: nat)
    requires Undoable(completed, results, executed) && k <= |completed|
    ensures !UndoDownTo(strategy, registry, true, completed, results, executed, k).halted
    ensures UndoDownTo(strategy, registry, true, completed, results, executed, k).calls == []
    decreases |completed| - k
  {
    if k < |completed| {
      NotHaltedByShutdown(strategy, registry, completed, results, executed, k + 1);
    }
  }

  /** A call at place k or above, of the step there, with the parameters it ran with. */
  predicate IsCallFrom(completed: seq<nat>, executed: seq<Json>, c: Call, k: nat) {
    && k <= c.at < |completed|
    && c.step == completed[c.at] < |executed|
    && c.params == executed[c.step]
  }

  /** The commands called: steps that completed later come first. */
  ghost predicate InReverse(completed: seq<nat>, executed: seq<Json>, calls: seq<Call>, k: nat) {
    && (forall a :: 0 <= a < |calls| ==> IsCallFrom(completed, executed, calls[a], k))
    && (forall a, b :: 0 <= a < b < |calls| ==> calls[b].at < calls[a].at)
  }

  lemma {:induction false} CallsAreInReverse(
    strategy: RollbackStrategy, registry: Registry, shuttingDown: bool,
    completed: seq<nat>, results: seq<StepResult>, executed: seq<Json>, k: nat)
    requires Undoable(completed, results, executed) && k <= |completed|
    ensures InReverse(completed, executed,
                      UndoDownTo(strategy, registry, shuttingDown, completed, results, executed, k).calls, k)
    decreases |completed| - k
  {
    if k < |completed| {
      CallsAreInReverse(strategy, registry, shuttingDown, completed, results, executed, k + 1);
      OneMoreCall(completed, executed,
                  UndoDownTo(strategy, registry, shuttingDown, completed, results, executed, k + 1).calls, k);
    }
  }

  lemma OneMoreCall(completed: seq<nat>, executed: seq<Json>, calls: seq<Call>, k: nat)
    requires k < |completed| && completed[k] < |executed|
    requires InReverse(completed, executed, calls, k + 1)
    ensures InReverse(completed, executed, calls, k)
    ensures InReverse(completed, executed, calls + [Call(k, completed[k], executed[completed[k]])], k)
  {
    var more := calls + [Call(k, completed[k], executed[completed[k]])];
    assert forall a :: 0 <= a < |calls| ==> IsCallFrom(completed, executed, calls[a], k + 1);
    assert forall a :: 0 <= a < |calls| ==> more[a] == calls[a];
  }

  /** The walk gets to the step at place k without having been stopped. */
  ghost predicate Reached(
    strategy: RollbackStrategy, registry: Registry, shuttingDown: bool,
    completed: seq<nat>, results: seq<StepResult>, executed: seq<Json>, k: nat)
    requires Undoable(completed, results, executed) && k < |completed|
  {
    !shuttingDown && !(strategy == Reverse && FailedEarlier(registry, completed, results, executed, k + 1))
  }

  ghost predicate HasCall(calls: seq<Call>, at: nat) {
    exists a :: 0 <= a < |calls| && calls[a].at == at
  }

  lemma LastCall(calls: seq<Call>, c: Call, at: nat)
    ensures HasCall(calls + [c], at) <==> HasCall(calls, at) || c.at == at
  {
    var more := calls + [c];
    assert more[|calls|] == c;
    if a :| 0 <= a < |calls| && calls[a].at == at {
      assert more[a].at == at;
    }
  }

  /** A command's rollback is called exactly when the walk gets to a step of a
      command that is registered and supports it. */
  lemma {:induction false} CalledExactly(
    strategy: RollbackStrategy, registry: Registry, shuttingDown: bool,
    completed: seq<nat>, results: seq<StepResult>, executed: seq<Json>, k: nat, l: nat)
    requires Undoable(completed, results, executed) && k <= l < |completed|
    ensures HasCall(UndoDownTo(strategy, registry, shuttingDown, completed, results, executed, k).calls, l) <==>
            Reached(strategy, registry, shuttingDown, completed, results, executed, l) &&
            IsCalled(registry, results[completed[l]].command)
    decreases |completed| - k
  {
    var u := UndoDownTo(strategy, registry, shuttingDown, completed, results, executed, k + 1);
    LastCall(u.calls, Call(k, completed[k], executed[completed[k]]), l);
    if k < l {
      CalledExactly(strategy, registry, shuttingDown, completed, results, executed, k + 1, l);
    } else {
      CallsAreInReverse(strategy, registry, shuttingDown, completed, results, executed, k + 1);
      NotHaltedByShutdown(strategy, registry, completed, results, executed, k + 1);
      HaltedMeansFailed(strategy, registry, completed, results, executed, k + 1);
      assert completed[k] !in completed[k + 1..];
      UntouchedBelow(strategy, registry, shuttingDown, completed, results, executed, k + 1, completed[k]);
    }
  }

  // ---- What the outcomes say of the commands ----

  /** The command is gone, or its rollback throws. */
  predicate FailsToUndo(registry: Registry, command: string, params: Json) {
    command !in registry || (registry[command].supportsRollback && registry[command].undo(params).Some?)
  }

  /** The steps that completed after place k include one that fails to be undone. */
  ghost predicate LaterFails(
    registry: Registry, completed: seq<nat>, results: seq<StepResult>, executed: seq<Json>, k: nat)
    requires Undoable(completed, results, executed)
  {
    exists l :: k < l < |completed| &&
      FailsToUndo(registry, results[completed[l]].command, executed[completed[l]])
  }

  /** The outcome of a step whose rollback is attempted. */
  predicate IsAttempted(registry: Registry, command: string, params: Json, r: StepRollback) {
    && (r.status == RolledBack <==>
          command in registry && registry[command].supportsRollback && registry[command].undo(params).None?)
    && (r.status == NotSupported <==> command in registry && !registry[command].supportsRollback)
    && (r.status == Failed <==> FailsToUndo(registry, command, params))
    && (r.status == Failed ==>
          r.message == if command !in registry then "command is no longer registered"
                       else registry[command].undo(params).value)
  }

  /**
   The outcome of every completed step, from the registry and the completion order: all are
   skipped at shutdown; under Reverse one is skipped exactly if a later completion fails to
   be undone; any other is what its command's rollback comes to.
  */
  lemma OutcomeSays(
    strategy: RollbackStrategy, registry: Registry, shuttingDown: bool,
    completed: seq<nat>, results: seq<StepResult>, executed: seq<Json>, l: nat)
    requires Undoable(completed, results, executed) && l < |completed|
    ensures
      var u := UndoDownTo(strategy, registry, shuttingDown, completed, results, executed, 0);
      var o := u.results[completed[l]].rollback;
      && o.Some?
      && (o.value.status == Skipped <==>
            shuttingDown || (strategy == Reverse && LaterFails(registry, completed, results, executed, l)))
      && (o.value.status != Skipped ==>
            IsAttempted(registry, results[completed[l]].command, executed[completed[l]], o.value))
  {
    OutcomeOf(strategy, registry, shuttingDown, completed, results, executed, 0, l);
    LaterIsEarlier(registry, completed, results, executed, l);
  }

  lemma LaterIsEarlier(
    registry: Registry, completed: seq<nat>, results: seq<StepResult>, executed: seq<Json>, k: nat)
    requires Undoable(completed, results, executed) && k < |completed|
    ensures LaterFails(registry, completed, results, executed, k) <==>
            FailedEarlier(registry, completed, results, executed, k + 1)
  {
    forall l | k < l < |completed|
      ensures FailsToUndo(registry, results[completed[l]].command, executed[completed[l]]) <==>
              Fails(registry, completed, results, executed, l)
    {
    }
  }

  // ---- Rolling back a run ----

  /**
   Exactly the successful steps get an outcome; the other results, and everything
   else about these, stay as they were.
  */
  lemma ExactlyTheCompletedAreUndone(def: Definition, s: Run, registry: Registry, shuttingDown: bool, i: nat)
    requires Inv(def, s) && i < |def.steps|
    requires s.results[i].rollback == None
    ensures
      var u := UndoDownTo(def.rollback, registry, shuttingDown, s.completed, s.results, s.executed, 0);
      var after := u.results[i];
      && (after.rollback.Some? <==> Succeeded(s, i))
      && after.(rollback := None) == s.results[i]
  {
    if Succeeded(s, i) {
      var l :| 0 <= l < |s.completed| && s.completed[l] == i;
      OutcomeOf(def.rollback, registry, shuttingDown, s.completed, s.results, s.executed, 0, l);
    } else {
      UntouchedBelow(def.rollback, registry, shuttingDown, s.completed, s.results, s.executed, 0, i);
    }
  }

  /**
   A step is undone before every step it depends on, directly or through steps that may
   have failed or cannot be undone: wherever both commands are called, the dependent's
   comes first.
  */
  lemma DependentsAreUndoneFirst(def: Definition, s: Run, calls: seq<Call>, a: nat, b: nat)
    requires Inv(def, s) && InReverse(s.completed, s.executed, calls, 0)
    requires a < |calls| && b < |calls|
    requires calls[b].step < |def.steps| && DependsOn(def.steps, calls[b].step, calls[a].step)
    ensures b < a
  {
    assert IsCallFrom(s.completed, s.executed, calls[b], 0);
    assert IsCallFrom(s.completed, s.executed, calls[a], 0);
    var later, earlier := calls[b].at, calls[a].at;
    assert DependenciesBefore(def, s, later);
    var j :| 0 <= j < later && s.completed[j] == calls[a].step;
    assert j == earlier;
  }
}
