/**
 Parallel steps may interleave in any order: in a run that nothing disturbs they all do
 what they would do one after the other, unless a step can meet the result of a later one.
*/
module WorkflowConfluence {
  import opened Wrappers
  import opened Json
  import opened Placeholders
  import opened WorkflowEngine

  // ---- Running in order ----

  /** What running the steps in index order has done. */
  datatype InOrder = InOrder(results: seq<StepResult>, executed: seq<Json>, stopped: bool)

  /** The first k steps run one after the other, up to a failed sequential one. */
  function RunInOrder(def: Definition, registry: Registry, k: nat): (r: InOrder)
    requires k <= |def.steps|
    ensures |r.results| == |r.executed| == |def.steps|
  {
    if k == 0 then
      InOrder(seq(|def.steps|, i => BLANK), seq(|def.steps|, i => Null), false)
    else
      var before := RunInOrder(def, registry, k - 1);
      if before.stopped then before
      else
        var step := def.steps[k - 1];
        var params := Resolve(step.params, before.results);
        var result := Record(step, k - 1, ExecuteSingleStep(registry, step.command, params));
        InOrder(before.results[k - 1 := result], before.executed[k - 1 := params],
                !step.parallel && !result.success)
  }

  // ---- Races ----

  /** Step k comes after step i under every schedule: it waits for step i, or a
      sequential step in between does, through any number of steps. */
  ghost predicate HeldBack(steps: seq<Step>, i: nat, k: nat)
    requires k < |steps|
  {
    DependsOn(steps, k, i) || exists j :: i < j < k && !steps[j].parallel && DependsOn(steps, j, i)
  }

  /** Step k is later than step i and can be through before step i begins. */
  ghost predicate Overtakes(steps: seq<Step>, i: nat, k: nat) {
    i < k < |steps| && !HeldBack(steps, i, k)
  }

  /** A reference of step i that can meet the result of a later step. */
  ghost predicate ReachesLater(steps: seq<Step>, i: nat, r: Reference) {
    match r
    case Position(n) => n > 0 && Overtakes(steps, i, n - 1)
    case Named(name) => exists k: nat :: Overtakes(steps, i, k) && steps[k].name == Some(name)
  }

  /** No parallel step refers to a later step that can overtake it. */
  ghost predicate RaceFree(def: Definition) {
    forall i, r :: 0 <= i < |def.steps| && def.steps[i].parallel && r in References(def.steps[i].params) ==>
      !ReachesLater(def.steps, i, r)
  }

  /** A step that is held back has no result before the step that holds it back has one. */
  lemma HeldBackIsBlank(def: Definition, s: Run, i: nat, k: nat)
    requires Inv(def, s) && i < k < |def.steps| && HeldBack(def.steps, i, k) && s.phases[i] != Done
    ensures s.phases[k] != Done
  {
    if s.phases[k] == Done {
      if DependsOn(def.steps, k, i) {
        AllBehindAreDone(def, s, k, i);
      } else {
        var j :| i < j < k && !def.steps[j].parallel && DependsOn(def.steps, j, i);
        assert s.phases[j] == Done;
        AllBehindAreDone(def, s, j, i);
      }
    }
  }

  ghost predicate DistinctNames(def: Definition) {
    forall i, j :: 0 <= i < j < |def.steps| && def.steps[i].name.Some? ==> def.steps[i].name != def.steps[j].name
  }

  /** With distinct names and every reference bound to an earlier step, no
      reference can meet a later result. */
  lemma BoundReferencesAreRaceFree(def: Definition)
    requires DistinctNames(def)
    requires forall i, r :: 0 <= i < |def.steps| && r in References(def.steps[i].params) ==>
               BoundStep(def.steps, i, r).Some?
    ensures RaceFree(def)
  {
    forall i, r | 0 <= i < |def.steps| && def.steps[i].parallel && r in References(def.steps[i].params)
      ensures !ReachesLater(def.steps, i, r)
    {
      assert BoundStep(def.steps, i, r).Some?;
    }
  }

  /** When a step begins, no later step that cannot overtake it is through. */
  lemma NotYetDone(def: Definition, s: Run, i: nat, j: nat)
    requires Inv(def, s) && Enabled(def, s, Begin(i)) && i <= j < |def.steps|
    requires def.steps[i].parallel ==> !Overtakes(def.steps, i, j)
    ensures s.phases[j] != Done
  {
    if j > i && def.steps[i].parallel {
      HeldBackIsBlank(def, s, i, j);
    }
  }

  // ---- Undisturbed runs ----

  /** An event of a run without cancellation, deadlines or breaker. */
  ghost predicate Undisturbed(def: Definition, registry: Registry, s: Run, e: Event)
    requires Sized(def, s) && e.step < |def.steps|
  {
    match e
    case Launch(_) => true
    case Begin(_) => true
    case Reject(_, _) => false
    case Finish(i, outcome) => outcome == ExecuteSingleStep(registry, def.steps[i].command, s.executed[i])
  }

  ghost predicate UndisturbedRun(def: Definition, registry: Registry, events: seq<Event>)
    requires Legal(def, events)
  {
    events != [] ==>
      && UndisturbedRun(def, registry, events[..|events| - 1])
      && Undisturbed(def, registry, After(def, events[..|events| - 1]), events[|events| - 1])
  }

  /** In an undisturbed run every step that has returned has the result its command gives. */
  lemma {:induction false} ResultsAreCommanded(def: Definition, registry: Registry, events: seq<Event>, i: nat)
    requires Legal(def, events) && UndisturbedRun(def, registry, events)
    requires i < |def.steps| && After(def, events).phases[i] == Done
    ensures var s := After(def, events);
            && IsCommanded(registry, def.steps[i].command, s.executed[i], s.results[i])
            && IsFiled(def.steps[i], i, s.results[i])
  {
    var front, e := events[..|events| - 1], events[|events| - 1];
    if e.Finish? && e.step == i {
      RecordIsCommanded(registry, def.steps[i], i, After(def, front).executed[i]);
    } else {
      WasDone(def, After(def, front), e, i);
      ResultsAreCommanded(def, registry, front, i);
    }
  }

  /** Only its own end makes a step done, and nothing touches it afterwards. */
  lemma WasDone(def: Definition, s: Run, e: Event, i: nat)
    requires Inv(def, s) && Enabled(def, s, e) && i < |def.steps| && Apply(def, s, e).phases[i] == Done
    requires !e.Reject? && !(e.Finish? && e.step == i)
    ensures s.phases[i] == Done
    ensures Apply(def, s, e).results[i] == s.results[i] && Apply(def, s, e).executed[i] == s.executed[i]
  {
  }

  /** What has happened in a run is what happens in order. */
  ghost predicate Agrees(def: Definition, registry: Registry, s: Run)
    requires Sized(def, s)
  {
    && (forall i :: 0 <= i < s.next ==> !RunInOrder(def, registry, i).stopped)
    && (forall i :: 0 <= i < |s.phases| && s.phases[i] == Done ==>
          s.results[i] == RunInOrder(def, registry, i + 1).results[i])
    && (forall i :: 0 <= i < |s.phases| ==>
          s.executed[i] == if s.phases[i] in {Executing, Done}
                           then RunInOrder(def, registry, i + 1).executed[i] else Null)
  }

  /** A step's entry is final once the step has run in order, and blank before. */
  lemma {:induction false} InOrderStable(def: Definition, registry: Registry, i: nat, k: nat)
    requires i < |def.steps| && k <= |def.steps|
    ensures k <= i ==>
              RunInOrder(def, registry, k).results[i] == BLANK && RunInOrder(def, registry, k).executed[i] == Null
    ensures i < k ==>
              && RunInOrder(def, registry, k).results[i] == RunInOrder(def, registry, i + 1).results[i]
              && RunInOrder(def, registry, k).executed[i] == RunInOrder(def, registry, i + 1).executed[i]
    decreases k
  {
    if k > 0 && k != i + 1 {
      InOrderStable(def, registry, i, k - 1);
    }
    if k == i + 1 {
      InOrderStable(def, registry, i, i);
    }
  }

  /** Once stopped, running on in order changes nothing. */
  lemma {:induction false} StoppedStays(def: Definition, registry: Registry, i: nat, k: nat)
    requires i <= k <= |def.steps| && RunInOrder(def, registry, i).stopped
    ensures RunInOrder(def, registry, k) == RunInOrder(def, registry, i)
    decreases k
  {
    if i < k {
      StoppedStays(def, registry, i, k - 1);
    }
  }

  lemma {:induction false} LatestNamedIs(results: seq<StepResult>, d: nat, name: string)
    requires d < |results| && results[d].name == name != ""
    requires forall j :: d < j < |results| ==> results[j].name != name
    ensures LatestNamed(results, name) == Some(results[d].output)
  {
    if d < |results| - 1 {
      LatestNamedIs(results[..|results| - 1], d, name);
    }
  }

  lemma {:induction false} NoneNamed(results: seq<StepResult>, name: string)
    requires name == "" || forall j :: 0 <= j < |results| ==> results[j].name != name
    ensures LatestNamed(results, name) == None
  {
    if results != [] {
      NoneNamed(results[..|results| - 1], name);
    }
  }

  lemma BoundIsDependency(steps: seq<Step>, i: nat, r: Reference, d: nat)
    requires i < |steps| && r in References(steps[i].params) && BoundStep(steps, i, r) == Some(d)
    ensures d in Dependencies(steps, i)
  {
  }

  /** The step a reference binds to is done, and its result the in-order one. */
  lemma BoundAgrees(def: Definition, registry: Registry, s: Run, i: nat, r: Reference, d: nat)
    requires Inv(def, s) && Agrees(def, registry, s) && Enabled(def, s, Begin(i))
    requires r in References(def.steps[i].params) && BoundStep(def.steps, i, r) == Some(d)
    ensures s.results[d] == RunInOrder(def, registry, i).results[d]
  {
    BoundIsDependency(def.steps, i, r, d);
    UnblockedMeansDone(def, s, i);
    assert s.phases[d] == Done;
    InOrderStable(def, registry, d, i);
  }

  /** With no earlier step of that name, the run and the in-order run both find none. */
  lemma NameMissing(def: Definition, registry: Registry, s: Run, i: nat, name: string)
    requires Inv(def, s) && Agrees(def, registry, s)
    requires Enabled(def, s, Begin(i)) && RaceFree(def)
    requires Named(name) in References(def.steps[i].params)
    requires name == "" || LatestStep(def.steps, i, name).None?
    ensures LatestNamed(s.results, name) == LatestNamed(RunInOrder(def, registry, i).results, name)
  {
    var inOrder := RunInOrder(def, registry, i).results;
    forall j | 0 <= j < |def.steps|
      ensures name == "" || (inOrder[j].name != name && s.results[j].name != name)
    {
      InOrderStable(def, registry, j, i);
      if j < i {
        NamedInOrder(def, registry, s, i, j);
      } else {
        LaterStepsUnnamed(def, s, i, j, name);
      }
    }
    NoneNamed(s.results, name);
    NoneNamed(inOrder, name);
  }

  /** The earlier step a name binds to is found, in the run and in order alike. */
  lemma NameFound(def: Definition, registry: Registry, s: Run, i: nat, name: string, d: nat)
    requires Inv(def, s) && Agrees(def, registry, s)
    requires Enabled(def, s, Begin(i)) && RaceFree(def)
    requires Named(name) in References(def.steps[i].params)
    requires name != "" && LatestStep(def.steps, i, name) == Some(d)
    ensures LatestNamed(s.results, name) == LatestNamed(RunInOrder(def, registry, i).results, name)
  {
    var inOrder := RunInOrder(def, registry, i).results;
    BoundAgrees(def, registry, s, i, Named(name), d);
    forall j | d < j < |def.steps|
      ensures inOrder[j].name != name && s.results[j].name != name
    {
      InOrderStable(def, registry, j, i);
      if j < i {
        NamedInOrder(def, registry, s, i, j);
      } else {
        LaterStepsUnnamed(def, s, i, j, name);
      }
    }
    NamedInOrder(def, registry, s, i, d);
    LatestNamedIs(s.results, d, name);
    LatestNamedIs(inOrder, d, name);
  }

  lemma NamedAgrees(def: Definition, registry: Registry, s: Run, i: nat, name: string)
    requires Inv(def, s) && Agrees(def, registry, s)
    requires Enabled(def, s, Begin(i)) && RaceFree(def)
    requires Named(name) in References(def.steps[i].params)
    ensures LatestNamed(s.results, name) == LatestNamed(RunInOrder(def, registry, i).results, name)
  {
    var d := LatestStep(def.steps, i, name);
    if name == "" || d.None? {
      NameMissing(def, registry, s, i, name);
    } else {
      NameFound(def, registry, s, i, name, d.value);
    }
  }

  /** No step from i on has a result that goes by a name step i refers to. */
  lemma LaterStepsUnnamed(def: Definition, s: Run, i: nat, j: nat, name: string)
    requires Inv(def, s) && Enabled(def, s, Begin(i)) && RaceFree(def)
    requires Named(name) in References(def.steps[i].params)
    requires i <= j < |def.steps|
    ensures s.results[j].name != name || name == ""
  {
    if s.results[j].name == name != "" {
      assert s.phases[j] == Done;
      assert def.steps[i].parallel ==> !ReachesLater(def.steps, i, Named(name));
      NotYetDone(def, s, i, j);
    }
  }

  lemma NamedInOrder(def: Definition, registry: Registry, s: Run, i: nat, j: nat)
    requires Inv(def, s) && Agrees(def, registry, s)
    requires j < i < s.next
    ensures RunInOrder(def, registry, i).results[j].name == StepName(def.steps[j])
  {
    InOrderStable(def, registry, j, i);
    assert !RunInOrder(def, registry, j).stopped;
  }

  lemma LaterPositionIsBlank(def: Definition, s: Run, i: nat, n: nat)
    requires Inv(def, s) && Enabled(def, s, Begin(i)) && RaceFree(def)
    requires Position(n) in References(def.steps[i].params) && i < n <= |def.steps|
    ensures s.results[n - 1] == BLANK
  {
    assert def.steps[i].parallel ==> !ReachesLater(def.steps, i, Position(n));
    NotYetDone(def, s, i, n - 1);
  }

  /** A position step i refers to that is not before it has no result yet. */
  lemma LaterPositionAgrees(def: Definition, registry: Registry, s: Run, i: nat, n: nat)
    requires Inv(def, s) && Enabled(def, s, Begin(i)) && RaceFree(def)
    requires Position(n) in References(def.steps[i].params)
    requires i < n <= |def.steps|
    ensures s.results[n - 1] == RunInOrder(def, registry, i).results[n - 1] == BLANK
  {
    InOrderStable(def, registry, n - 1, i);
    LaterPositionIsBlank(def, s, i, n);
  }

  lemma PositionAgrees(def: Definition, registry: Registry, s: Run, i: nat, n: nat)
    requires Inv(def, s) && Agrees(def, registry, s)
    requires Enabled(def, s, Begin(i)) && RaceFree(def)
    requires Position(n) in References(def.steps[i].params)
    requires 1 <= n <= |def.steps|
    ensures s.results[n - 1] == RunInOrder(def, registry, i).results[n - 1]
  {
    if n <= i {
      BoundAgrees(def, registry, s, i, Position(n), n - 1);
    } else {
      LaterPositionAgrees(def, registry, s, i, n);
    }
  }

  lemma PositionsAgree(def: Definition, registry: Registry, s: Run, i: nat)
    requires Inv(def, s) && Agrees(def, registry, s)
    requires Enabled(def, s, Begin(i)) && RaceFree(def)
    ensures forall n: nat :: Position(n) in References(def.steps[i].params) ==>
              Positional(s.results, n) == Positional(RunInOrder(def, registry, i).results, n)
  {
    forall n: nat | 1 <= n <= |def.steps| && Position(n) in References(def.steps[i].params)
      ensures s.results[n - 1] == RunInOrder(def, registry, i).results[n - 1]
    {
      PositionAgrees(def, registry, s, i, n);
    }
  }

  lemma NamesAgree(def: Definition, registry: Registry, s: Run, i: nat)
    requires Inv(def, s) && Agrees(def, registry, s)
    requires Enabled(def, s, Begin(i)) && RaceFree(def)
    ensures forall name :: Named(name) in References(def.steps[i].params) ==>
              LatestNamed(s.results, name) == LatestNamed(RunInOrder(def, registry, i).results, name)
  {
    forall name | Named(name) in References(def.steps[i].params)
      ensures LatestNamed(s.results, name) == LatestNamed(RunInOrder(def, registry, i).results, name)
    {
      NamedAgrees(def, registry, s, i, name);
    }
  }

  /** A step that begins resolves its parameters as it would in order. */
  lemma ResolvesAsInOrder(def: Definition, registry: Registry, s: Run, i: nat)
    requires Inv(def, s) && Agrees(def, registry, s)
    requires Enabled(def, s, Begin(i)) && RaceFree(def)
    ensures Resolve(def.steps[i].params, s.results) ==
            Resolve(def.steps[i].params, RunInOrder(def, registry, i).results)
  {
    PositionsAgree(def, registry, s, i);
    NamesAgree(def, registry, s, i);
    ReferencesDecide(def.steps[i].params, s.results, RunInOrder(def, registry, i).results);
  }

  lemma ReferencesDecide(params: Json, a: seq<StepResult>, b: seq<StepResult>)
    requires forall n: nat :: Position(n) in References(params) ==> Positional(a, n) == Positional(b, n)
    requires forall name :: Named(name) in References(params) ==> LatestNamed(a, name) == LatestNamed(b, name)
    ensures Resolve(params, a) == Resolve(params, b)
  {
    forall r | r in References(params) ensures Lookup(a, r) == Lookup(b, r) {
      match r
      case Position(n) =>
      case Named(name) =>
    }
    ResolveReadsReferences(params, a, b);
  }

  /** What step i of the in-order run comes to. */
  lemma InOrderStep(def: Definition, registry: Registry, i: nat)
    requires i < |def.steps| && !RunInOrder(def, registry, i).stopped
    ensures
      var before, after := RunInOrder(def, registry, i), RunInOrder(def, registry, i + 1);
      var params := Resolve(def.steps[i].params, before.results);
      && after.executed[i] == params
      && after.results[i] == Record(def.steps[i], i, ExecuteSingleStep(registry, def.steps[i].command, params))
      && (after.stopped <==> !def.steps[i].parallel && !after.results[i].success)
  {
  }

  /** The loop goes on only where running in order goes on. */
  lemma LaunchGoesOn(def: Definition, registry: Registry, s: Run)
    requires Inv(def, s) && Agrees(def, registry, s) && Enabled(def, s, Launch(s.next))
    ensures !RunInOrder(def, registry, s.next).stopped
  {
    if s.next > 0 {
      InOrderStep(def, registry, s.next - 1);
    }
  }

  lemma LaunchAgrees(def: Definition, registry: Registry, s: Run)
    requires Inv(def, s) && Agrees(def, registry, s) && Enabled(def, s, Launch(s.next))
    ensures Agrees(def, registry, Apply(def, s, Launch(s.next)))
  {
    LaunchGoesOn(def, registry, s);
    LaunchedAgrees(def, registry, s);
  }

  lemma LaunchedAgrees(def: Definition, registry: Registry, s: Run)
    requires Sized(def, s) && Agrees(def, registry, s) && s.next < |def.steps|
    requires s.phases[s.next] == NotLaunched && !RunInOrder(def, registry, s.next).stopped
    ensures Agrees(def, registry, Apply(def, s, Launch(s.next)))
  {
  }

  lemma BeginAgrees(def: Definition, registry: Registry, s: Run, i: nat)
    requires Inv(def, s) && Agrees(def, registry, s) && RaceFree(def) && Enabled(def, s, Begin(i))
    ensures Agrees(def, registry, Apply(def, s, Begin(i)))
  {
    ResolvesAsInOrder(def, registry, s, i);
    InOrderStep(def, registry, i);
  }

  /** A command that returns gives the result it gives in order. */
  lemma FinishGives(def: Definition, registry: Registry, s: Run, i: nat)
    requires Inv(def, s) && Agrees(def, registry, s)
    requires i < |def.steps| && s.phases[i] == Executing
    ensures Record(def.steps[i], i, ExecuteSingleStep(registry, def.steps[i].command, s.executed[i])) ==
            RunInOrder(def, registry, i + 1).results[i]
  {
    InOrderStep(def, registry, i);
  }

  lemma FinishAgrees(def: Definition, registry: Registry, s: Run, i: nat, o: Outcome)
    requires Inv(def, s) && Agrees(def, registry, s)
    requires i < |def.steps| && s.phases[i] == Executing
    requires o == ExecuteSingleStep(registry, def.steps[i].command, s.executed[i])
    ensures Agrees(def, registry, Recorded(def, s, i, o))
  {
    FinishGives(def, registry, s, i);
    ResultAgrees(def, registry, s, i, o);
  }

  lemma ResultAgrees(def: Definition, registry: Registry, s: Run, i: nat, o: Outcome)
    requires Sized(def, s) && Agrees(def, registry, s) && i < |def.steps| && s.phases[i] == Executing
    requires Record(def.steps[i], i, o) == RunInOrder(def, registry, i + 1).results[i]
    ensures Agrees(def, registry, Recorded(def, s, i, o))
  {
  }

  /** Every event of an undisturbed run does what happens in order. */
  lemma {:induction false} RunAgrees(def: Definition, registry: Registry, events: seq<Event>)
    requires RaceFree(def) && Legal(def, events) && UndisturbedRun(def, registry, events)
    ensures Agrees(def, registry, After(def, events))
  {
    if events != [] {
      var s, e := After(def, events[..|events| - 1]), events[|events| - 1];
      RunAgrees(def, registry, events[..|events| - 1]);
      match e
      case Launch(i) => LaunchAgrees(def, registry, s);
      case Begin(i) => BeginAgrees(def, registry, s, i);
      case Finish(i, o) => FinishAgrees(def, registry, s, i, o);
    }
  }

  /** Where the loop has been stopped, running in order is stopped too. */
  lemma StopMatches(def: Definition, registry: Registry, s: Run)
    requires Inv(def, s) && Agrees(def, registry, s) && s.stopped
    ensures RunInOrder(def, registry, s.next).stopped
  {
    InOrderStep(def, registry, s.next - 1);
  }

  lemma FinishedMatches(def: Definition, registry: Registry, s: Run)
    requires Inv(def, s) && Agrees(def, registry, s) && Finished(def, s)
    ensures s.results == RunInOrder(def, registry, |def.steps|).results
    ensures s.executed == RunInOrder(def, registry, |def.steps|).executed
  {
    var n := |def.steps|;
    if s.next < n {
      StopMatches(def, registry, s);
      StoppedStays(def, registry, s.next, n);
    }
    forall i | 0 <= i < n
      ensures s.results[i] == RunInOrder(def, registry, n).results[i]
      ensures s.executed[i] == RunInOrder(def, registry, n).executed[i]
    {
      EntryMatches(def, registry, s, i);
    }
  }

  /** Each entry is what running in order up to the end of the launch loop gives. */
  lemma EntryMatches(def: Definition, registry: Registry, s: Run, i: nat)
    requires Inv(def, s) && Agrees(def, registry, s) && Finished(def, s) && i < |def.steps|
    ensures s.results[i] == RunInOrder(def, registry, s.next).results[i]
    ensures s.executed[i] == RunInOrder(def, registry, s.next).executed[i]
  {
    InOrderStable(def, registry, i, s.next);
  }

  /**
   Confluence: however the parallel steps interleave, an undisturbed race-free run
   ends with the results, the resolved parameters, the success and the error
   message of running the steps in index order.
  */
  lemma Confluence(def: Definition, registry: Registry, events: seq<Event>)
    requires RaceFree(def) && Legal(def, events) && UndisturbedRun(def, registry, events)
    requires Finished(def, After(def, events))
    ensures
      var s, inOrder := After(def, events), RunInOrder(def, registry, |def.steps|);
      && s.executed == inOrder.executed
      && ResultOf(s.results) == ResultOf(inOrder.results)
  {
    RunAgrees(def, registry, events);
    FinishedMatches(def, registry, After(def, events));
  }
}
