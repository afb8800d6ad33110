/**
 One workflow run as the engine's threads perform it. Sequential steps run one
 after the other on the run's own thread; a parallel step runs on a thread of its
 own beside the steps that follow it, after the steps it refers to have finished.
*/
module WorkflowEngine {
  import opened Wrappers
  import opened Json
  import opened Placeholders

  // ---- Definitions ----

  datatype Step = Step(command: string, params: Json, parallel: bool, name: Option<string>)

  datatype RollbackStrategy = NoRollback | Reverse | BestEffort

  datatype Definition = Definition(steps: seq<Step>, rollback: RollbackStrategy)

  /** name.value_or("") */
  function StepName(step: Step): string {
    if step.name.Some? then step.name.value else ""
  }

  /** The latest step before `limit` with this name. */
  function LatestStep(steps: seq<Step>, limit: nat, name: string): (r: Option<nat>)
    requires limit <= |steps|
    ensures r.Some? ==> r.value < limit && steps[r.value].name == Some(name)
    ensures forall j :: (if r.Some? then r.value + 1 else 0) <= j < limit ==> steps[j].name != Some(name)
  {
    if limit == 0 then None
    else if steps[limit - 1].name == Some(name) then Some(limit - 1)
    else LatestStep(steps, limit - 1, name)
  }

  /** The earlier step a reference of step i binds to, if any. */
  function BoundStep(steps: seq<Step>, i: nat, r: Reference): (d: Option<nat>)
    requires i < |steps|
    ensures d.Some? ==> d.value < i
  {
    match r
    case Position(n) => if 1 <= n && n - 1 < i then Some(n - 1) else None
    case Named(name) => LatestStep(steps, i, name)
  }

  /** For a step, the earlier steps whose output it references. */
  function Dependencies(steps: seq<Step>, i: nat): (deps: set<nat>)
    requires i < |steps|
    ensures forall d :: d in deps ==> d < i
  {
    set r | r in References(steps[i].params) && BoundStep(steps, i, r).Some? :: BoundStep(steps, i, r).value
  }

  /** Step j references step i, or a step that does, and so on. */
  ghost predicate DependsOn(steps: seq<Step>, j: nat, i: nat)
    requires j < |steps|
    decreases j
  {
    i in Dependencies(steps, j) || exists d :: d in Dependencies(steps, j) && DependsOn(steps, d, i)
  }

  // ---- The state of a run ----

  datatype Phase = NotLaunched | Launched | Executing | Done

  /** `next` is the launch loop's index; `stopped` says a failed sequential step
      has broken the loop. */
  datatype Run = Run(
    next: nat,
    stopped: bool,
    phases: seq<Phase>,
    results: seq<StepResult>,
    executed: seq<Json>,
    completed: seq<nat>)

  function Start(n: nat): Run {
    Run(0, false, seq(n, i => NotLaunched), seq(n, i => BLANK), seq(n, i => Null), [])
  }

  /** What running a step can come to. */
  datatype Outcome = Outcome(success: bool, error: string, output: Json, failure: StepFailure)

  datatype Event =
    | Launch(step: nat)                        // the loop reaches a step
    | Begin(step: nat)                         // dependencies done: resolve the parameters, start the command
    | Reject(step: nat, outcome: Outcome)      // dependencies done, but cancelled, too late or circuit open
    | Finish(step: nat, outcome: Outcome)      // the command has returned: record the result

  /** The loop can go on: every sequential step before `next` has returned. */
  predicate LoopFree(def: Definition, s: Run) {
    forall j :: 0 <= j < s.next && j < |def.steps| && j < |s.phases| && !def.steps[j].parallel ==> s.phases[j] == Done
  }

  /** A step waits on the threads of the parallel steps it references. */
  predicate Unblocked(def: Definition, s: Run, i: nat)
    requires i < |def.steps| == |s.phases|
  {
    forall d :: d in Dependencies(def.steps, i) && def.steps[d].parallel ==> s.phases[d] == Done
  }

  predicate Sized(def: Definition, s: Run) {
    && |s.phases| == |s.results| == |s.executed| == |def.steps|
    && s.next <= |def.steps|
  }

  ghost predicate Enabled(def: Definition, s: Run, e: Event)
    requires Sized(def, s)
  {
    && e.step < |def.steps|
    && match e
       case Launch(i) => i == s.next && !s.stopped && LoopFree(def, s)
       case Begin(i) => s.phases[i] == Launched && Unblocked(def, s, i)
       case Reject(i, outcome) => s.phases[i] == Launched && Unblocked(def, s, i) && !outcome.success
       case Finish(i, _) => s.phases[i] == Executing
  }

  function Record(step: Step, i: nat, o: Outcome): StepResult {
    StepResult(o.success, o.error, o.output, step.command, StepName(step), i, o.failure, None)
  }

  /** The result is stored and, if it is a success, the step joins the completion order. */
  function Recorded(def: Definition, s: Run, i: nat, o: Outcome): Run
    requires Sized(def, s) && i < |def.steps|
  {
    s.(phases := s.phases[i := Done],
       results := s.results[i := Record(def.steps[i], i, o)],
       completed := if o.success then s.completed + [i] else s.completed,
       stopped := s.stopped || (!def.steps[i].parallel && !o.success))
  }

  function Apply(def: Definition, s: Run, e: Event): (s': Run)
    requires Sized(def, s) && e.step < |def.steps|
  {
    match e
    case Launch(i) => s.(next := i + 1, phases := s.phases[i := Launched])
    case Begin(i) =>
      s.(phases := s.phases[i := Executing],
         executed := s.executed[i := Resolve(def.steps[i].params, s.results)])
    case Reject(i, o) => Recorded(def, s, i, o)
    case Finish(i, o) => Recorded(def, s, i, o)
  }

  /** The run is over: the loop has ended and every launched step has returned. */
  ghost predicate Finished(def: Definition, s: Run)
    requires Sized(def, s)
  {
    && (s.next == |def.steps| || s.stopped)
    && forall i :: 0 <= i < s.next ==> s.phases[i] == Done
  }

  // ---- What every step of a run keeps ----

  /** The phases tell how far the launch loop has come. */
  ghost predicate PhasesOk(def: Definition, s: Run)
    requires Sized(def, s)
  {
    && (forall i :: 0 <= i < |s.phases| ==> (s.phases[i] == NotLaunched <==> s.next <= i))
    && (forall i :: 0 <= i < s.next - 1 && !def.steps[i].parallel ==> s.phases[i] == Done && s.results[i].success)
    && (s.stopped ==> s.next > 0 && !def.steps[s.next - 1].parallel
                      && s.phases[s.next - 1] == Done && !s.results[s.next - 1].success)
    && (s.next > 0 && !def.steps[s.next - 1].parallel && s.phases[s.next - 1] == Done && !s.stopped ==>
          s.results[s.next - 1].success)
  }

  /** Results of steps that have not returned are blank; the others carry the step's name. */
  ghost predicate ResultsOk(def: Definition, s: Run)
    requires Sized(def, s)
  {
    forall i :: 0 <= i < |s.phases| ==>
      if s.phases[i] == Done then s.results[i].name == StepName(def.steps[i]) else s.results[i] == BLANK
  }

  /** A step has all its dependencies behind it. */
  ghost predicate DependenciesDone(def: Definition, s: Run, i: nat)
    requires Sized(def, s) && i < |def.steps|
  {
    forall d :: d in Dependencies(def.steps, i) ==> s.phases[d] == Done
  }

  /** Every step that has begun to execute or has returned has its dependencies behind it. */
  ghost predicate BegunInTurn(def: Definition, s: Run)
    requires Sized(def, s)
  {
    forall i :: 0 <= i < |s.phases| && s.phases[i] in {Executing, Done} ==> DependenciesDone(def, s, i)
  }

  /** Before the k-th completed step stand all successful steps it depends on, directly
      or through others, whatever these came to. */
  ghost predicate DependenciesBefore(def: Definition, s: Run, k: nat)
    requires Sized(def, s) && k < |s.completed| && s.completed[k] < |def.steps|
  {
    forall d :: 0 <= d < |s.results| && DependsOn(def.steps, s.completed[k], d) && s.results[d].success ==>
      d in s.completed[..k]
  }

  ghost predicate Succeeded(s: Run, i: nat) {
    i < |s.phases| && i < |s.results| && s.phases[i] == Done && s.results[i].success
  }

  /** The completion order lists exactly the successful steps, once each. */
  ghost predicate Listed(s: Run) {
    && (forall k, l :: 0 <= k < l < |s.completed| ==> s.completed[k] != s.completed[l])
    && (forall k :: 0 <= k < |s.completed| ==> Succeeded(s, s.completed[k]))
    && (forall i :: 0 <= i < |s.phases| && Succeeded(s, i) ==> i in s.completed)
  }

  /** A step executes only after its dependencies, and completes after those that succeeded. */
  ghost predicate CompletionOk(def: Definition, s: Run)
    requires Sized(def, s)
  {
    && Listed(s)
    && BegunInTurn(def, s)
    && (forall k :: 0 <= k < |s.completed| && s.completed[k] < |def.steps| ==> DependenciesBefore(def, s, k))
  }

  ghost predicate Inv(def: Definition, s: Run) {
    Sized(def, s) && PhasesOk(def, s) && ResultsOk(def, s) && CompletionOk(def, s)
  }

  lemma StartInv(def: Definition)
    ensures Inv(def, Start(|def.steps|))
  {
  }

  /** What a step is blocked on are parallel steps; earlier sequential ones are done. */
  lemma UnblockedMeansDone(def: Definition, s: Run, i: nat)
    requires Inv(def, s) && i < s.next && Unblocked(def, s, i)
    ensures DependenciesDone(def, s, i)
  {
    forall d | d in Dependencies(def.steps, i) ensures s.phases[d] == Done {
      assert d < i;
    }
  }

  /** With its dependencies done, everything a step depends on is done. */
  lemma {:induction false} AllBehindAreDone(def: Definition, s: Run, j: nat, i: nat)
    requires Sized(def, s) && BegunInTurn(def, s)
    requires j < |def.steps| && DependenciesDone(def, s, j) && DependsOn(def.steps, j, i)
    ensures i < j && s.phases[i] == Done
    decreases j
  {
    if i !in Dependencies(def.steps, j) {
      var d :| d in Dependencies(def.steps, j) && DependsOn(def.steps, d, i);
      AllBehindAreDone(def, s, d, i);
    }
  }

  /** Step i has been launched, and has all it waits for. */
  ghost predicate Recordable(def: Definition, s: Run, i: nat)
    requires Sized(def, s)
  {
    && i < |def.steps| && s.phases[i] in {Launched, Executing}
    && DependenciesDone(def, s, i)
  }

  lemma RecordKeepsResults(def: Definition, s: Run, i: nat, o: Outcome)
    requires Inv(def, s) && Recordable(def, s, i)
    ensures ResultsOk(def, Recorded(def, s, i, o))
  {
  }

  lemma RecordKeepsPhases(def: Definition, s: Run, i: nat, o: Outcome)
    requires Inv(def, s) && Recordable(def, s, i)
    ensures PhasesOk(def, Recorded(def, s, i, o))
  {
    assert i < s.next;
    assert !def.steps[i].parallel ==> i == s.next - 1 && !s.stopped;
  }

  lemma RecordKeepsTurns(def: Definition, s: Run, i: nat, o: Outcome)
    requires Inv(def, s) && Recordable(def, s, i)
    ensures BegunInTurn(def, Recorded(def, s, i, o))
  {
    var s' := Recorded(def, s, i, o);
    forall j | 0 <= j < |s'.phases| && s'.phases[j] in {Executing, Done} ensures DependenciesDone(def, s', j) {
      assert DependenciesDone(def, s, j);
    }
  }

  lemma RecordKeepsOrder(def: Definition, s: Run, i: nat, o: Outcome, k: nat)
    requires Inv(def, s) && Recordable(def, s, i)
    requires k < |Recorded(def, s, i, o).completed| && Recorded(def, s, i, o).completed[k] < |def.steps|
    ensures DependenciesBefore(def, Recorded(def, s, i, o), k)
  {
    var s' := Recorded(def, s, i, o);
    var j := s'.completed[k];
    forall d | 0 <= d < |s.results| && DependsOn(def.steps, j, d) && s'.results[d].success
      ensures d in s'.completed[..k]
    {
      AllBehindAreDone(def, s, j, d);
      if k < |s.completed| {
        assert DependenciesBefore(def, s, k);
        assert s'.completed[..k] == s.completed[..k];
      } else {
        assert s'.completed[..k] == s.completed;
        assert Succeeded(s, d);
      }
    }
  }

  lemma RecordKeepsListed(def: Definition, s: Run, i: nat, o: Outcome)
    requires Sized(def, s) && Listed(s) && i < |def.steps| && s.phases[i] in {Launched, Executing}
    ensures Listed(Recorded(def, s, i, o))
  {
    var s' := Recorded(def, s, i, o);
    assert !Succeeded(s, i);
    forall j | 0 <= j < |s.phases| ensures Succeeded(s', j) == if j == i then o.success else Succeeded(s, j) {
    }
  }

  lemma RecordKeepsInv(def: Definition, s: Run, i: nat, o: Outcome)
    requires Inv(def, s) && Recordable(def, s, i)
    ensures Inv(def, Recorded(def, s, i, o))
  {
    var s' := Recorded(def, s, i, o);
    RecordKeepsResults(def, s, i, o);
    RecordKeepsPhases(def, s, i, o);
    RecordKeepsTurns(def, s, i, o);
    RecordKeepsListed(def, s, i, o);
    forall k | 0 <= k < |s'.completed| && s'.completed[k] < |def.steps| ensures DependenciesBefore(def, s', k) {
      RecordKeepsOrder(def, s, i, o, k);
    }
  }

  /** Launching or beginning a step leaves the completion order in order. */
  lemma MovingOnKeepsCompletion(def: Definition, s: Run, i: nat, s': Run)
    requires Inv(def, s) && i < |def.steps| && s.phases[i] != Done && Sized(def, s')
    requires s'.phases[i] == Launched || (s'.phases[i] == Executing && DependenciesDone(def, s, i))
    requires s'.phases == s.phases[i := s'.phases[i]]
    requires s'.results == s.results && s'.completed == s.completed
    ensures CompletionOk(def, s')
  {
    assert forall j :: 0 <= j < |s.phases| ==> (s'.phases[j] == Done <==> s.phases[j] == Done);
    assert forall j :: 0 <= j < |s.phases| ==> Succeeded(s', j) == Succeeded(s, j);
    assert forall j :: 0 <= j < |s.phases| && DependenciesDone(def, s, j) ==> DependenciesDone(def, s', j);
    assert forall k :: 0 <= k < |s.completed| && DependenciesBefore(def, s, k) ==> DependenciesBefore(def, s', k);
  }

  lemma LaunchKeepsInv(def: Definition, s: Run)
    requires Inv(def, s) && Enabled(def, s, Launch(s.next))
    ensures Inv(def, Apply(def, s, Launch(s.next)))
  {
    MovingOnKeepsCompletion(def, s, s.next, Apply(def, s, Launch(s.next)));
  }

  lemma BeginKeepsInv(def: Definition, s: Run, i: nat)
    requires Inv(def, s) && Enabled(def, s, Begin(i))
    ensures Inv(def, Apply(def, s, Begin(i)))
  {
    UnblockedMeansDone(def, s, i);
    MovingOnKeepsCompletion(def, s, i, Apply(def, s, Begin(i)));
  }

  /** Every event keeps the invariant. */
  lemma StepKeepsInv(def: Definition, s: Run, e: Event)
    requires Inv(def, s) && Enabled(def, s, e)
    ensures Inv(def, Apply(def, s, e))
  {
    match e
    case Launch(i) => LaunchKeepsInv(def, s);
    case Begin(i) => BeginKeepsInv(def, s, i);
    case Reject(i, o) =>
      UnblockedMeansDone(def, s, i);
      RecordKeepsInv(def, s, i, o);
    case Finish(i, o) =>
      RecordKeepsInv(def, s, i, o);
  }

  // ---- Runs ----

  /** A sequence of events that can happen, each when it is its turn. */
  ghost predicate Legal(def: Definition, events: seq<Event>)
    decreases |events|, 0
  {
    events != [] ==>
      && Legal(def, events[..|events| - 1])
      && Enabled(def, After(def, events[..|events| - 1]), events[|events| - 1])
  }

  /** The state a legal sequence of events leads to; it satisfies the invariant. */
  ghost function After(def: Definition, events: seq<Event>): (s: Run)
    requires Legal(def, events)
    ensures Inv(def, s)
    decreases |events|, 1
  {
    if events == [] then
      StartInv(def);
      Start(|def.steps|)
    else
      var s := After(def, events[..|events| - 1]);
      StepKeepsInv(def, s, events[|events| - 1]);
      Apply(def, s, events[|events| - 1])
  }

  /** What a step ran with does not change once it has begun, nor what it returned. */
  ghost predicate Stands(early: Run, late: Run, i: nat)
    requires i < |early.phases| == |early.results| == |early.executed|
    requires i < |late.phases| == |late.results| == |late.executed|
  {
    && (early.phases[i] in {Executing, Done} ==>
          late.executed[i] == early.executed[i] && late.phases[i] in {Executing, Done})
    && (early.phases[i] == Done ==> late.results[i] == early.results[i] && late.phases[i] == Done)
  }

  lemma ApplyStands(def: Definition, s: Run, e: Event, i: nat)
    requires Sized(def, s) && Enabled(def, s, e) && i < |def.steps|
    requires e.Launch? ==> s.phases[e.step] == NotLaunched
    ensures Stands(s, Apply(def, s, e), i)
  {
  }

  lemma EventStands(def: Definition, events: seq<Event>, i: nat)
    requires events != [] && Legal(def, events) && i < |def.steps|
    ensures Legal(def, events[..|events| - 1])
    ensures Stands(After(def, events[..|events| - 1]), After(def, events), i)
  {
    var s := After(def, events[..|events| - 1]);
    ApplyStands(def, s, events[|events| - 1], i);
  }

  /** The parameters kept for undoing a step are those it began with, resolved
      against the results of that moment. */
  lemma {:induction false} RanWith(def: Definition, events: seq<Event>, k: nat, i: nat)
    requires Legal(def, events) && k < |events| && events[k] == Begin(i)
    ensures Legal(def, events[..k]) && i < |def.steps|
    ensures After(def, events).phases[i] in {Executing, Done}
    ensures After(def, events).executed[i] == Resolve(def.steps[i].params, After(def, events[..k]).results)
  {
    var n := |events| - 1;
    if k < n {
      assert events[..n][..k] == events[..k];
      RanWith(def, events[..n], k, i);
      EventStands(def, events, i);
    } else {
      BeginsWith(def, events, i);
    }
  }

  lemma BeginsWith(def: Definition, events: seq<Event>, i: nat)
    requires events != [] && Legal(def, events) && events[|events| - 1] == Begin(i)
    ensures Legal(def, events[..|events| - 1]) && i < |def.steps|
    ensures After(def, events).phases[i] == Executing
    ensures After(def, events).executed[i] ==
            Resolve(def.steps[i].params, After(def, events[..|events| - 1]).results)
  {
  }

  // ---- Deadlock freedom ----

  function PhaseWork(p: Phase): nat {
    match p
    case NotLaunched => 3
    case Launched => 2
    case Executing => 1
    case Done => 0
  }

  function Work(phases: seq<Phase>): nat {
    if phases == [] then 0 else Work(phases[..|phases| - 1]) + PhaseWork(phases[|phases| - 1])
  }

  lemma {:induction false} WorkOfUpdate(phases: seq<Phase>, i: nat, p: Phase)
    requires i < |phases|
    ensures Work(phases[i := p]) == Work(phases) - PhaseWork(phases[i]) + PhaseWork(p)
  {
    var n := |phases| - 1;
    if i == n {
      assert phases[i := p][..n] == phases[..n];
    } else {
      assert phases[i := p][..n] == phases[..n][i := p];
      WorkOfUpdate(phases[..n], i, p);
    }
  }

  /** Every event moves a step on: less is left to do. */
  lemma StepDoesWork(def: Definition, s: Run, e: Event)
    requires Inv(def, s) && Enabled(def, s, e)
    ensures Work(Apply(def, s, e).phases) < Work(s.phases)
  {
    WorkOfUpdate(s.phases, e.step, Apply(def, s, e).phases[e.step]);
  }

  lemma {:induction false} WorkOfStart(n: nat)
    ensures Work(Start(n).phases) == 3 * n
  {
    if n > 0 {
      assert Start(n).phases[..n - 1] == Start(n - 1).phases;
      WorkOfStart(n - 1);
    }
  }

  /** No run has more than three events a step. */
  lemma {:induction false} RunsAreShort(def: Definition, events: seq<Event>)
    requires Legal(def, events)
    ensures |events| + Work(After(def, events).phases) <= 3 * |def.steps|
  {
    if events == [] {
      WorkOfStart(|def.steps|);
    } else {
      RunsAreShort(def, events[..|events| - 1]);
      StepDoesWork(def, After(def, events[..|events| - 1]), events[|events| - 1]);
    }
  }

  /** The launched step of smallest index that has not returned is not blocked. */
  lemma {:induction false} SomeStepIsFree(def: Definition, s: Run, i: nat) returns (free: nat)
    requires Inv(def, s) && i < s.next && s.phases[i] != Done
    ensures free < s.next
    ensures s.phases[free] == Executing || Enabled(def, s, Begin(free))
    decreases i
  {
    if j :| 0 <= j < i && s.phases[j] != Done {
      free := SomeStepIsFree(def, s, j);
    } else {
      free := i;
    }
  }

  /** A step that can be launched or begun, or whose command is executing and
      will be recorded with whatever it returns. */
  ghost predicate CanMove(def: Definition, s: Run, i: nat)
    requires Sized(def, s)
  {
    || Enabled(def, s, Launch(i))
    || Enabled(def, s, Begin(i))
    || forall o :: Enabled(def, s, Finish(i, o))
  }

  /** Deadlock freedom: until the run is over some step can move. */
  lemma NoDeadlock(def: Definition, s: Run)
    requires Inv(def, s) && !Finished(def, s)
    ensures exists i :: CanMove(def, s, i)
  {
    if i :| 0 <= i < s.next && s.phases[i] != Done {
      var free := SomeStepIsFree(def, s, i);
      assert CanMove(def, s, free);
    } else {
      assert CanMove(def, s, s.next);
    }
  }

  // ---- Commands ----

  /** A command as a function of its parameters. Undoing it may fail with a message. */
  datatype Command = Command(
    validate: Json -> Option<(string, string)>,
    run: Json -> Result<Json, string>,
    supportsRollback: bool,
    undo: Json -> Option<string>)

  type Registry = map<string, Command>

  /** The in-band failure report { "success": false, ... }. */
  predicate ReportsFailure(output: Json) {
    output.Obj? && "success" in output.fields && output.fields["success"] == Bool(false)
  }

  function ReportedError(output: Json): string
    requires output.Obj?
  {
    if "error" in output.fields && output.fields["error"].Str? then output.fields["error"].s
    else "Command reported failure"
  }

  function ExecuteSingleStep(registry: Registry, command: string, params: Json): Outcome {
    if command !in registry then
      Outcome(false, "Command not found: " + command, Null, NotFound)
    else
      match registry[command].validate(params)
      case Some(problem) =>
        Outcome(false, "Validation failed for parameter '" + problem.0 + "': " + problem.1, Null, Validation)
      case None =>
        match registry[command].run(params)
        case Err(message) => Outcome(false, message, Null, StepFailure.Command)
        case Ok(output) =>
          if ReportsFailure(output) then Outcome(false, ReportedError(output), output, StepFailure.Command)
          else Outcome(true, "", output, NoFailure)
  }

  // ---- What a step's result says of its command ----

  /** The command is registered, takes the parameters, returns, and does not return an object
      with "success": false. */
  predicate CommandSucceeds(registry: Registry, command: string, params: Json) {
    && command in registry
    && registry[command].validate(params).None?
    && registry[command].run(params).Ok?
    && var output := registry[command].run(params).value;
       !(output.Obj? && "success" in output.fields && output.fields["success"] == Bool(false))
  }

  /** The message an output reports a failure with. */
  predicate IsReport(output: Json, error: string) {
    output.Obj? &&
    if "error" in output.fields && output.fields["error"].Str? then output.fields["error"] == Str(error)
    else error == "Command reported failure"
  }

  /** How a result fails whose command does not succeed. */
  predicate FailsAsCommanded(registry: Registry, command: string, params: Json, r: StepResult) {
    if command !in registry then
      r.failure == NotFound && r.error == "Command not found: " + command && r.output == Null
    else if registry[command].validate(params).Some? then
      var problem := registry[command].validate(params).value;
      && r.failure == Validation && r.output == Null
      && r.error == "Validation failed for parameter '" + problem.0 + "': " + problem.1
    else if registry[command].run(params).Err? then
      r.failure == StepFailure.Command && r.error == registry[command].run(params).error && r.output == Null
    else
      r.failure == StepFailure.Command && r.output == registry[command].run(params).value && IsReport(r.output, r.error)
  }

  /** The result is the command's: a success exactly if the command succeeds with these
      parameters, with its output, and otherwise the failure it comes to. */
  predicate IsCommanded(registry: Registry, command: string, params: Json, r: StepResult) {
    && (r.success <==> CommandSucceeds(registry, command, params))
    && if r.success then r.output == registry[command].run(params).value && r.error == "" && r.failure == NoFailure
       else FailsAsCommanded(registry, command, params, r)
  }

  /** It is kept under the step's command, name and index. */
  predicate IsFiled(step: Step, i: nat, r: StepResult) {
    r.command == step.command && r.index == i && r.name == if step.name.Some? then step.name.value else ""
  }

  lemma RecordIsCommanded(registry: Registry, step: Step, i: nat, params: Json)
    ensures IsCommanded(registry, step.command, params,
                        Record(step, i, ExecuteSingleStep(registry, step.command, params)))
    ensures IsFiled(step, i, Record(step, i, ExecuteSingleStep(registry, step.command, params)))
  {
  }

  // ---- The outcome of a run ----

  predicate AllSucceeded(results: seq<StepResult>) {
    forall i :: 0 <= i < |results| ==> results[i].success
  }

  /** The message of the first failed step that has one. */
  function FirstError(results: seq<StepResult>): string {
    if results == [] then ""
    else if !results[0].success && results[0].error != "" then results[0].error
    else FirstError(results[1..])
  }

  /** The error of a run is that of its first failed step that has one, and empty if none has. */
  lemma {:induction false} FirstErrorIs(results: seq<StepResult>, k: nat)
    requires forall j :: 0 <= j < k && j < |results| ==> results[j].success || results[j].error == ""
    requires k < |results| ==> !results[k].success && results[k].error != ""
    ensures FirstError(results) == if k < |results| then results[k].error else ""
  {
    if results != [] && k > 0 {
      FirstErrorIs(results[1..], k - 1);
    }
  }

  datatype WorkflowResult = WorkflowResult(success: bool, results: seq<StepResult>, error: string)

  function ResultOf(results: seq<StepResult>): WorkflowResult {
    WorkflowResult(AllSucceeded(results), results, if AllSucceeded(results) then "" else FirstError(results))
  }
}
