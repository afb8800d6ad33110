/**
 Jobs that run other jobs: the run_job command, the job service and the engine call one
 another, guarded by the stack of job ids each thread carries.
*/
module NestedRuns {
  import opened Wrappers

  const MAX_DEPTH := 16

  // ---- Jobs ----

  datatype Step =
    | RunJob(ref: string, timeout: nat, parallel: bool)
    | Other(timeout: nat, parallel: bool)

  /** A timeout of 0 is none. */
  datatype Job = Job(id: string, name: string, timeout: nat, steps: seq<Step>)

  function ById(jobs: seq<Job>, id: string): (r: Option<Job>)
    ensures r.Some? ==> r.value in jobs && r.value.id == id
    ensures r.None? ==> forall job :: job in jobs ==> job.id != id
  {
    if jobs == [] then None
    else if jobs[0].id == id then Some(jobs[0])
    else ById(jobs[1..], id)
  }

  function ByName(jobs: seq<Job>, name: string): (r: Option<Job>)
    ensures r.Some? ==> r.value in jobs && r.value.name == name
    ensures r.None? ==> forall job :: job in jobs ==> job.name != name
  {
    if jobs == [] then None
    else if jobs[0].name == name then Some(jobs[0])
    else ByName(jobs[1..], name)
  }

  /** By id first, then by name. */
  function Referenced(jobs: seq<Job>, ref: string): (r: Option<Job>)
    ensures r.Some? ==> r.value in jobs && (r.value.id == ref || r.value.name == ref)
    ensures r.Some? && r.value.id != ref ==> forall job :: job in jobs ==> job.id != ref
    ensures r.None? ==> forall job :: job in jobs ==> job.id != ref && job.name != ref
  {
    if ById(jobs, ref).Some? then ById(jobs, ref) else ByName(jobs, ref)
  }

  // ---- Deadlines ----

  /** No deadline is later than every other. */
  predicate NotLater(a: Option<int>, b: Option<int>) {
    b.Some? ==> a.Some? && a.value <= b.value
  }

  /** The whole run's deadline: its own limit, or the calling step's if that is earlier. */
  function RunDeadline(timeout: nat, started: int, inherited: Option<int>): (d: Option<int>)
    ensures NotLater(d, inherited)
    ensures timeout > 0 ==> NotLater(d, Some(started + timeout))
    ensures d.Some? ==> d == inherited || (timeout > 0 && d == Some(started + timeout))
  {
    var own := if timeout > 0 then Some(started + timeout) else None;
    if inherited.Some? && (own.None? || inherited.value < own.value) then inherited else own
  }

  /** A step's deadline: the earlier of its own limit and the run's. */
  function StepDeadline(timeout: nat, started: int, run: Option<int>): (d: Option<int>)
    ensures NotLater(d, run)
    ensures timeout > 0 ==> NotLater(d, Some(started + timeout))
    ensures d.Some? ==> d == run || (timeout > 0 && d == Some(started + timeout))
  {
    if timeout > 0 && (run.None? || started + timeout < run.value) then Some(started + timeout) else run
  }

  // ---- The context a thread carries ----

  datatype Snapshot = Snapshot(jobStack: seq<string>, stop: nat, deadline: Option<int>)

  class Context {
    var current: Snapshot

    constructor (current: Snapshot)
      ensures this.current == current
    {
      this.current := current;
    }
  }

  predicate Distinct(stack: seq<string>) {
    forall i, j :: 0 <= i < j < |stack| ==> stack[i] != stack[j]
  }

  predicate IsGuarded(stack: seq<string>) {
    Distinct(stack) && |stack| <= MAX_DEPTH
  }

  // ---- What has run ----

  /** A nested run: the job, the stack it ran under, when it started, its effective deadline
      and its calling step's, and how the steps that were started have ended. */
  datatype NestedRun = NestedRun(
    job: Job, stack: seq<string>, started: int, deadline: Option<int>, calling: Option<int>, ends: seq<bool>)

  /** The steps start in order, and all of them do unless a sequential one has failed. */
  predicate AreEnds(steps: seq<Step>, ends: seq<bool>) {
    && |ends| <= |steps|
    && (forall i :: 0 <= i < |ends| - 1 ==> ends[i] || steps[i].parallel)
    && (|ends| < |steps| ==> |ends| > 0 && !ends[|ends| - 1] && !steps[|ends| - 1].parallel)
  }

  /** A run succeeds if all its steps have, and all have been started. */
  predicate Succeeds(steps: seq<Step>, ends: seq<bool>) {
    |ends| == |steps| && forall i :: 0 <= i < |ends| ==> ends[i]
  }

  /** The earlier of the run's own limit and the calling step's deadline. */
  predicate IsRunDeadline(run: NestedRun) {
    && NotLater(run.deadline, run.calling)
    && (run.job.timeout > 0 ==> NotLater(run.deadline, Some(run.started + run.job.timeout)))
    && (run.deadline.Some? ==>
          run.deadline == run.calling || (run.job.timeout > 0 && run.deadline == Some(run.started + run.job.timeout)))
  }

  /** Every nested run is under a guarded stack that continues `stack`, and ends by its
      calling step's deadline and by every earlier one. */
  predicate IsContained(runs: seq<NestedRun>, stack: seq<string>, deadline: Option<int>) {
    forall k :: 0 <= k < |runs| ==>
      && IsGuarded(runs[k].stack)
      && stack <= runs[k].stack
      && IsRunDeadline(runs[k])
      && NotLater(runs[k].calling, deadline)
      && AreEnds(runs[k].job.steps, runs[k].ends)
  }

  /** The first of the runs is of this job, under this stack and with this calling deadline. */
  predicate StartsWith(runs: seq<NestedRun>, job: Job, stack: seq<string>, calling: Option<int>) {
    runs != [] && runs[0].job == job && runs[0].stack == stack && runs[0].calling == calling
  }

  lemma ContainedDeeper(runs: seq<NestedRun>, stack: seq<string>, deadline: Option<int>,
                        stack': seq<string>, deadline': Option<int>)
    requires IsContained(runs, stack, deadline) && stack' <= stack && NotLater(deadline, deadline')
    ensures IsContained(runs, stack', deadline')
  {
  }

  // ---- run_job ----

  datatype Refusal = NoSuchJob | CycleDetected | TooDeep | NotRun | SubJobFailed | StepFailed

  /** Which guard refuses a reference under a stack, if one does. */
  function Guard(jobs: seq<Job>, ref: string, stack: seq<string>): (r: Option<Refusal>)
    ensures r.None? <==> Referenced(jobs, ref).Some? && Referenced(jobs, ref).value.id !in stack && |stack| < 16
    ensures r == Some(NoSuchJob) <==> Referenced(jobs, ref).None?
    ensures r == Some(CycleDetected) <==> Referenced(jobs, ref).Some? && Referenced(jobs, ref).value.id in stack
    ensures r.None? || r.value in {NoSuchJob, CycleDetected, TooDeep}
  {
    match Referenced(jobs, ref)
    case None => Some(NoSuchJob)
    case Some(job) =>
      if job.id in stack then Some(CycleDetected)
      else if |stack| >= MAX_DEPTH then Some(TooDeep)
      else None
  }

  /** What run_job comes to, by the jobs saved when it looks the reference up, and when the
      job service reads the job: the guard's refusal; nothing, if the job has gone; else a run
      of it, whose success is the step's. */
  predicate IsRunOf(jobs: seq<Job>, later: seq<Job>, ref: string, stack: seq<string>, calling: Option<int>,
                    failure: Option<Refusal>, runs: seq<NestedRun>)
  {
    var guard := Guard(jobs, ref, stack);
    if guard.Some? then failure == guard && runs == []
    else
      var id := Referenced(jobs, ref).value.id;
      var job := ById(later, id);
      if job.None? then failure == Some(NotRun) && runs == []
      else
        && StartsWith(runs, job.value, stack + [id], calling)
        && failure == if Succeeds(runs[0].job.steps, runs[0].ends) then None else Some(SubJobFailed)
  }

  /** Runs the job that the saved jobs have under this reference inline in a step with this
      deadline; the context is as before, however it ends. */
  method ExecuteWithControl(ctx: Context, jobs: seq<Job>, later: seq<Job>, ref: string, stepDeadline: Option<int>)
    returns (failure: Option<Refusal>, runs: seq<NestedRun>)
    requires IsGuarded(ctx.current.jobStack)
    modifies ctx
    ensures ctx.current == old(ctx.current)
    ensures IsContained(runs, old(ctx.current.jobStack), stepDeadline)
    ensures IsRunOf(jobs, later, ref, old(ctx.current.jobStack), stepDeadline, failure, runs)
    decreases MAX_DEPTH - |ctx.current.jobStack|, 0
  {
    var saved := ctx.current.deadline;
    ctx.current := ctx.current.(deadline := stepDeadline);
    failure, runs := RunReferenced(ctx, jobs, later, ref);
    ctx.current := ctx.current.(deadline := saved);
  }

  method RunReferenced(ctx: Context, jobs: seq<Job>, later: seq<Job>, ref: string)
    returns (failure: Option<Refusal>, runs: seq<NestedRun>)
    requires IsGuarded(ctx.current.jobStack)
    modifies ctx
    ensures ctx.current == old(ctx.current)
    ensures IsContained(runs, old(ctx.current.jobStack), old(ctx.current.deadline))
    ensures IsRunOf(jobs, later, ref, old(ctx.current.jobStack), old(ctx.current.deadline), failure, runs)
    decreases MAX_DEPTH - |ctx.current.jobStack|, 0, 0
  {
    var job := Referenced(jobs, ref);
    if job.None? {
      return Some(NoSuchJob), [];
    }
    if job.value.id in ctx.current.jobStack {
      return Some(CycleDetected), [];
    }
    if |ctx.current.jobStack| >= MAX_DEPTH {
      return Some(TooDeep), [];
    }
    var stack := ctx.current.jobStack;
    ctx.current := ctx.current.(jobStack := stack + [job.value.id]);
    var status;
    status, runs := RunSavedJob(ctx, later, job.value.id);
    ContainedDeeper(runs, ctx.current.jobStack, ctx.current.deadline, stack, ctx.current.deadline);
    ctx.current := ctx.current.(jobStack := ctx.current.jobStack[..|ctx.current.jobStack| - 1]);
    assert ctx.current.jobStack == stack;
    failure := if status.None? then Some(NotRun) else if status.value then None else Some(SubJobFailed);
  }

  /** The job service's part: None if the job has gone meanwhile, else whether the run succeeded.
      The saved jobs are read again, and may have been edited since. */
  method RunSavedJob(ctx: Context, jobs: seq<Job>, id: string) returns (success: Option<bool>, runs: seq<NestedRun>)
    requires IsGuarded(ctx.current.jobStack)
    modifies ctx
    ensures ctx.current == old(ctx.current)
    ensures IsContained(runs, ctx.current.jobStack, ctx.current.deadline)
    ensures var job := ById(jobs, id);
            if job.None? then success == None && runs == []
            else
              && StartsWith(runs, job.value, ctx.current.jobStack, ctx.current.deadline)
              && success == Some(Succeeds(runs[0].job.steps, runs[0].ends))
    decreases MAX_DEPTH - |ctx.current.jobStack|, 4
  {
    var job := ById(jobs, id);
    if job.None? {
      return None, [];
    }
    var succeeded, started, deadline, ends;
    succeeded, started, deadline, ends, runs := Execute(ctx, job.value);
    success := Some(succeeded);
    runs := [NestedRun(job.value, ctx.current.jobStack, started, deadline, ctx.current.deadline, ends)] + runs;
  }

  // ---- The engine ----

  /** Runs a job's steps under the context; `deadline` is the run's effective one. */
  method Execute(ctx: Context, job: Job)
    returns (success: bool, started: int, deadline: Option<int>, ends: seq<bool>, runs: seq<NestedRun>)
    requires IsGuarded(ctx.current.jobStack)
    modifies ctx
    ensures ctx.current == old(ctx.current)
    ensures IsRunDeadline(NestedRun(job, ctx.current.jobStack, started, deadline, ctx.current.deadline, ends))
    ensures AreEnds(job.steps, ends) && success == Succeeds(job.steps, ends)
    ensures IsContained(runs, ctx.current.jobStack, deadline)
    decreases MAX_DEPTH - |ctx.current.jobStack|, 3
  {
    started := *;
    deadline := RunDeadline(job.timeout, started, ctx.current.deadline);
    var savedStop := ctx.current.stop;
    var runStop: nat := *;
    ctx.current := ctx.current.(stop := runStop);
    success, ends, runs := RunSteps(ctx, job.steps, deadline);
    ctx.current := ctx.current.(stop := savedStop);
  }

  /** Each step in turn; a parallel one on a thread of its own that installs the captured context. */
  method RunSteps(ctx: Context, steps: seq<Step>, runDeadline: Option<int>)
    returns (success: bool, ends: seq<bool>, runs: seq<NestedRun>)
    requires IsGuarded(ctx.current.jobStack)
    modifies ctx
    ensures ctx.current == old(ctx.current)
    ensures IsContained(runs, ctx.current.jobStack, runDeadline)
    ensures AreEnds(steps, ends) && success == Succeeds(steps, ends)
    decreases MAX_DEPTH - |ctx.current.jobStack|, 2
  {
    success, ends, runs := true, [], [];
    var captured := ctx.current;
    var i := 0;
    while i < |steps|
      invariant i <= |steps| && ctx.current == old(ctx.current) == captured
      invariant IsContained(runs, captured.jobStack, runDeadline)
      invariant |ends| == i && forall j :: 0 <= j < i ==> ends[j] || steps[j].parallel
      invariant success <==> forall j :: 0 <= j < i ==> ends[j]
    {
      var ok, more;
      if steps[i].parallel {
        var thread := new Context(Snapshot([], 0, None));
        thread.current := captured;
        ok, more := RunStep(thread, steps[i], runDeadline);
      } else {
        ok, more := RunStep(ctx, steps[i], runDeadline);
      }
      runs := runs + more;
      ghost var before := ends;
      ends := ends + [ok];
      assert ends[i] == ok && forall j :: 0 <= j < i ==> ends[j] == before[j];
      success := success && ok;
      if !ok && !steps[i].parallel {
        return;
      }
      i := i + 1;
    }
  }

  method RunStep(ctx: Context, step: Step, runDeadline: Option<int>)
    returns (success: bool, runs: seq<NestedRun>)
    requires IsGuarded(ctx.current.jobStack)
    modifies ctx
    ensures ctx.current == old(ctx.current)
    ensures IsContained(runs, ctx.current.jobStack, runDeadline)
    ensures success && step.RunJob? ==>
              runs != [] && |runs[0].stack| == |ctx.current.jobStack| + 1 && Succeeds(runs[0].job.steps, runs[0].ends)
    ensures !step.RunJob? ==> runs == []
    decreases MAX_DEPTH - |ctx.current.jobStack|, 1
  {
    var now: int := *;
    var refused: bool := *;      // cancelled, or the circuit is open
    var deadline := StepDeadline(step.timeout, now, runDeadline);
    if refused || (deadline.Some? && now >= deadline.value) {
      return false, [];
    }
    match step
    case Other(_, _) =>
      var outcome: bool := *;
      return outcome, [];
    case RunJob(ref, _, _) =>
      var failure;
      var jobs: seq<Job>, later: seq<Job> := *, *;   // as saved when the step and the job service read them
      failure, runs := ExecuteWithControl(ctx, jobs, later, ref, deadline);
      ContainedDeeper(runs, ctx.current.jobStack, deadline, ctx.current.jobStack, runDeadline);
      success := failure.None?;
  }
}
