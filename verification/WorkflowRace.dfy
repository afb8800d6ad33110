/**
 Where confluence fails. A parallel step that refers to a later step which can overtake it
 resolves that step's output or a blank one, as the threads happen to run.
*/
module WorkflowRace {
  import opened Wrappers
  import opened Json
  import opened Placeholders
  import opened WorkflowEngine
  import opened WorkflowConfluence

  // ---- Finished runs ----

  /** An undisturbed run leads to s. */
  ghost predicate RunsTo(def: Definition, registry: Registry, events: seq<Event>, s: Run) {
    && Legal(def, events)
    && UndisturbedRun(def, registry, events)
    && After(def, events) == s
  }

  ghost predicate FinishedRun(def: Definition, registry: Registry, events: seq<Event>) {
    Legal(def, events) && UndisturbedRun(def, registry, events) && Finished(def, After(def, events))
  }

  lemma Extend(def: Definition, registry: Registry, events: seq<Event>, s: Run, e: Event)
    requires RunsTo(def, registry, events, s) && Enabled(def, s, e) && Undisturbed(def, registry, s, e)
    ensures RunsTo(def, registry, events + [e], Apply(def, s, e))
  {
    assert (events + [e])[..|events|] == events;
  }

  /** What has begun in s is the same in t. */
  ghost predicate AllStand(s: Run, t: Run) {
    && |s.phases| == |s.results| == |s.executed| == |t.phases| == |t.results| == |t.executed|
    && forall i :: 0 <= i < |s.phases| ==> Stands(s, t, i)
  }

  /** Until the run is over, some event goes on with it undisturbed. */
  lemma NextUndisturbed(def: Definition, registry: Registry, s: Run) returns (e: Event)
    requires Inv(def, s) && !Finished(def, s)
    ensures Enabled(def, s, e) && Undisturbed(def, registry, s, e)
  {
    if i :| 0 <= i < s.next && s.phases[i] != Done {
      var free := SomeStepIsFree(def, s, i);
      if s.phases[free] == Executing {
        e := Finish(free, ExecuteSingleStep(registry, def.steps[free].command, s.executed[free]));
      } else {
        e := Begin(free);
      }
    } else {
      e := Launch(s.next);
    }
  }

  /** Every undisturbed run can be gone on with to its end. */
  lemma {:induction false} Complete(def: Definition, registry: Registry, events: seq<Event>, s: Run)
    returns (more: seq<Event>)
    requires RunsTo(def, registry, events, s)
    ensures FinishedRun(def, registry, more) && AllStand(s, After(def, more))
    decreases Work(s.phases)
  {
    if Finished(def, s) {
      more := events;
    } else {
      var e := NextUndisturbed(def, registry, s);
      Extend(def, registry, events, s, e);
      StepDoesWork(def, s, e);
      var t := Apply(def, s, e);
      more := Complete(def, registry, events + [e], t);
      forall i | 0 <= i < |s.phases| ensures Stands(s, After(def, more), i) {
        ApplyStands(def, s, e, i);
        assert Stands(t, After(def, more), i);
      }
    }
  }

  /** A step that can begin now ends with the parameters it resolves now. */
  lemma BeginAndComplete(def: Definition, registry: Registry, events: seq<Event>, s: Run, i: nat)
    returns (more: seq<Event>)
    requires RunsTo(def, registry, events, s) && Enabled(def, s, Begin(i))
    ensures FinishedRun(def, registry, more)
    ensures After(def, more).executed[i] == Resolve(def.steps[i].params, s.results)
  {
    Extend(def, registry, events, s, Begin(i));
    var begun := Apply(def, s, Begin(i));
    more := Complete(def, registry, events + [Begin(i)], begun);
    assert Stands(begun, After(def, more), i);
  }

  // ---- Commands that all return one value ----

  function Constant(output: Json): WorkflowEngine.Command {
    WorkflowEngine.Command.Command(_ => None, _ => Ok(output), false, _ => None)
  }

  function Commands(def: Definition): set<string> {
    set step | step in def.steps :: step.command
  }

  function ConstantRegistry(def: Definition, output: Json): Registry {
    map c | c in Commands(def) :: Constant(output)
  }

  lemma ConstantOutcome(def: Definition, output: Json, i: nat, params: Json)
    requires i < |def.steps| && !ReportsFailure(output)
    ensures ExecuteSingleStep(ConstantRegistry(def, output), def.steps[i].command, params) ==
            Outcome(true, "", output, NoFailure)
  {
    assert def.steps[i].command in ConstantRegistry(def, output);
  }

  /** The steps that are through have succeeded with that value. */
  ghost predicate Constantly(def: Definition, output: Json, s: Run)
    requires Sized(def, s)
  {
    && !s.stopped
    && forall j :: 0 <= j < |s.phases| && s.phases[j] == Done ==> s.results[j].success && s.results[j].output == output
  }

  /** An undisturbed run in which every command returns that value. */
  ghost predicate ConstantRun(def: Definition, output: Json, events: seq<Event>, s: Run) {
    && !ReportsFailure(output)
    && RunsTo(def, ConstantRegistry(def, output), events, s)
    && Constantly(def, output, s)
  }

  lemma LaunchNext(def: Definition, output: Json, events: seq<Event>, s: Run) returns (more: seq<Event>, t: Run)
    requires ConstantRun(def, output, events, s) && s.next < |def.steps| && LoopFree(def, s)
    ensures ConstantRun(def, output, more, t)
    ensures t.next == s.next + 1 && t.phases == s.phases[s.next := Launched]
  {
    Extend(def, ConstantRegistry(def, output), events, s, Launch(s.next));
    more, t := events + [Launch(s.next)], Apply(def, s, Launch(s.next));
  }

  lemma BeginNext(def: Definition, output: Json, events: seq<Event>, s: Run, i: nat)
    returns (more: seq<Event>, t: Run)
    requires ConstantRun(def, output, events, s) && Enabled(def, s, Begin(i))
    ensures ConstantRun(def, output, more, t)
    ensures t.next == s.next && t.phases == s.phases[i := Executing]
  {
    Extend(def, ConstantRegistry(def, output), events, s, Begin(i));
    more, t := events + [Begin(i)], Apply(def, s, Begin(i));
  }

  lemma RecordKeepsConstantly(def: Definition, output: Json, s: Run, i: nat)
    requires Sized(def, s) && Constantly(def, output, s) && i < |def.steps|
    ensures Constantly(def, output, Recorded(def, s, i, Outcome(true, "", output, NoFailure)))
  {
  }

  lemma FinishNext(def: Definition, output: Json, events: seq<Event>, s: Run, i: nat)
    returns (more: seq<Event>, t: Run)
    requires ConstantRun(def, output, events, s) && i < |def.steps| && s.phases[i] == Executing
    ensures ConstantRun(def, output, more, t)
    ensures t.next == s.next && t.phases == s.phases[i := Done]
  {
    var e := Finish(i, Outcome(true, "", output, NoFailure));
    ConstantOutcome(def, output, i, s.executed[i]);
    Extend(def, ConstantRegistry(def, output), events, s, e);
    RecordKeepsConstantly(def, output, s, i);
    more, t := events + [e], Apply(def, s, e);
  }

  lemma LastUpdate(phases: seq<Phase>, i: nat, p: Phase, q: Phase)
    requires i < |phases|
    ensures phases[i := p][i := q] == phases[i := q]
  {
  }

  /** The thread of a launched step that waits for nothing runs through. */
  lemma RunThrough(def: Definition, output: Json, events: seq<Event>, s: Run, i: nat)
    returns (more: seq<Event>, t: Run)
    requires ConstantRun(def, output, events, s) && Enabled(def, s, Begin(i))
    ensures ConstantRun(def, output, more, t)
    ensures t.next == s.next && t.phases == s.phases[i := Done]
  {
    more, t := BeginNext(def, output, events, s, i);
    more, t := FinishNext(def, output, more, t, i);
    LastUpdate(s.phases, i, Executing, Done);
  }

  /** Before step i is launched, all earlier steps are through. */
  lemma {:induction false} RunBefore(def: Definition, output: Json, i: nat) returns (events: seq<Event>, s: Run)
    requires i <= |def.steps| && !ReportsFailure(output)
    ensures ConstantRun(def, output, events, s) && s.next == i
    ensures forall j :: 0 <= j < i ==> s.phases[j] == Done
  {
    if i == 0 {
      events, s := [], Start(|def.steps|);
    } else {
      events, s := RunBefore(def, output, i - 1);
      events, s := LaunchNext(def, output, events, s);
      events, s := RunThrough(def, output, events, s, i - 1);
    }
  }

  /** Step i has been launched and has not begun; the others that do not depend on it
      are through. */
  ghost predicate LeftBehind(def: Definition, s: Run, i: nat)
    requires Sized(def, s)
  {
    && i < s.next && s.phases[i] == Launched
    && forall j :: 0 <= j < s.next && j != i && !DependsOn(def.steps, j, i) ==> s.phases[j] == Done
  }

  lemma NoneBefore(steps: seq<Step>, j: nat, i: nat)
    requires j < |steps| && DependsOn(steps, j, i)
    ensures i < j
    decreases j
  {
  }

  /** What does not depend on step i runs past it. */
  lemma {:induction false} RunPast(def: Definition, output: Json, i: nat, m: nat)
    returns (events: seq<Event>, s: Run)
    requires i < m <= |def.steps| && def.steps[i].parallel && !ReportsFailure(output)
    requires forall j :: i < j < m - 1 && !def.steps[j].parallel ==> !DependsOn(def.steps, j, i)
    ensures ConstantRun(def, output, events, s) && s.next == m && LeftBehind(def, s, i)
  {
    if m == i + 1 {
      events, s := RunBefore(def, output, i);
      events, s := LaunchNext(def, output, events, s);
    } else {
      events, s := RunPast(def, output, i, m - 1);
      events, s := OneMorePast(def, output, i, events, s);
    }
  }

  lemma LoopIsFree(def: Definition, s: Run, i: nat)
    requires Sized(def, s) && LeftBehind(def, s, i) && def.steps[i].parallel
    requires forall j :: i < j < s.next && !def.steps[j].parallel ==> !DependsOn(def.steps, j, i)
    ensures LoopFree(def, s)
  {
    forall j | 0 <= j < s.next && !def.steps[j].parallel ensures s.phases[j] == Done {
      if DependsOn(def.steps, j, i) { NoneBefore(def.steps, j, i); }
    }
  }

  lemma LaunchPast(def: Definition, output: Json, i: nat, events: seq<Event>, s: Run)
    returns (more: seq<Event>, t: Run)
    requires ConstantRun(def, output, events, s) && LeftBehind(def, s, i) && def.steps[i].parallel
    requires s.next < |def.steps|
    requires forall j :: i < j < s.next && !def.steps[j].parallel ==> !DependsOn(def.steps, j, i)
    ensures ConstantRun(def, output, more, t)
    ensures t.next == s.next + 1 && t.phases == s.phases[s.next := Launched]
  {
    LoopIsFree(def, s, i);
    more, t := LaunchNext(def, output, events, s);
  }

  /** Launched past step i, a step that does not depend on it runs through. */
  lemma ThreadPast(def: Definition, output: Json, i: nat, events: seq<Event>, s: Run, before: Run)
    returns (more: seq<Event>, t: Run)
    requires ConstantRun(def, output, events, s) && Sized(def, before) && LeftBehind(def, before, i)
    requires before.next < |def.steps| && s.next == before.next + 1
    requires s.phases == before.phases[before.next := Launched]
    requires !DependsOn(def.steps, before.next, i)
    ensures ConstantRun(def, output, more, t)
    ensures t.next == s.next && t.phases == before.phases[before.next := Done]
  {
    IsUnblocked(def, before, s, i, before.next);
    more, t := RunThrough(def, output, events, s, before.next);
  }

  lemma ThreadPastOrNot(def: Definition, output: Json, i: nat, events: seq<Event>, s: Run, before: Run)
    returns (more: seq<Event>, t: Run)
    requires ConstantRun(def, output, events, s) && Sized(def, before) && LeftBehind(def, before, i)
    requires before.next < |def.steps| && s.next == before.next + 1
    requires s.phases == before.phases[before.next := Launched]
    ensures ConstantRun(def, output, more, t) && LeftBehind(def, t, i) && t.next == s.next
  {
    more, t := events, s;
    if !DependsOn(def.steps, before.next, i) {
      more, t := ThreadPast(def, output, i, events, s, before);
    }
    StillBehind(def, before, t, i);
  }

  lemma OneMorePast(def: Definition, output: Json, i: nat, events: seq<Event>, s: Run)
    returns (more: seq<Event>, t: Run)
    requires ConstantRun(def, output, events, s) && LeftBehind(def, s, i) && def.steps[i].parallel
    requires s.next < |def.steps|
    requires forall j :: i < j < s.next && !def.steps[j].parallel ==> !DependsOn(def.steps, j, i)
    ensures ConstantRun(def, output, more, t) && t.next == s.next + 1 && LeftBehind(def, t, i)
  {
    more, t := LaunchPast(def, output, i, events, s);
    more, t := ThreadPastOrNot(def, output, i, more, t, s);
  }

  lemma StillBehind(def: Definition, s: Run, t: Run, i: nat)
    requires Sized(def, s) && Sized(def, t) && LeftBehind(def, s, i) && s.next < |def.steps| && t.next == s.next + 1
    requires forall j :: 0 <= j < s.next ==> t.phases[j] == s.phases[j]
    requires !DependsOn(def.steps, s.next, i) ==> t.phases[s.next] == Done
    ensures LeftBehind(def, t, i)
  {
  }

  lemma IsUnblocked(def: Definition, s: Run, t: Run, i: nat, k: nat)
    requires Sized(def, s) && Sized(def, t) && LeftBehind(def, s, i) && k == s.next < |def.steps|
    requires t.phases == s.phases[k := Launched] && !DependsOn(def.steps, k, i)
    ensures Unblocked(def, t, k)
  {
    forall d | d in Dependencies(def.steps, k) ensures t.phases[d] == Done {
      assert d != i && !DependsOn(def.steps, d, i);
    }
  }

  // ---- A value that shows ----

  /** A value that has "x" at the end of the path. */
  function Nest(path: string, start: nat): Json
    decreases |path| - start
  {
    if start >= |path| then Str("x")
    else
      var next := FindDot(path, start);
      Obj(map[path[start..next] := Nest(path, next + 1)])
  }

  function OutputFor(path: string): Json {
    if path == "" then Str("x") else Nest(path, 1)
  }

  lemma {:induction false} NestLeads(path: string, start: nat)
    ensures NavigateFrom(Nest(path, start), path, start) == Str("x")
    ensures !ReportsFailure(Nest(path, start))
    decreases |path| - start
  {
    if start < |path| {
      NestLeads(path, FindDot(path, start) + 1);
    }
  }

  lemma OutputShows(path: string)
    ensures Navigate(OutputFor(path), path) == Str("x") && !ReportsFailure(OutputFor(path))
  {
    NestLeads(path, 1);
  }

  // ---- Where a reference stands ----

  ghost predicate OccursFrom(s: string, i: nat, r: Reference, path: string)
    requires i <= |s|
    decreases |s| - i
  {
    i < |s| &&
    match MatchAt(s, i)
    case Some(m) => (m.source == Some(r) && m.path == path) || OccursFrom(s, m.end, r, path)
    case None => OccursFrom(s, i + 1, r, path)
  }

  /** The parameters have a placeholder with this reference and this path. */
  ghost predicate Occurs(input: Json, r: Reference, path: string)
    decreases input
  {
    match input
    case Str(s) => OccursFrom(s, 0, r, path)
    case Obj(fields) => exists k :: k in fields && Occurs(fields[k], r, path)
    case Arr(elems) => exists e :: e in elems && Occurs(e, r, path)
    case _ => false
  }

  predicate HasName(r: Reference) {
    r.Named? ==> r.name != ""
  }

  lemma {:induction false} FindInString(s: string, i: nat, r: Reference) returns (path: string)
    requires i <= |s| && r in StringReferences(s, i)
    ensures OccursFrom(s, i, r, path) && HasName(r)
    decreases |s| - i
  {
    match MatchAt(s, i)
    case Some(m) =>
      if m.source == Some(r) {
        path := m.path;
      } else {
        path := FindInString(s, m.end, r);
      }
    case None =>
      path := FindInString(s, i + 1, r);
  }

  lemma {:induction false} FindOccurrence(input: Json, r: Reference) returns (path: string)
    requires r in References(input)
    ensures Occurs(input, r, path) && HasName(r)
    decreases input
  {
    match input
    case Str(s) => path := FindInString(s, 0, r);
    case Obj(fields) =>
      var k :| k in fields && r in References(fields[k]);
      path := FindOccurrence(fields[k], r);
    case Arr(elems) =>
      var e :| e in elems && r in References(e);
      path := FindOccurrence(e, r);
  }

  // ---- More results, longer texts ----

  /** Nothing a placeholder could show. */
  predicate IsBlank(v: Option<Json>) {
    v.None? || v.value == Null
  }

  /** What the references find in a, they find in b. */
  ghost predicate Fuller(refs: set<Reference>, a: seq<StepResult>, b: seq<StepResult>) {
    forall r :: r in refs ==> IsBlank(Lookup(a, r)) || Lookup(a, r) == Lookup(b, r)
  }

  lemma {:induction false} Grows(s: string, i: nat, a: seq<StepResult>, b: seq<StepResult>)
    requires i <= |s| && Fuller(StringReferences(s, i), a, b)
    ensures |ResolveFrom(s, i, a)| <= |ResolveFrom(s, i, b)|
    decreases |s| - i
  {
    if i < |s| {
      match MatchAt(s, i)
      case Some(m) => Grows(s, m.end, a, b);
      case None => Grows(s, i + 1, a, b);
    }
  }

  /** A placeholder that shows something in b and nothing in a makes the text longer. */
  lemma {:induction false} GrowsLonger(
    s: string, i: nat, r: Reference, path: string, a: seq<StepResult>, b: seq<StepResult>)
    requires i <= |s| && Fuller(StringReferences(s, i), a, b) && OccursFrom(s, i, r, path)
    requires IsBlank(Lookup(a, r)) && Lookup(b, r) == Some(OutputFor(path))
    ensures |ResolveFrom(s, i, a)| < |ResolveFrom(s, i, b)|
    decreases |s| - i
  {
    match MatchAt(s, i)
    case Some(m) =>
      Grows(s, m.end, a, b);
      if m.source == Some(r) && m.path == path {
        OutputShows(path);
      } else {
        GrowsLonger(s, m.end, r, path, a, b);
      }
    case None => GrowsLonger(s, i + 1, r, path, a, b);
  }

  lemma {:induction false} ResolvesDifferently(
    input: Json, r: Reference, path: string, a: seq<StepResult>, b: seq<StepResult>)
    requires Fuller(References(input), a, b) && Occurs(input, r, path)
    requires IsBlank(Lookup(a, r)) && Lookup(b, r) == Some(OutputFor(path))
    ensures Resolve(input, a) != Resolve(input, b)
    decreases input
  {
    match input
    case Str(s) => GrowsLonger(s, 0, r, path, a, b);
    case Obj(fields) =>
      var k :| k in fields && Occurs(fields[k], r, path);
      ResolvesDifferently(fields[k], r, path, a, b);
      assert Resolve(input, a).fields[k] != Resolve(input, b).fields[k];
    case Arr(elems) =>
      var e :| e in elems && Occurs(e, r, path);
      ResolvesDifferently(e, r, path, a, b);
      var j :| 0 <= j < |elems| && elems[j] == e;
      assert Resolve(input, a).elems[j] != Resolve(input, b).elems[j];
  }

  // ---- What a step finds in the two runs ----

  /** A named result is found exactly if there is one. */
  lemma {:induction false} FoundByName(results: seq<StepResult>, name: string, output: Json)
    requires name != ""
    requires forall j :: 0 <= j < |results| && results[j].name == name ==> results[j].output == output
    ensures LatestNamed(results, name) ==
            if exists j :: 0 <= j < |results| && results[j].name == name then Some(output) else None
  {
    if results != [] {
      var n := |results| - 1;
      FoundByName(results[..n], name, output);
      assert results[n].name != name ==>
          forall j :: 0 <= j < |results| && results[j].name == name ==> results[..n][j].name == name;
    }
  }

  ghost predicate HasResult(results: seq<StepResult>, name: string) {
    exists j :: 0 <= j < |results| && results[j].name == name
  }

  /** With constant outputs a name finds the output, if a step of that name is through. */
  lemma ConstantlyNamed(def: Definition, output: Json, s: Run, name: string)
    requires Inv(def, s) && Constantly(def, output, s) && name != ""
    ensures LatestNamed(s.results, name) == if HasResult(s.results, name) then Some(output) else None
  {
    FoundByName(s.results, name, output);
  }

  lemma DoneIsDone(s: Run, t: Run, j: nat, def: Definition)
    requires Inv(def, s) && Inv(def, t) && j < |def.steps| && (s.phases[j] == Done ==> t.phases[j] == Done)
    ensures s.results[j].name != "" ==> t.results[j].name == s.results[j].name
  {
  }

  /** Where more steps are through, more is found. */
  lemma MoreIsFound(def: Definition, output: Json, s: Run, t: Run, refs: set<Reference>)
    requires Inv(def, s) && Inv(def, t) && Constantly(def, output, s) && Constantly(def, output, t)
    requires forall j :: 0 <= j < |def.steps| && s.phases[j] == Done ==> t.phases[j] == Done
    requires forall r :: r in refs ==> HasName(r)
    ensures Fuller(refs, s.results, t.results)
  {
    forall r | r in refs ensures IsBlank(Lookup(s.results, r)) || Lookup(s.results, r) == Lookup(t.results, r) {
      match r
      case Position(n) =>
      case Named(name) =>
        ConstantlyNamed(def, output, s, name);
        ConstantlyNamed(def, output, t, name);
        if j :| 0 <= j < |s.results| && s.results[j].name == name {
          DoneIsDone(s, t, j, def);
        }
    }
  }

  /** A reference bound to no earlier step finds nothing before a later one is through. */
  lemma FindsNothing(def: Definition, output: Json, s: Run, i: nat, r: Reference)
    requires Inv(def, s) && Constantly(def, output, s) && i < |def.steps| && HasName(r)
    requires BoundStep(def.steps, i, r).None? && forall j :: i <= j < |def.steps| ==> s.phases[j] != Done
    ensures IsBlank(Lookup(s.results, r))
  {
    match r
    case Position(n) =>
    case Named(name) =>
      ConstantlyNamed(def, output, s, name);
      forall j | 0 <= j < |s.results| ensures s.results[j].name != name {
        assert s.phases[j] == Done ==> j < i && s.results[j].name == StepName(def.steps[j]);
      }
  }

  /** The later step a reference reaches. */
  ghost predicate Reaches(steps: seq<Step>, i: nat, r: Reference, k: nat) {
    && Overtakes(steps, i, k)
    && (r == Position(k + 1) || (r.Named? && steps[k].name == Some(r.name)))
  }

  lemma ReachedStep(steps: seq<Step>, i: nat, r: Reference) returns (k: nat)
    requires ReachesLater(steps, i, r)
    ensures Reaches(steps, i, r, k)
  {
    match r
    case Position(n) => k := n - 1;
    case Named(name) => k :| Overtakes(steps, i, k) && steps[k].name == Some(name);
  }

  lemma FindsOutput(def: Definition, output: Json, s: Run, i: nat, r: Reference, k: nat)
    requires Inv(def, s) && Constantly(def, output, s) && HasName(r)
    requires Reaches(def.steps, i, r, k) && s.phases[k] == Done
    ensures Lookup(s.results, r) == Some(output)
  {
    if r.Named? {
      ConstantlyNamed(def, output, s, r.name);
      assert s.results[k].name == r.name;
    }
  }

  // ---- The race ----

  /**
   A parallel step with a reference that no earlier step answers and a later one, free to
   overtake it, does: some commands and two undisturbed runs to the end leave it with
   different parameters.
  */
  lemma Races(def: Definition, i: nat, r: Reference) returns (registry: Registry, a: seq<Event>, b: seq<Event>)
    requires i < |def.steps| && def.steps[i].parallel && r in References(def.steps[i].params)
    requires BoundStep(def.steps, i, r).None? && ReachesLater(def.steps, i, r)
    ensures FinishedRun(def, registry, a) && FinishedRun(def, registry, b)
    ensures After(def, a).executed[i] != After(def, b).executed[i]
  {
    var k := ReachedStep(def.steps, i, r);
    var path := FindOccurrence(def.steps[i].params, r);
    var output := OutputFor(path);
    OutputShows(path);
    registry := ConstantRegistry(def, output);
    var s, t;
    a, s := RunPast(def, output, i, i + 1);
    b, t := RunPast(def, output, i, k + 1);
    BothCanBegin(def, s, t, i, k);
    FindsDifferent(def, output, s, t, i, r, k, path);
    a := BeginAndComplete(def, registry, a, s, i);
    b := BeginAndComplete(def, registry, b, t, i);
  }

  lemma BothCanBegin(def: Definition, s: Run, t: Run, i: nat, k: nat)
    requires Inv(def, s) && Inv(def, t) && LeftBehind(def, s, i) && LeftBehind(def, t, i)
    requires s.next == i + 1 && t.next == k + 1 && Overtakes(def.steps, i, k)
    ensures Enabled(def, s, Begin(i)) && Enabled(def, t, Begin(i))
    ensures t.phases[k] == Done
    ensures forall j :: 0 <= j < |def.steps| && s.phases[j] == Done ==> j < i && t.phases[j] == Done
  {
    forall j | 0 <= j < i ensures !DependsOn(def.steps, j, i) {
      if DependsOn(def.steps, j, i) { NoneBefore(def.steps, j, i); }
    }
  }

  lemma FindsDifferent(def: Definition, output: Json, s: Run, t: Run, i: nat, r: Reference, k: nat, path: string)
    requires Inv(def, s) && Inv(def, t) && Constantly(def, output, s) && Constantly(def, output, t)
    requires forall j :: 0 <= j < |def.steps| && s.phases[j] == Done ==> j < i && t.phases[j] == Done
    requires Reaches(def.steps, i, r, k) && t.phases[k] == Done && output == OutputFor(path)
    requires i < |def.steps| && BoundStep(def.steps, i, r).None? && Occurs(def.steps[i].params, r, path)
    requires r in References(def.steps[i].params)
    ensures Resolve(def.steps[i].params, s.results) != Resolve(def.steps[i].params, t.results)
  {
    var params := def.steps[i].params;
    forall r' | r' in References(params) ensures HasName(r') {
      var _ := FindOccurrence(params, r');
    }
    MoreIsFound(def, output, s, t, References(params));
    FindsNothing(def, output, s, i, r);
    FindsOutput(def, output, t, i, r, k);
    ResolvesDifferently(params, r, path, s.results, t.results);
  }

  // ---- Exactly when the schedule does not matter ----

  /** Whatever the commands compute, all undisturbed runs to the end leave the same
      parameters and the same result. */
  ghost predicate ScheduleIndependent(def: Definition) {
    forall registry: Registry, a: seq<Event>, b: seq<Event> ::
      FinishedRun(def, registry, a) && FinishedRun(def, registry, b) ==>
        && After(def, a).executed == After(def, b).executed
        && ResultOf(After(def, a).results) == ResultOf(After(def, b).results)
  }

  /** With distinct names, the schedule does not matter if and only if no parallel step
      refers to a later step that can overtake it. */
  lemma RaceFreeExactly(def: Definition)
    requires DistinctNames(def)
    ensures ScheduleIndependent(def) <==> RaceFree(def)
  {
    if RaceFree(def) {
      forall registry: Registry, a, b | FinishedRun(def, registry, a) && FinishedRun(def, registry, b)
        ensures After(def, a).executed == After(def, b).executed
        ensures ResultOf(After(def, a).results) == ResultOf(After(def, b).results)
      {
        Confluence(def, registry, a);
        Confluence(def, registry, b);
      }
    } else {
      var i, r :| 0 <= i < |def.steps| && def.steps[i].parallel && r in References(def.steps[i].params) &&
                  ReachesLater(def.steps, i, r);
      var registry, a, b := Races(def, i, r);
    }
  }

  // ---- Definitions that race, and one that does not ----

  function PositionText(digit: char): string {
    "{{step" + [digit] + ".output}}"
  }

  const NAME_TEXT := "{{steps.b.output}}"

  lemma PositionMatches(digit: char)
    requires '1' <= digit <= '9'
    ensures MatchAt(PositionText(digit), 0) == Some(Match(16, Some(Position(digit as int - '0' as int)), ""))
  {
    var s := PositionText(digit);
    assert s[0..6] == "{{step";
    assert SkipDigits(s, 7) == 7;
    assert s[6..7] == [digit];
    assert DigitsValue([digit]) == digit as int - '0' as int by { assert [digit][..0] == ""; }
    assert s[7..14] == ".output";
    assert SkipPath(s, 14) == 14;
    assert s[14..16] == "}}";
    assert s[14..14] == "";
  }

  lemma NameMatches()
    ensures MatchAt(NAME_TEXT, 0) == Some(Match(18, Some(Named("b")), ""))
  {
    var s := NAME_TEXT;
    assert s[0..6] == "{{step" && s[6..8] == "s.";
    assert SkipWord(s, 9) == 9;
    assert s[8..9] == "b";
    assert s[9..16] == ".output";
    assert SkipPath(s, 16) == 16;
    assert s[16..18] == "}}";
    assert s[16..16] == "";
  }

  /** The placeholders refer to what they say, and plain text to nothing. */
  lemma PositionReferences(digit: char)
    requires '1' <= digit <= '9'
    ensures References(Str(PositionText(digit))) == {Position(digit as int - '0' as int)}
  {
    PositionMatches(digit);
    assert |PositionText(digit)| == 16;
    assert StringReferences(PositionText(digit), 16) == {};
  }

  lemma NameReferences()
    ensures References(Str(NAME_TEXT)) == {Named("b")}
  {
    NameMatches();
    assert StringReferences(NAME_TEXT, 18) == {};
  }

  lemma NoReferences()
    ensures References(Str("x")) == {}
  {
    assert MatchAt("x", 0) == None;
    assert StringReferences("x", 1) == {};
  }

  function Parallel(text: string, name: Option<string>): Step {
    Step("c", Str(text), true, name)
  }

  /** The first step refers to the second, by position or by name. */
  const BY_POSITION := Definition([Parallel(PositionText('2'), None), Parallel("x", None)], NoRollback)
  const BY_NAME := Definition([Parallel(NAME_TEXT, None), Parallel("x", Some("b"))], NoRollback)

  /** The first step refers to the third, but the second is sequential and waits for the first. */
  const HELD := Definition(
    [Parallel(PositionText('3'), None), Step("c", Str(PositionText('1')), false, None), Parallel("x", None)],
    NoRollback)

  lemma SecondOvertakes(first: Step, second: Step)
    requires References(second.params) == {}
    ensures Overtakes([first, second], 0, 1)
  {
    assert Dependencies([first, second], 1) == {};
  }

  lemma NotRaceFree(def: Definition, r: Reference)
    requires |def.steps| > 0 && def.steps[0].parallel && r in References(def.steps[0].params)
    requires DistinctNames(def) && ReachesLater(def.steps, 0, r)
    ensures !ScheduleIndependent(def)
  {
    RaceFreeExactly(def);
  }

  /** Both forward references race. */
  lemma ForwardReferenceRaces()
    ensures !ScheduleIndependent(BY_POSITION) && !ScheduleIndependent(BY_NAME)
  {
    NoReferences();
    PositionReferences('2');
    SecondOvertakes(BY_POSITION.steps[0], BY_POSITION.steps[1]);
    NotRaceFree(BY_POSITION, Position(2));
    NameReferences();
    SecondOvertakes(BY_NAME.steps[0], BY_NAME.steps[1]);
    NotRaceFree(BY_NAME, Named("b"));
  }

  /** A forward reference to a step that is held back does not. */
  lemma HeldBackReferenceDoesNotRace()
    ensures Position(3) in References(HELD.steps[0].params) && ScheduleIndependent(HELD)
  {
    NoReferences();
    PositionReferences('3');
    ThirdIsHeldBack();
    assert RaceFree(HELD);
    RaceFreeExactly(HELD);
  }

  lemma ThirdIsHeldBack()
    ensures HeldBack(HELD.steps, 0, 2)
  {
    PositionReferences('1');
    assert BoundStep(HELD.steps, 1, Position(1)) == Some(0);
    assert 0 in Dependencies(HELD.steps, 1);
    assert DependsOn(HELD.steps, 1, 0);
  }
}
