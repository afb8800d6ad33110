/**
 Placeholders in step parameters: {{stepN.output.a.b}} and
 {{steps.<name>.output.a.b}}. Resolving a parameter reads the results of the
 steps its placeholders name, and nothing else.
*/
module Placeholders {
  import opened Wrappers
  import opened Json

  // ---- Step results ----

  datatype StepFailure = NoFailure | Command | Validation | NotFound | Timeout | Cancelled | CircuitOpen

  datatype RollbackStatus = RolledBack | Failed | Skipped | NotSupported

  datatype StepRollback = StepRollback(status: RollbackStatus, message: string)

  datatype StepResult = StepResult(
    success: bool,
    error: string,
    output: Json,
    command: string,
    name: string,
    index: int,
    failure: StepFailure,
    rollback: Option<StepRollback>)

  /** The result of a step that has not run. */
  const BLANK := StepResult(false, "", Null, "", "", -1, NoFailure, None)

  // ---- The placeholder pattern ----

  predicate IsDigit(c: char) {
    '0' <= c <= '9'
  }

  predicate IsNameStart(c: char) {
    'a' <= c <= 'z' || 'A' <= c <= 'Z' || c == '_'
  }

  predicate IsWord(c: char) {
    IsNameStart(c) || IsDigit(c)
  }

  predicate StartsAt(s: string, i: nat, prefix: string) {
    i + |prefix| <= |s| && s[i..i + |prefix|] == prefix
  }

  function SkipDigits(s: string, i: nat): (j: nat)
    requires i <= |s|
    ensures i <= j <= |s|
    decreases |s| - i
  {
    if i < |s| && IsDigit(s[i]) then SkipDigits(s, i + 1) else i
  }

  function SkipWord(s: string, i: nat): (j: nat)
    requires i <= |s|
    ensures i <= j <= |s|
    decreases |s| - i
  {
    if i < |s| && IsWord(s[i]) then SkipWord(s, i + 1) else i
  }

  /** The field path: any number of '.' and a word. */
  function SkipPath(s: string, i: nat): (j: nat)
    requires i <= |s|
    ensures i <= j <= |s|
    decreases |s| - i
  {
    if i + 1 < |s| && s[i] == '.' && IsWord(s[i + 1]) then SkipPath(s, SkipWord(s, i + 1)) else i
  }

  /** What a placeholder names: a 1-based position, or a step name. */
  datatype Reference = Position(n: nat) | Named(name: string)

  datatype Match = Match(end: nat, source: Option<Reference>, path: string)

  function DigitsValue(digits: string): nat
    requires forall i :: 0 <= i < |digits| ==> IsDigit(digits[i])
  {
    if digits == "" then 0
    else
      assert IsDigit(digits[|digits| - 1]);
      DigitsValue(digits[..|digits| - 1]) * 10 + (digits[|digits| - 1] as int - '0' as int)
  }

  /** None for 0 and for a number that does not fit 64 bits. */
  function ParsePosition(digits: string): Option<Reference>
    requires forall i :: 0 <= i < |digits| ==> IsDigit(digits[i])
  {
    var n := DigitsValue(digits);
    if n == 0 || n >= 0x1_0000_0000_0000_0000 then None else Some(Position(n))
  }

  lemma {:induction false} SkippedDigits(s: string, i: nat)
    requires i <= |s|
    ensures forall k :: i <= k < SkipDigits(s, i) ==> IsDigit(s[k])
    decreases |s| - i
  {
    if i < |s| && IsDigit(s[i]) {
      SkippedDigits(s, i + 1);
    }
  }

  /** The text after the step's part: ".output", the field path, "}}". */
  function MatchOutput(s: string, i: nat, source: Option<Reference>): (m: Option<Match>)
    requires i <= |s|
    ensures m.Some? ==> i < m.value.end <= |s| && m.value.source == source
  {
    if !StartsAt(s, i, ".output") then None
    else
      var e := SkipPath(s, i + 7);
      if StartsAt(s, e, "}}") then Some(Match(e + 2, source, s[i + 7..e])) else None
  }

  /** The placeholder that starts at i, if one does. */
  function MatchAt(s: string, i: nat): (m: Option<Match>)
    requires i <= |s|
    ensures m.Some? ==> i < m.value.end <= |s|
  {
    if !StartsAt(s, i, "{{step") then None
    else
      var j := i + 6;
      if j < |s| && IsDigit(s[j]) then
        var k := SkipDigits(s, j);
        SkippedDigits(s, j);
        MatchOutput(s, k, ParsePosition(s[j..k]))
      else if StartsAt(s, j, "s.") && j + 2 < |s| && IsNameStart(s[j + 2]) then
        var k := SkipWord(s, j + 3);
        MatchOutput(s, k, Some(Named(s[j + 2..k])))
      else None
  }

  // ---- Looking up and printing ----

  function Positional(results: seq<StepResult>, n: nat): Option<Json> {
    if 1 <= n <= |results| then Some(results[n - 1].output) else None
  }

  /** The most recent result with this name. */
  function LatestNamed(results: seq<StepResult>, name: string): Option<Json> {
    if results == [] then None
    else
      var last := results[|results| - 1];
      if last.name != "" && last.name == name then Some(last.output)
      else LatestNamed(results[..|results| - 1], name)
  }

  function Lookup(results: seq<StepResult>, r: Reference): Option<Json> {
    match r
    case Position(n) => Positional(results, n)
    case Named(name) => LatestNamed(results, name)
  }

  function FindDot(s: string, i: nat): (j: nat)
    requires i <= |s|
    ensures i <= j <= |s|
    decreases |s| - i
  {
    if i < |s| && s[i] != '.' then FindDot(s, i + 1) else i
  }

  /** Follows the keys of a path from position `start`; Null where a key is absent. */
  function NavigateFrom(current: Json, path: string, start: nat): Json
    decreases |path| - start
  {
    if start >= |path| then current
    else
      var next := FindDot(path, start);
      var key := path[start..next];
      if current.Obj? && key in current.fields then
        NavigateFrom(current.fields[key], path, next + 1)
      else Null
  }

  /** A path is empty or starts with a dot. */
  function Navigate(output: Json, path: string): Json {
    if path == "" then output else NavigateFrom(output, path, 1)
  }

  function ValueText(v: Json): string {
    match v
    case Null => ""
    case Str(s) => s
    case Int(n) => IntText(ToLongLong(n))
    case Float(text) => text
    case Bool(b) => if b then "true" else "false"
    case _ => "<non-scalar>"
  }

  /** What a placeholder is replaced by. */
  function Substitute(m: Match, results: seq<StepResult>): string {
    if m.source.None? then ""
    else
      match Lookup(results, m.source.value)
      case None => ""
      case Some(output) => ValueText(Navigate(output, m.path))
  }

  // ---- Resolving ----

  /** One pass from position i: placeholders replaced, everything else kept. */
  function ResolveFrom(s: string, i: nat, results: seq<StepResult>): string
    requires i <= |s|
    decreases |s| - i
  {
    if i == |s| then ""
    else
      match MatchAt(s, i)
      case Some(m) => Substitute(m, results) + ResolveFrom(s, m.end, results)
      case None => [s[i]] + ResolveFrom(s, i + 1, results)
  }

  function Resolve(input: Json, results: seq<StepResult>): Json
    decreases input
  {
    match input
    case Str(s) => Str(ResolveFrom(s, 0, results))
    case Obj(fields) => Obj(map k | k in fields :: Resolve(fields[k], results))
    case Arr(elems) => Arr(seq(|elems|, i requires 0 <= i < |elems| => Resolve(elems[i], results)))
    case _ => input
  }

  /** The references of a string, in order. */
  function StringReferences(s: string, i: nat): set<Reference>
    requires i <= |s|
    decreases |s| - i
  {
    if i == |s| then {}
    else
      match MatchAt(s, i)
      case Some(m) => (if m.source.Some? then {m.source.value} else {}) + StringReferences(s, m.end)
      case None => StringReferences(s, i + 1)
  }

  function References(input: Json): set<Reference>
    decreases input
  {
    match input
    case Str(s) => StringReferences(s, 0)
    case Obj(fields) => set k, r | k in fields && r in References(fields[k]) :: r
    case Arr(elems) => set e, r | e in elems && r in References(e) :: r
    case _ => {}
  }

  // ---- The string pass as the source makes it ----

  datatype Found = Found(at: nat, m: Match)

  /** The leftmost placeholder at or after i. */
  function FindMatch(s: string, i: nat): (f: Option<Found>)
    requires i <= |s|
    ensures f.Some? ==> i <= f.value.at < f.value.m.end <= |s| && MatchAt(s, f.value.at) == Some(f.value.m)
    decreases |s| - i
  {
    if i == |s| then None
    else
      match MatchAt(s, i)
      case Some(m) => Some(Found(i, m))
      case None => FindMatch(s, i + 1)
  }

  /** Up to the next placeholder the text is copied. */
  lemma {:induction false} CopyUpTo(s: string, i: nat, results: seq<StepResult>)
    requires i <= |s|
    ensures var at := if FindMatch(s, i).Some? then FindMatch(s, i).value.at else |s|;
            ResolveFrom(s, i, results) == s[i..at] + ResolveFrom(s, at, results)
    decreases |s| - i
  {
    if i < |s| && MatchAt(s, i).None? {
      var f := FindMatch(s, i);
      var at := if f.Some? then f.value.at else |s|;
      var rest := ResolveFrom(s, at, results);
      CopyUpTo(s, i + 1, results);
      Peel(s, i, at, rest);
    }
  }

  lemma Peel(s: string, i: nat, at: nat, rest: string)
    requires i < at <= |s|
    ensures [s[i]] + (s[i + 1..at] + rest) == s[i..at] + rest
  {
    assert s[i..at] == [s[i]] + s[i + 1..at];
  }

  lemma Regroup(a: string, b: string, c: string, d: string)
    ensures a + (b + (c + d)) == a + b + c + d
  {
  }

  method ResolveString(input: string, results: seq<StepResult>) returns (result: string)
    ensures result == ResolveFrom(input, 0, results)
  {
    result := "";
    var copiedUpTo := 0;
    var it := FindMatch(input, 0);
    ghost var whole := ResolveFrom(input, 0, results);
    while it.Some?
      invariant copiedUpTo <= |input| && it == FindMatch(input, copiedUpTo)
      invariant whole == result + ResolveFrom(input, copiedUpTo, results)
      decreases |input| - copiedUpTo
    {
      CopyUpTo(input, copiedUpTo, results);
      var m := it.value.m;
      Regroup(result, input[copiedUpTo..it.value.at], Substitute(m, results), ResolveFrom(input, m.end, results));
      result := result + input[copiedUpTo..it.value.at];
      copiedUpTo := m.end;
      ghost var before := result;
      if m.source.Some? {
        var source := Lookup(results, m.source.value);
        if source.Some? {
          result := result + ValueText(Navigate(source.value, m.path));
        }
      }
      assert result == before + Substitute(m, results);
      it := FindMatch(input, copiedUpTo);
    }
    CopyUpTo(input, copiedUpTo, results);
    result := result + input[copiedUpTo..];
  }

  // ---- Resolving reads only what is referenced ----

  lemma {:induction false} StringReadsReferences(s: string, i: nat, a: seq<StepResult>, b: seq<StepResult>)
    requires i <= |s|
    requires forall r :: r in StringReferences(s, i) ==> Lookup(a, r) == Lookup(b, r)
    ensures ResolveFrom(s, i, a) == ResolveFrom(s, i, b)
    decreases |s| - i
  {
    if i < |s| {
      match MatchAt(s, i)
      case Some(m) => StringReadsReferences(s, m.end, a, b);
      case None => StringReadsReferences(s, i + 1, a, b);
    }
  }

  /** Result lists that agree on every reference of the parameters resolve them alike. */
  lemma {:induction false} ResolveReadsReferences(input: Json, a: seq<StepResult>, b: seq<StepResult>)
    requires forall r :: r in References(input) ==> Lookup(a, r) == Lookup(b, r)
    ensures Resolve(input, a) == Resolve(input, b)
    decreases input
  {
    match input
    case Str(s) => StringReadsReferences(s, 0, a, b);
    case Obj(fields) =>
      forall k | k in fields ensures Resolve(fields[k], a) == Resolve(fields[k], b) {
        ResolveReadsReferences(fields[k], a, b);
      }
      assert Resolve(input, a).fields == Resolve(input, b).fields;
    case Arr(elems) =>
      forall i | 0 <= i < |elems| ensures Resolve(elems[i], a) == Resolve(elems[i], b) {
        assert elems[i] in elems;
        ResolveReadsReferences(elems[i], a, b);
      }
      assert Resolve(input, a).elems == Resolve(input, b).elems;
    case _ =>
  }
}
