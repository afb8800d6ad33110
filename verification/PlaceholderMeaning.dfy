/**
 What resolving parameters means, told from the grammar of placeholders: a text reads as
 characters and placeholders, and each placeholder is replaced by the printed form of the
 value its path leads to.
*/
module PlaceholderMeaning {
  import opened Wrappers
  import opened Json
  import opened Placeholders

  // ---- The grammar ----

  datatype Subject = AtPosition(digits: string) | OfStep(name: string)

  datatype Placeholder = Placeholder(subject: Subject, path: seq<string>)

  predicate AllDigits(s: string) {
    forall i :: 0 <= i < |s| ==> IsDigit(s[i])
  }

  predicate AllWord(s: string) {
    forall i :: 0 <= i < |s| ==> IsWord(s[i])
  }

  predicate IsPath(path: seq<string>) {
    forall k :: 0 <= k < |path| ==> path[k] != "" && AllWord(path[k])
  }

  predicate IsSubject(subject: Subject) {
    match subject
    case AtPosition(digits) => digits != "" && AllDigits(digits)
    case OfStep(name) => name != "" && IsNameStart(name[0]) && AllWord(name)
  }

  predicate IsPlaceholder(p: Placeholder) {
    IsSubject(p.subject) && IsPath(p.path)
  }

  function Dotted(path: seq<string>): string {
    if path == [] then "" else "." + path[0] + Dotted(path[1..])
  }

  function Tail(path: seq<string>): string {
    ".output" + Dotted(path) + "}}"
  }

  function Head(subject: Subject): string {
    match subject
    case AtPosition(digits) => digits
    case OfStep(name) => "s." + name
  }

  /** How a placeholder is written. */
  function Written(p: Placeholder): string {
    "{{step" + Head(p.subject) + Tail(p.path)
  }

  /** The placeholder stands at i. */
  predicate Stands(s: string, i: nat, p: Placeholder) {
    IsPlaceholder(p) && StartsAt(s, i, Written(p))
  }

  ghost predicate NothingStands(s: string, i: nat) {
    forall p :: !Stands(s, i, p)
  }

  /** A text as characters and placeholders. */
  datatype Piece = Char(c: char) | Hole(p: Placeholder)

  /** The pieces read the text from i on: a placeholder wherever one stands, else a character. */
  ghost predicate Reads(s: string, i: nat, pieces: seq<Piece>)
    requires i <= |s|
    decreases |pieces|
  {
    if pieces == [] then i == |s|
    else
      match pieces[0]
      case Char(c) => i < |s| && s[i] == c && NothingStands(s, i) && Reads(s, i + 1, pieces[1..])
      case Hole(p) => Stands(s, i, p) && Reads(s, i + |Written(p)|, pieces[1..])
  }

  // ---- What a placeholder stands for ----

  /** The value a path of keys leads to; Null where a key is absent. */
  function Field(v: Json, path: seq<string>): Json
    decreases path
  {
    if path == [] then v
    else if v.Obj? && path[0] in v.fields then Field(v.fields[path[0]], path[1..])
    else Null
  }

  /** Decimal digits without a needless zero. */
  predicate IsNumeral(text: string, n: nat) {
    text != "" && AllDigits(text) && DigitsValue(text) == n && (text[0] == '0' ==> |text| == 1)
  }

  predicate Prints(v: Json, text: string) {
    match v
    case Null => text == ""
    case Bool(b) => text == if b then "true" else "false"
    case Int(n) =>
      var value := ToLongLong(n);
      if value < 0 then text != "" && text[0] == '-' && IsNumeral(text[1..], -value) else IsNumeral(text, value)
    case Float(printed) => text == printed
    case Str(s) => text == s
    case _ => text == "<non-scalar>"
  }

  /** The result the subject means: the one at a position counted from 1, or the latest of
      that name. */
  predicate Means(results: seq<StepResult>, subject: Subject, k: nat) {
    && k < |results|
    && match subject
       case AtPosition(digits) =>
         AllDigits(digits) && DigitsValue(digits) == k + 1 && k + 1 < 0x1_0000_0000_0000_0000
       case OfStep(name) =>
         results[k].name == name && forall j :: k < j < |results| ==> results[j].name != name
  }

  ghost predicate Shows(results: seq<StepResult>, p: Placeholder, text: string) {
    if exists k: nat :: Means(results, p.subject, k) then
      exists k: nat :: Means(results, p.subject, k) && Prints(Field(results[k].output, p.path), text)
    else text == ""
  }

  /** The text is the pieces in order, every placeholder replaced. */
  ghost predicate Spells(results: seq<StepResult>, pieces: seq<Piece>, text: string)
    decreases |pieces|
  {
    if pieces == [] then text == ""
    else
      match pieces[0]
      case Char(c) => text != "" && text[0] == c && Spells(results, pieces[1..], text[1..])
      case Hole(p) =>
        exists k: nat :: k <= |text| && Shows(results, p, text[..k]) && Spells(results, pieces[1..], text[k..])
  }

  ghost predicate IsResolvedText(s: string, results: seq<StepResult>, text: string) {
    exists pieces :: Reads(s, 0, pieces) && Spells(results, pieces, text)
  }

  /** The same value, every text in it resolved. */
  ghost predicate IsResolved(input: Json, results: seq<StepResult>, out: Json)
    decreases input
  {
    match input
    case Str(s) => out.Str? && IsResolvedText(s, results, out.s)
    case Obj(fields) =>
      out.Obj? && out.fields.Keys == fields.Keys &&
      forall k :: k in fields ==> IsResolved(fields[k], results, out.fields[k])
    case Arr(elems) =>
      out.Arr? && |out.elems| == |elems| &&
      forall i :: 0 <= i < |elems| ==> IsResolved(elems[i], results, out.elems[i])
    case _ => out == input
  }

  // ---- Matching is the grammar ----

  lemma Piecewise(s: string, i: nat, a: string, b: string)
    ensures StartsAt(s, i, a + b) <==> StartsAt(s, i, a) && StartsAt(s, i + |a|, b)
  {
    if i + |a| + |b| <= |s| {
      assert s[i..i + |a| + |b|] == s[i..i + |a|] + s[i + |a|..i + |a| + |b|];
      if s[i..i + |a| + |b|] == a + b {
        assert s[i..i + |a|] == (a + b)[..|a|] && s[i + |a|..i + |a| + |b|] == (a + b)[|a|..];
      }
    }
  }

  lemma Slice(s: string, i: nat, t: string)
    requires StartsAt(s, i, t)
    ensures forall n :: i <= n < i + |t| ==> s[n] == t[n - i]
  {
    assert forall n :: i <= n < i + |t| ==> s[n] == s[i..i + |t|][n - i];
  }

  lemma {:induction false} DigitsEnd(s: string, i: nat, e: nat)
    requires i <= e <= |s| && (forall k :: i <= k < e ==> IsDigit(s[k])) && (e < |s| ==> !IsDigit(s[e]))
    ensures SkipDigits(s, i) == e
    decreases e - i
  {
    if i < e {
      DigitsEnd(s, i + 1, e);
    }
  }

  lemma {:induction false} WordEnd(s: string, i: nat, e: nat)
    requires i <= e <= |s| && (forall k :: i <= k < e ==> IsWord(s[k])) && (e < |s| ==> !IsWord(s[e]))
    ensures SkipWord(s, i) == e
    decreases e - i
  {
    if i < e {
      WordEnd(s, i + 1, e);
    }
  }

  lemma {:induction false} SkippedWord(s: string, i: nat)
    requires i <= |s|
    ensures forall k :: i <= k < SkipWord(s, i) ==> IsWord(s[k])
    ensures i < |s| && IsWord(s[i]) ==> SkipWord(s, i) > i
    decreases |s| - i
  {
    if i < |s| && IsWord(s[i]) {
      SkippedWord(s, i + 1);
    }
  }

  /** A path up to "}}" is a dot, a word, and the rest of it. */
  lemma PathParts(s: string, i: nat, path: seq<string>)
    requires IsPath(path) && StartsAt(s, i, Dotted(path)) && StartsAt(s, i + |Dotted(path)|, "}}")
    ensures path == [] ==> s[i] == '}'
    ensures path != [] ==>
              var w := i + 1 + |path[0]|;
              && s[i] == '.' && path[0] != "" && (forall k :: i + 1 <= k < w ==> IsWord(s[k]))
              && StartsAt(s, w, Dotted(path[1..])) && w + |Dotted(path[1..])| == i + |Dotted(path)|
  {
    if path == [] {
      Slice(s, i, "}}");
    } else {
      Piecewise(s, i, "." + path[0], Dotted(path[1..]));
      Piecewise(s, i, ".", path[0]);
      Slice(s, i, ".");
      Slice(s, i + 1, path[0]);
    }
  }

  lemma {:induction false} PathEnd(s: string, i: nat, path: seq<string>)
    requires IsPath(path) && StartsAt(s, i, Dotted(path)) && StartsAt(s, i + |Dotted(path)|, "}}")
    ensures SkipPath(s, i) == i + |Dotted(path)|
    decreases |path|
  {
    PathParts(s, i, path);
    if path != [] {
      var w := i + 1 + |path[0]|;
      PathParts(s, w, path[1..]);
      WordEnd(s, i + 1, w);
      PathEnd(s, w, path[1..]);
    }
  }

  lemma DotAndWord(s: string, i: nat, w: nat, e: nat)
    requires i < w <= e <= |s| && s[i] == '.'
    ensures s[i..e] == "." + s[i + 1..w] + s[w..e]
  {
  }

  lemma {:induction false} PathOf(s: string, i: nat) returns (path: seq<string>)
    requires i <= |s|
    ensures IsPath(path) && s[i..SkipPath(s, i)] == Dotted(path)
    decreases |s| - i
  {
    if i + 1 < |s| && s[i] == '.' && IsWord(s[i + 1]) {
      var w := SkipWord(s, i + 1);
      SkippedWord(s, i + 1);
      var rest := PathOf(s, w);
      var word := s[i + 1..w];
      assert AllWord(word) && word != "";
      path := [word] + rest;
      assert path[1..] == rest;
      var e := SkipPath(s, i);
      DotAndWord(s, i, w, e);
    } else {
      path := [];
    }
  }

  /** What a placeholder names; None for a position that is no number from 1 in 64 bits. */
  function Source(subject: Subject): Option<Reference> {
    match subject
    case AtPosition(digits) => if AllDigits(digits) then ParsePosition(digits) else None
    case OfStep(name) => Some(Named(name))
  }

  /** The three parts of a tail. */
  lemma TailParts(s: string, i: nat, path: seq<string>)
    ensures |Tail(path)| == |Dotted(path)| + 9 && Tail(path)[0] == '.'
    ensures StartsAt(s, i, Tail(path)) <==>
            StartsAt(s, i, ".output") && StartsAt(s, i + 7, Dotted(path)) && StartsAt(s, i + 7 + |Dotted(path)|, "}}")
  {
    Piecewise(s, i, ".output", Dotted(path));
    Piecewise(s, i, ".output" + Dotted(path), "}}");
  }

  lemma OutputMatches(s: string, i: nat, source: Option<Reference>, path: seq<string>)
    requires IsPath(path) && i <= |s| && StartsAt(s, i, ".output") && StartsAt(s, i + 7, Dotted(path))
    requires StartsAt(s, i + 7 + |Dotted(path)|, "}}")
    ensures MatchOutput(s, i, source) == Some(Match(i + 9 + |Dotted(path)|, source, Dotted(path)))
  {
    PathEnd(s, i + 7, path);
  }

  lemma TailMatches(s: string, i: nat, source: Option<Reference>, path: seq<string>)
    requires IsPath(path) && i <= |s| && StartsAt(s, i, Tail(path))
    ensures MatchOutput(s, i, source) == Some(Match(i + |Tail(path)|, source, Dotted(path)))
  {
    TailParts(s, i, path);
    OutputMatches(s, i, source, path);
  }

  lemma TailOf(s: string, i: nat, source: Option<Reference>) returns (path: seq<string>)
    requires i <= |s| && MatchOutput(s, i, source).Some?
    ensures IsPath(path) && StartsAt(s, i, Tail(path))
    ensures MatchOutput(s, i, source) == Some(Match(i + |Tail(path)|, source, Dotted(path)))
  {
    path := PathOf(s, i + 7);
    TailParts(s, i, path);
  }

  /** The parts of a placeholder. */
  lemma Parts(s: string, i: nat, p: Placeholder)
    ensures var head := Head(p.subject);
      && |Written(p)| == 6 + |head| + |Tail(p.path)|
      && (StartsAt(s, i, Written(p)) <==>
            StartsAt(s, i, "{{step") && StartsAt(s, i + 6, head) && StartsAt(s, i + 6 + |head|, Tail(p.path)))
      && (StartsAt(s, i, Written(p)) ==> s[i + 6 + |head|] == '.')
  {
    var head, tail := Head(p.subject), Tail(p.path);
    var k := i + 6 + |head|;
    Piecewise(s, i, "{{step", head);
    Piecewise(s, i, "{{step" + head, tail);
    TailParts(s, i, p.path);
    if StartsAt(s, k, tail) {
      Slice(s, k, tail);
    }
  }

  /** Digits up to a tail. */
  lemma PositionIsMatched(s: string, i: nat, digits: string, path: seq<string>)
    requires IsPath(path) && digits != "" && AllDigits(digits) && StartsAt(s, i, "{{step")
    requires var k := i + 6 + |digits|; StartsAt(s, i + 6, digits) && StartsAt(s, k, Tail(path)) && s[k] == '.'
    ensures var k := i + 6 + |digits|;
            MatchAt(s, i) == Some(Match(k + |Tail(path)|, ParsePosition(digits), Dotted(path)))
  {
    var j, k := i + 6, i + 6 + |digits|;
    Slice(s, j, digits);
    DigitsEnd(s, j, k);
    TailMatches(s, k, ParsePosition(digits), path);
  }

  /** A name up to a tail. */
  lemma NameIsMatched(s: string, i: nat, name: string, path: seq<string>)
    requires IsPath(path) && name != "" && IsNameStart(name[0]) && AllWord(name) && StartsAt(s, i, "{{step")
    requires StartsAt(s, i + 6, "s.") && StartsAt(s, i + 8, name)
    requires var k := i + 8 + |name|; StartsAt(s, k, Tail(path)) && s[k] == '.'
    ensures var k := i + 8 + |name|;
            MatchAt(s, i) == Some(Match(k + |Tail(path)|, Some(Named(name)), Dotted(path)))
  {
    var j, k := i + 6, i + 8 + |name|;
    Slice(s, j, "s.");
    Slice(s, j + 2, name);
    WordEnd(s, j + 3, k);
    TailMatches(s, k, Some(Named(name)), path);
  }

  /** A placeholder that stands at i is the one matched there, to its end. */
  lemma StandingIsMatched(s: string, i: nat, p: Placeholder)
    requires i <= |s| && Stands(s, i, p)
    ensures i + |Written(p)| <= |s|
    ensures MatchAt(s, i) == Some(Match(i + |Written(p)|, Source(p.subject), Dotted(p.path)))
  {
    Parts(s, i, p);
    match p.subject
    case AtPosition(digits) =>
      PositionIsMatched(s, i, digits, p.path);
    case OfStep(name) =>
      Piecewise(s, i + 6, "s.", name);
      NameIsMatched(s, i, name, p.path);
  }

  /** What is matched is a placeholder that stands there. */
  lemma MatchedStands(s: string, i: nat) returns (p: Placeholder)
    requires i <= |s| && MatchAt(s, i).Some?
    ensures Stands(s, i, p)
    ensures MatchAt(s, i) == Some(Match(i + |Written(p)|, Source(p.subject), Dotted(p.path)))
  {
    var subject, k := MatchedSubject(s, i);
    var path := TailOf(s, k, Source(subject));
    p := Placeholder(subject, path);
    PartsStand(s, i, p, k);
  }

  /** Its parts in a row are a placeholder. */
  lemma PartsStand(s: string, i: nat, p: Placeholder, k: nat)
    requires IsPlaceholder(p) && StartsAt(s, i, "{{step") && StartsAt(s, i + 6, Head(p.subject))
    requires k == i + 6 + |Head(p.subject)| && StartsAt(s, k, Tail(p.path))
    ensures Stands(s, i, p) && k + |Tail(p.path)| == i + |Written(p)|
  {
    Parts(s, i, p);
  }

  lemma MatchedSubject(s: string, i: nat) returns (subject: Subject, k: nat)
    requires i <= |s| && MatchAt(s, i).Some?
    ensures IsSubject(subject)
    ensures StartsAt(s, i, "{{step") && StartsAt(s, i + 6, Head(subject)) && k == i + 6 + |Head(subject)| <= |s|
    ensures MatchAt(s, i) == MatchOutput(s, k, Source(subject))
  {
    var j := i + 6;
    if j < |s| && IsDigit(s[j]) {
      k := SkipDigits(s, j);
      SkippedDigits(s, j);
      subject := AtPosition(s[j..k]);
    } else {
      k := SkipWord(s, j + 3);
      SkippedWord(s, j + 3);
      subject := OfStep(s[j + 2..k]);
      Piecewise(s, j, "s.", s[j + 2..k]);
    }
  }

  // ---- Values ----

  lemma {:induction false} DotEnd(s: string, i: nat, e: nat)
    requires i <= e <= |s| && (forall k :: i <= k < e ==> s[k] != '.') && (e < |s| ==> s[e] == '.')
    ensures FindDot(s, i) == e
    decreases e - i
  {
    if i < e {
      DotEnd(s, i + 1, e);
    }
  }

  /** Where the first key of a dotted path ends. */
  lemma FirstKey(text: string, start: nat, path: seq<string>)
    requires IsPath(path) && path != [] && 1 <= start <= |text| + 1 && text[start - 1..] == Dotted(path)
    ensures var e := start + |path[0]|;
      e <= |text| && FindDot(text, start) == e && text[start..e] == path[0] && text[e..] == Dotted(path[1..])
  {
    var word, rest := path[0], path[1..];
    var e := start + |word|;
    assert |Dotted(path)| == 1 + |word| + |Dotted(rest)| == |text| - start + 1;
    assert StartsAt(text, start - 1, "." + word + Dotted(rest));
    Piecewise(text, start - 1, "." + word, Dotted(rest));
    Piecewise(text, start - 1, ".", word);
    Slice(text, start, word);
    forall k | start <= k < e ensures text[k] != '.' {
      assert IsWord(word[k - start]);
    }
    if e < |text| {
      assert text[e] == text[e..][0] == Dotted(rest)[0] == '.';
    }
    DotEnd(text, start, e);
  }

  lemma {:induction false} NavigatesField(v: Json, text: string, start: nat, path: seq<string>)
    requires IsPath(path) && 1 <= start <= |text| + 1 && text[start - 1..] == Dotted(path)
    ensures NavigateFrom(v, text, start) == Field(v, path)
    decreases |path|
  {
    if path != [] {
      FirstKey(text, start, path);
      if v.Obj? && path[0] in v.fields {
        NavigatesField(v.fields[path[0]], text, start + |path[0]| + 1, path[1..]);
      }
    }
  }

  lemma {:induction false} DecimalIsNumeral(n: nat)
    ensures IsNumeral(Decimal(n), n) && (n > 0 ==> Decimal(n)[0] != '0')
  {
    if n >= 10 {
      DecimalIsNumeral(n / 10);
      assert Decimal(n)[..|Decimal(n)| - 1] == Decimal(n / 10);
    }
  }

  lemma TextPrints(v: Json)
    ensures Prints(v, ValueText(v))
  {
    if v.Int? {
      var n := ToLongLong(v.n);
      DecimalIsNumeral(if n < 0 then -n else n);
      if n < 0 {
        assert IntText(n)[1..] == Decimal(-n);
      }
    }
  }

  /** What a name means among the results but the last, it means among all. */
  lemma NotTheLast(results: seq<StepResult>, name: string, k: nat)
    requires results != [] && results[|results| - 1].name != name
    requires Means(results[..|results| - 1], OfStep(name), k)
    ensures Means(results, OfStep(name), k) && results[..|results| - 1][k] == results[k]
  {
    var n := |results| - 1;
    assert forall j :: 0 <= j < n ==> results[..n][j] == results[j];
  }

  /** Looking a name up finds the output of the latest result of that name. */
  lemma {:induction false} NameMeans(results: seq<StepResult>, name: string)
    requires name != ""
    ensures LatestNamed(results, name).None? ==> forall k :: 0 <= k < |results| ==> results[k].name != name
    ensures LatestNamed(results, name).Some? ==>
              exists k: nat :: Means(results, OfStep(name), k) && LatestNamed(results, name).value == results[k].output
  {
    if results != [] {
      var n := |results| - 1;
      if results[n].name == name {
        assert Means(results, OfStep(name), n);
      } else {
        NameMeans(results[..n], name);
        if LatestNamed(results[..n], name).Some? {
          var k: nat :| Means(results[..n], OfStep(name), k) &&
                        LatestNamed(results[..n], name).value == results[..n][k].output;
          NotTheLast(results, name, k);
        } else {
          assert forall j :: 0 <= j < n ==> results[..n][j] == results[j];
        }
      }
    }
  }

  lemma SubstituteShows(results: seq<StepResult>, p: Placeholder, end: nat)
    requires IsPlaceholder(p)
    ensures Shows(results, p, Substitute(Match(end, Source(p.subject), Dotted(p.path)), results))
  {
    var m := Match(end, Source(p.subject), Dotted(p.path));
    match p.subject
    case AtPosition(digits) =>
      var n := DigitsValue(digits);
      if 1 <= n <= |results| && n < 0x1_0000_0000_0000_0000 {
        assert Means(results, p.subject, n - 1);
        FieldPrints(results[n - 1].output, p.path);
      }
    case OfStep(name) =>
      NameMeans(results, name);
      if LatestNamed(results, name).Some? {
        var k: nat :| Means(results, p.subject, k) && LatestNamed(results, name).value == results[k].output;
        FieldPrints(results[k].output, p.path);
      }
  }

  lemma FieldPrints(output: Json, path: seq<string>)
    requires IsPath(path)
    ensures Prints(Field(output, path), ValueText(Navigate(output, Dotted(path))))
  {
    if path != [] {
      NavigatesField(output, Dotted(path), 1, path);
    }
    TextPrints(Field(output, path));
  }

  // ---- Resolving means this ----

  lemma CharReads(s: string, i: nat, rest: seq<Piece>)
    requires i < |s| && MatchAt(s, i).None? && Reads(s, i + 1, rest)
    ensures Reads(s, i, [Char(s[i])] + rest)
  {
    forall p ensures !Stands(s, i, p) {
      if Stands(s, i, p) {
        StandingIsMatched(s, i, p);
      }
    }
    assert ([Char(s[i])] + rest)[1..] == rest;
  }

  lemma HoleReads(s: string, i: nat, p: Placeholder, end: nat, rest: seq<Piece>)
    requires i <= end <= |s| && Stands(s, i, p) && end == i + |Written(p)| && Reads(s, end, rest)
    ensures Reads(s, i, [Hole(p)] + rest)
  {
    assert ([Hole(p)] + rest)[1..] == rest;
  }

  lemma CharSpells(results: seq<StepResult>, c: char, rest: seq<Piece>, text: string)
    requires Spells(results, rest, text)
    ensures Spells(results, [Char(c)] + rest, [c] + text)
  {
    assert ([Char(c)] + rest)[1..] == rest && ([c] + text)[1..] == text;
  }

  lemma HoleSpells(results: seq<StepResult>, p: Placeholder, shown: string, rest: seq<Piece>, text: string)
    requires Shows(results, p, shown) && Spells(results, rest, text)
    ensures Spells(results, [Hole(p)] + rest, shown + text)
  {
    assert ([Hole(p)] + rest)[1..] == rest;
    assert (shown + text)[..|shown|] == shown && (shown + text)[|shown|..] == text;
  }

  lemma HoleMeans(s: string, i: nat, m: Match, results: seq<StepResult>, rest: seq<Piece>)
    returns (pieces: seq<Piece>)
    requires i < |s| && MatchAt(s, i) == Some(m)
    requires Reads(s, m.end, rest) && Spells(results, rest, ResolveFrom(s, m.end, results))
    ensures Reads(s, i, pieces) && Spells(results, pieces, Substitute(m, results) + ResolveFrom(s, m.end, results))
  {
    var p := MatchedStands(s, i);
    assert m == Match(m.end, Source(p.subject), Dotted(p.path));
    SubstituteShows(results, p, m.end);
    HoleReads(s, i, p, m.end, rest);
    HoleSpells(results, p, Substitute(m, results), rest, ResolveFrom(s, m.end, results));
    pieces := [Hole(p)] + rest;
  }

  lemma CharMeans(s: string, i: nat, results: seq<StepResult>, rest: seq<Piece>)
    requires i < |s| && MatchAt(s, i).None?
    requires Reads(s, i + 1, rest) && Spells(results, rest, ResolveFrom(s, i + 1, results))
    ensures var pieces := [Char(s[i])] + rest;
            Reads(s, i, pieces) && Spells(results, pieces, ResolveFrom(s, i, results))
  {
    CharReads(s, i, rest);
    CharSpells(results, s[i], rest, ResolveFrom(s, i + 1, results));
  }

  lemma {:induction false} TextMeans(s: string, i: nat, results: seq<StepResult>) returns (pieces: seq<Piece>)
    requires i <= |s|
    ensures Reads(s, i, pieces) && Spells(results, pieces, ResolveFrom(s, i, results))
    decreases |s| - i
  {
    if i == |s| {
      pieces := [];
    } else if MatchAt(s, i).Some? {
      var m := MatchAt(s, i).value;
      var rest := TextMeans(s, m.end, results);
      pieces := HoleMeans(s, i, m, results, rest);
    } else {
      var rest := TextMeans(s, i + 1, results);
      CharMeans(s, i, results, rest);
      pieces := [Char(s[i])] + rest;
    }
  }

  /** Resolved parameters are the parameters with every text resolved. */
  lemma {:induction false} ResolveMeans(input: Json, results: seq<StepResult>)
    ensures IsResolved(input, results, Resolve(input, results))
    decreases input
  {
    match input
    case Str(s) =>
      var pieces := TextMeans(s, 0, results);
    case Obj(fields) =>
      forall k | k in fields ensures IsResolved(fields[k], results, Resolve(fields[k], results)) {
        ResolveMeans(fields[k], results);
      }
    case Arr(elems) =>
      forall i | 0 <= i < |elems| ensures IsResolved(elems[i], results, Resolve(elems[i], results)) {
        assert elems[i] in elems;
        ResolveMeans(elems[i], results);
      }
    case _ =>
  }

  /** What the pieces name. */
  function NamesOf(pieces: seq<Piece>): set<Reference> {
    if pieces == [] then {} else NamesOfPiece(pieces[0]) + NamesOf(pieces[1..])
  }

  function NamesOfPiece(piece: Piece): set<Reference> {
    if piece.Hole? && Source(piece.p.subject).Some? then {Source(piece.p.subject).value} else {}
  }

  /** The piece is what stands at i, up to `next`. */
  ghost predicate IsPiece(s: string, i: nat, piece: Piece, next: nat) {
    match piece
    case Char(_) => i < |s| && NothingStands(s, i) && next == i + 1
    case Hole(p) => Stands(s, i, p) && next == i + |Written(p)|
  }

  lemma FirstReads(s: string, i: nat, pieces: seq<Piece>) returns (next: nat)
    requires i <= |s| && pieces != [] && Reads(s, i, pieces)
    ensures next <= |s| && IsPiece(s, i, pieces[0], next) && Reads(s, next, pieces[1..])
  {
    next := if pieces[0].Char? then i + 1 else i + |Written(pieces[0].p)|;
  }

  /** What is matched where a piece stands. */
  predicate Matches(s: string, i: nat, piece: Piece, next: nat)
    requires i <= |s|
  {
    match piece
    case Char(_) => MatchAt(s, i).None? && next == i + 1
    case Hole(p) => MatchAt(s, i) == Some(Match(next, Source(p.subject), Dotted(p.path)))
  }

  lemma PieceMatches(s: string, i: nat, piece: Piece, next: nat)
    requires i <= |s| && IsPiece(s, i, piece, next)
    ensures Matches(s, i, piece, next)
  {
    if piece.Hole? {
      StandingIsMatched(s, i, piece.p);
    } else if MatchAt(s, i).Some? {
      var p := MatchedStands(s, i);
    }
  }

  lemma FirstMatches(s: string, i: nat, pieces: seq<Piece>) returns (next: nat)
    requires i <= |s| && pieces != [] && Reads(s, i, pieces)
    ensures next <= |s| && Matches(s, i, pieces[0], next) && Reads(s, next, pieces[1..])
  {
    next := FirstReads(s, i, pieces);
    PieceMatches(s, i, pieces[0], next);
  }

  /** The references of a text are what its placeholders name. */
  lemma {:induction false} ReferencesAre(s: string, i: nat, pieces: seq<Piece>)
    requires i <= |s| && Reads(s, i, pieces)
    ensures StringReferences(s, i) == NamesOf(pieces)
    decreases |pieces|
  {
    if pieces != [] {
      var next := FirstMatches(s, i, pieces);
      ReferencesAre(s, next, pieces[1..]);
      FirstNames(s, i, pieces[0], next);
    }
  }

  lemma FirstNames(s: string, i: nat, piece: Piece, next: nat)
    requires i < |s| && next <= |s| && Matches(s, i, piece, next)
    ensures StringReferences(s, i) == NamesOfPiece(piece) + StringReferences(s, next)
  {
  }
}
