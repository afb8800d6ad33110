/**
 The plugin-name glob of a trusted signing key: which plugin names a key's
 scope covers. '*' stands for any run of characters, '?' for any one.
*/
module NameGlob {

  /** What a pattern means: every way of giving '*' some characters is tried. */
  predicate Matches(pattern: string, name: string)
    decreases |pattern|, |name|
  {
    if pattern == "" then
      name == ""
    else if pattern[0] == '*' then
      Matches(pattern[1..], name) || (name != "" && Matches(pattern, name[1..]))
    else
      name != "" && MatchesOne(pattern[0], name[0]) && Matches(pattern[1..], name[1..])
  }

  predicate MatchesOne(p: char, c: char) {
    p == '?' || p == c
  }

  /** The characters pattern[i..j] each consume one character of the name. */
  ghost predicate Literal(segment: string, text: string) {
    && |segment| == |text|
    && forall i :: 0 <= i < |segment| ==> segment[i] != '*' && MatchesOne(segment[i], text[i])
  }

  /** A '*' absorbs any number of leading characters. */
  lemma {:induction false} StarAbsorbs(pattern: string, name: string, k: nat)
    requires pattern != "" && pattern[0] == '*'
    requires k <= |name|
    requires Matches(pattern, name[k..])
    ensures Matches(pattern, name)
    decreases k
  {
    if k > 0 {
      assert name[k - 1..][1..] == name[k..];
      StarAbsorbs(pattern, name, k - 1);
    }
  }

  /** A match of a pattern starting with '*' chooses how much the '*' takes. */
  lemma {:induction false} StarChoice(pattern: string, name: string) returns (k: nat)
    requires pattern != "" && pattern[0] == '*'
    requires Matches(pattern, name)
    ensures k <= |name| && Matches(pattern[1..], name[k..])
    decreases |name|
  {
    if Matches(pattern[1..], name) {
      k := 0;
      assert name[0..] == name;
    } else {
      var k' := StarChoice(pattern, name[1..]);
      k := k' + 1;
      assert name[1..][k'..] == name[k..];
    }
  }

  /** A pattern that begins with a star-free segment must match it character by character. */
  lemma {:induction false} LiteralPrefix(segment: string, rest: string, name: string)
    requires forall i :: 0 <= i < |segment| ==> segment[i] != '*'
    ensures Matches(segment + rest, name) <==>
            |segment| <= |name| && Literal(segment, name[..|segment|]) && Matches(rest, name[|segment|..])
  {
    if segment == "" {
      assert segment + rest == rest && name[0..] == name;
    } else {
      assert (segment + rest)[1..] == segment[1..] + rest;
      if name != "" {
        LiteralPrefix(segment[1..], rest, name[1..]);
        if |segment| <= |name| {
          assert name[1..][|segment| - 1..] == name[|segment|..];
          assert name[1..][..|segment| - 1] == name[..|segment|][1..];
          assert Literal(segment, name[..|segment|]) <==>
                 MatchesOne(segment[0], name[0]) && Literal(segment[1..], name[..|segment|][1..]);
        }
      }
    }
  }

  /** Reaching a second '*' makes the first one's choice final. */
  lemma {:induction false} SecondStar(pattern: string, name: string, star: nat, p: nat, mark: nat, n: nat)
    requires star < p < |pattern| && pattern[star] == '*' && pattern[p] == '*'
    requires mark <= n <= |name|
    requires Literal(pattern[star + 1..p], name[mark..n])
    ensures Matches(pattern[star..], name[mark..]) <==> Matches(pattern[p..], name[n..])
  {
    var segment, rest := pattern[star + 1..p], pattern[p..];
    assert pattern[star..][1..] == segment + rest;
    if Matches(pattern[star..], name[mark..]) {
      var k := StarChoice(pattern[star..], name[mark..]);
      var tail := name[mark..][k..];
      LiteralPrefix(segment, rest, tail);
      assert tail[|segment|..] == name[n..][k..];
      StarAbsorbs(rest, name[n..], k);
    }
    if Matches(rest, name[n..]) {
      LiteralPrefix(segment, rest, name[mark..]);
      assert name[mark..][..|segment|] == name[mark..n];
      assert name[mark..][|segment|..] == name[n..];
    }
  }

  /** A mismatch after a '*': the '*' takes one character more. */
  lemma {:induction false} StarTakesOneMore(pattern: string, name: string, star: nat, p: nat, mark: nat, n: nat)
    requires star < p <= |pattern| && pattern[star] == '*'
    requires mark <= n < |name|
    requires Literal(pattern[star + 1..p], name[mark..n])
    requires p < |pattern| ==> pattern[p] != '*' && !MatchesOne(pattern[p], name[n])
    ensures Matches(pattern[star..], name[mark..]) <==> Matches(pattern[star..], name[mark + 1..])
  {
    var segment, rest := pattern[star + 1..p], pattern[p..];
    assert pattern[star..][1..] == segment + rest;
    LiteralPrefix(segment, rest, name[mark..]);
    assert name[mark..][|segment|..] == name[n..];
    assert !Matches(rest, name[n..]);
    assert name[mark..][1..] == name[mark + 1..];
  }

  /** Only '*' can match the empty text. */
  lemma {:induction false} StarsMatchEmpty(pattern: string)
    ensures Matches(pattern, "") <==> forall i :: 0 <= i < |pattern| ==> pattern[i] == '*'
  {
    if pattern != "" {
      StarsMatchEmpty(pattern[1..]);
      assert forall i :: 1 <= i < |pattern| ==> pattern[i] == pattern[1..][i - 1];
    }
  }

  /** One character consumed on both sides. */
  lemma OneCharacter(pattern: string, name: string, p: nat, n: nat)
    requires p < |pattern| && n < |name| && MatchesOne(pattern[p], name[n])
    ensures Matches(pattern[p + 1..], name[n + 1..]) ==> Matches(pattern[p..], name[n..])
    ensures pattern[p] != '*' ==> (Matches(pattern[p + 1..], name[n + 1..]) <==> Matches(pattern[p..], name[n..]))
  {
    assert pattern[p..][1..] == pattern[p + 1..] && name[n..][1..] == name[n + 1..];
    if pattern[p] == '*' && Matches(pattern[p + 1..], name[n + 1..]) {
      assert Matches(pattern[p..], name[n + 1..]);
    }
  }

  /** What the loop knows: what is left to match implies the whole match and, on
      names without a '*', the whole match is what is left to match from the last
      '*', whose current text and the literal segment behind it line up. */
  ghost predicate Progress(pattern: string, name: string, p: nat, n: nat, star: int, mark: nat) {
    && p <= |pattern| && mark <= n <= |name|
    && (Matches(pattern[p..], name[n..]) ==> Matches(pattern, name))
    && (star < 0 ==> mark == 0)
    && (star >= 0 ==>
          && star < p && pattern[star] == '*'
          && (Matches(pattern[star..], name[mark..]) ==> Matches(pattern, name)))
    && ('*' !in name ==>
          if star < 0 then
            Matches(pattern[p..], name[n..]) <==> Matches(pattern, name)
          else
            && Literal(pattern[star + 1..p], name[mark..n])
            && (Matches(pattern[star..], name[mark..]) <==> Matches(pattern, name)))
  }

  lemma {:induction false} ConsumeOne(pattern: string, name: string, p: nat, n: nat, star: int, mark: nat)
    requires Progress(pattern, name, p, n, star, mark)
    requires p < |pattern| && n < |name| && MatchesOne(pattern[p], name[n])
    ensures Progress(pattern, name, p + 1, n + 1, star, mark)
  {
    OneCharacter(pattern, name, p, n);
    if '*' !in name {
      assert name[n] in name;
      if star >= 0 {
        assert pattern[star + 1..p + 1] == pattern[star + 1..p] + [pattern[p]];
        assert name[mark..n + 1] == name[mark..n] + [name[n]];
      }
    }
  }

  lemma {:induction false} MeetStar(pattern: string, name: string, p: nat, n: nat, star: int, mark: nat)
    requires Progress(pattern, name, p, n, star, mark)
    requires p < |pattern| && n < |name| && pattern[p] == '*'
    ensures Progress(pattern, name, p + 1, n, p, n)
  {
    assert pattern[p..][1..] == pattern[p + 1..];
    if '*' !in name && star >= 0 {
      SecondStar(pattern, name, star, p, mark, n);
    }
  }

  lemma {:induction false} Backtrack(pattern: string, name: string, p: nat, n: nat, star: int, mark: nat)
    requires Progress(pattern, name, p, n, star, mark)
    requires n < |name| && star >= 0
    requires p < |pattern| ==> pattern[p] != '*' && !MatchesOne(pattern[p], name[n])
    ensures Progress(pattern, name, star + 1, mark + 1, star, mark + 1)
  {
    if '*' !in name {
      StarTakesOneMore(pattern, name, star, p, mark, n);
    }
    assert name[mark..][1..] == name[mark + 1..];
    assert pattern[star..][1..] == pattern[star + 1..];
    if Matches(pattern[star + 1..], name[mark + 1..]) {
      assert Matches(pattern[star..], name[mark + 1..]);
      assert Matches(pattern[star..], name[mark..]);
    }
  }

  /** With no '*' seen, a mismatch is final. */
  lemma {:induction false} Mismatch(pattern: string, name: string, p: nat, n: nat, mark: nat)
    requires Progress(pattern, name, p, n, -1, mark)
    requires n < |name| && '*' !in name
    requires p < |pattern| ==> pattern[p] != '*' && !MatchesOne(pattern[p], name[n])
    ensures !Matches(pattern, name)
  {
  }

  /** With the name used up, only a tail of '*' is left to match; the last '*'
      seen has nothing to give back. */
  lemma {:induction false} NameUsedUp(pattern: string, name: string, p: nat, star: int, mark: nat)
    requires Progress(pattern, name, p, |name|, star, mark)
    ensures (forall i :: p <= i < |pattern| ==> pattern[i] == '*') ==> Matches(pattern, name)
    ensures '*' !in name && Matches(pattern, name) ==> forall i :: p <= i < |pattern| ==> pattern[i] == '*'
  {
    var rest := pattern[p..];
    assert name[|name|..] == "";
    StarsMatchEmpty(rest);
    assert forall i :: p <= i < |pattern| ==> pattern[i] == rest[i - p];
    if '*' !in name && star >= 0 && Matches(pattern, name) {
      var segment := pattern[star + 1..p];
      assert pattern[star..][1..] == segment + rest;
      var k := StarChoice(pattern[star..], name[mark..]);
      var tail := name[mark..][k..];
      LiteralPrefix(segment, rest, tail);
      assert tail[|segment|..] == "";
    }
  }

  /**
   The greedy loop with one backtrack point. It never accepts a name the
   pattern does not match; on names without a '*' it accepts every name the
   pattern does match.
  */
  method NameMatches(pattern: string, name: string) returns (r: bool)
    ensures r ==> Matches(pattern, name)
    ensures '*' !in name ==> (r <==> Matches(pattern, name))
  {
    var p, n, mark := 0, 0, 0;
    var star: int := -1;
    while n < |name|
      invariant Progress(pattern, name, p, n, star, mark)
      invariant -1 <= star
      decreases |name| - mark, |name| - n, |pattern| - p
    {
      if p < |pattern| && (pattern[p] == '?' || pattern[p] == name[n]) {
        ConsumeOne(pattern, name, p, n, star, mark);
        p, n := p + 1, n + 1;
      } else if p < |pattern| && pattern[p] == '*' {
        MeetStar(pattern, name, p, n, star, mark);
        star, mark, p := p, n, p + 1;
      } else if star >= 0 {
        Backtrack(pattern, name, p, n, star, mark);
        mark := mark + 1;
        p, n := star + 1, mark;
      } else {
        if '*' !in name { Mismatch(pattern, name, p, n, mark); }
        return false;
      }
    }
    NameUsedUp(pattern, name, p, star, mark);
    ghost var p0 := p;
    while p < |pattern| && pattern[p] == '*'
      invariant p0 <= p <= |pattern|
      invariant forall i :: p0 <= i < p ==> pattern[i] == '*'
    {
      p := p + 1;
    }
    return p == |pattern|;
  }

  // ---- Names the installer lets through ----

  predicate IsAlnum(c: char) {
    'a' <= c <= 'z' || 'A' <= c <= 'Z' || '0' <= c <= '9'
  }

  predicate EndsWith(s: string, suffix: string) {
    |suffix| <= |s| && s[|s| - |suffix|..] == suffix
  }

  /** Letters, digits, '_', '-' and '.', at most 64 of them, first alphanumeric,
      no "..", and not looking like a library or a half-written file. */
  predicate IsValidPluginName(name: string) {
    && 1 <= |name| <= 64
    && IsAlnum(name[0])
    && (forall i :: 0 <= i < |name| ==> IsAlnum(name[i]) || name[i] == '_' || name[i] == '-' || name[i] == '.')
    && (forall i :: 0 <= i < |name| - 1 ==> !(name[i] == '.' && name[i + 1] == '.'))
    && !EndsWith(name, ".so") && !EndsWith(name, ".dylib") && !EndsWith(name, ".dll")
    && !EndsWith(name, ".part") && !EndsWith(name, ".tmp")
  }

  /** For every valid plugin name the loop decides exactly the glob's meaning. */
  method ScopeCovers(scope: seq<string>, name: string) returns (covered: bool)
    requires IsValidPluginName(name)
    ensures covered <==> scope == [] || exists i :: 0 <= i < |scope| && Matches(scope[i], name)
  {
    assert '*' !in name;
    for i := 0 to |scope|
      invariant forall j :: 0 <= j < i ==> !Matches(scope[j], name)
    {
      var m := NameMatches(scope[i], name);
      if m { return true; }
    }
    return scope == [];
  }
}
