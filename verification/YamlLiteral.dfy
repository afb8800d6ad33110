/**
 Literal block scalars: the writer of the YAML output, and the reading of
 section 8.1 of YAML 1.2.2 it has to survive.
*/
module YamlLiteral {
  import opened Wrappers

  // ---- Lines ----

  predicate OneLine(s: string) {
    '\n' !in s
  }

  /** The pieces between line feeds; a text without one is a single piece. */
  function Lines(s: string): (ls: seq<string>)
    ensures |ls| > 0
    ensures forall i :: 0 <= i < |ls| ==> OneLine(ls[i])
  {
    if s == "" then [""]
    else
      var rest := Lines(s[1..]);
      if s[0] == '\n' then [""] + rest else [[s[0]] + rest[0]] + rest[1..]
  }

  function Join(ls: seq<string>): string
    requires |ls| > 0
  {
    if |ls| == 1 then ls[0] else ls[0] + "\n" + Join(ls[1..])
  }

  lemma {:induction false} JoinOfLines(s: string)
    ensures Join(Lines(s)) == s
  {
    if s != "" {
      JoinOfLines(s[1..]);
    }
  }

  /** Text up to a line feed is a line of its own. */
  lemma {:induction false} LinesAfterBreak(line: string, rest: string)
    requires OneLine(line)
    ensures Lines(line + "\n" + rest) == [line] + Lines(rest)
  {
    var s := line + "\n" + rest;
    if line == "" {
      assert s[1..] == rest;
    } else {
      assert s[0] == line[0] && line[0] in line && s[1..] == line[1..] + "\n" + rest;
      assert line == [line[0]] + line[1..];
      LinesAfterBreak(line[1..], rest);
    }
  }

  lemma {:induction false} LinesOfOneLine(line: string)
    requires OneLine(line)
    ensures Lines(line) == [line]
  {
    if line != "" {
      assert line[0] in line && line == [line[0]] + line[1..];
      LinesOfOneLine(line[1..]);
    }
  }

  lemma Glue(a: string, b: string, c: string)
    ensures a + "\n" + b + "\n" + c == a + "\n" + (b + "\n" + c)
  {
  }

  lemma JoinCons(line: string, ls: seq<string>)
    requires ls != []
    ensures Join([line] + ls) == line + "\n" + Join(ls)
  {
    assert ([line] + ls)[1..] == ls;
  }

  lemma {:induction false} LinesOfJoin(ls: seq<string>, rest: string)
    requires |ls| > 0 && forall i :: 0 <= i < |ls| ==> OneLine(ls[i])
    ensures Lines(Join(ls) + "\n" + rest) == ls + Lines(rest)
  {
    if |ls| == 1 {
      LinesAfterBreak(ls[0], rest);
      assert ls == [ls[0]];
    } else {
      var tail := Join(ls[1..]) + "\n" + rest;
      LinesOfJoin(ls[1..], rest);
      LinesAfterBreak(ls[0], tail);
      Glue(ls[0], Join(ls[1..]), rest);
      assert ls == [ls[0]] + ls[1..];
    }
  }

  // ---- The writer ----

  function Spaces(n: nat): (s: string)
    ensures |s| == n
  {
    seq(n, i => ' ')
  }

  function FindBreak(s: string, start: nat): (r: Option<nat>)
    requires start <= |s|
    ensures r.None? ==> OneLine(s[start..])
    ensures r.Some? ==> start <= r.value < |s| && s[r.value] == '\n' && OneLine(s[start..r.value])
    decreases |s| - start
  {
    if start == |s| then None
    else if s[start] == '\n' then Some(start)
    else
      var r := FindBreak(s, start + 1);
      assert r.Some? ==> s[start..r.value] == [s[start]] + s[start + 1..r.value];
      r
  }

  /** A string a literal block can hold without an indentation indicator. */
  predicate IsLiteralSafe(s: string) {
    && '\n' in s
    && s[0] != ' ' && s[0] != '\t' && s[0] != '\n'
    && forall i :: 0 <= i < |s| ==> !((s[i] < ' ' && s[i] != '\n' && s[i] != '\t') || s[i] == 0x7f as char)
  }

  /** The number of line feeds `s` ends with. */
  function TrailingBreaks(s: string): (n: nat)
    ensures n <= |s|
  {
    if s != "" && s[|s| - 1] == '\n' then 1 + TrailingBreaks(s[..|s| - 1]) else 0
  }

  function Header(trailing: nat): (h: string)
    ensures OneLine(h)
  {
    if trailing == 0 then "|-" else if trailing == 1 then "|" else "|+"
  }

  /** `s` without the last line feed, if it ends with one. */
  function Body(s: string): string {
    if TrailingBreaks(s) > 0 then s[..|s| - 1] else s
  }

  function IndentLine(line: string, indent: nat): string {
    if line == "" then "" else Spaces(indent) + line
  }

  function IndentLines(ls: seq<string>, indent: nat): (out: seq<string>)
    ensures |out| == |ls|
    ensures forall i :: 0 <= i < |ls| ==> out[i] == IndentLine(ls[i], indent)
  {
    seq(|ls|, i requires 0 <= i < |ls| => IndentLine(ls[i], indent))
  }

  /** What the writer emits: the header, then the body's lines, indented. */
  function Literal(s: string, indent: nat): string {
    Join([Header(TrailingBreaks(s))] + IndentLines(Lines(Body(s)), indent))
  }

  /** The body's lines from `start` on, as they are written. */
  function Written(body: string, start: nat, indent: nat): string
    requires start <= |body|
  {
    Join(IndentLines(Lines(body[start..]), indent))
  }

  lemma LastLineWritten(body: string, start: nat, indent: nat)
    requires start <= |body| && FindBreak(body, start).None?
    ensures Written(body, start, indent) == IndentLine(body[start..], indent)
  {
    assert IndentLines([body[start..]], indent) == [IndentLine(body[start..], indent)];
    LinesOfOneLine(body[start..]);
  }

  lemma LineWritten(body: string, start: nat, nl: nat, indent: nat)
    requires start <= nl < |body| && FindBreak(body, start) == Some(nl)
    ensures Written(body, start, indent) ==
            IndentLine(body[start..nl], indent) + "\n" + Written(body, nl + 1, indent)
  {
    var line, rest := body[start..nl], body[nl + 1..];
    assert body[start..] == line + "\n" + rest;
    LinesAfterBreak(line, rest);
    IndentLinesCons(line, Lines(rest), indent);
    JoinCons(IndentLine(line, indent), IndentLines(Lines(rest), indent));
  }

  lemma IndentLinesCons(line: string, ls: seq<string>, indent: nat)
    ensures IndentLines([line] + ls, indent) == [IndentLine(line, indent)] + IndentLines(ls, indent)
  {
  }

  lemma LiteralText(s: string, indent: nat)
    ensures Literal(s, indent) == Header(TrailingBreaks(s)) + "\n" + Written(Body(s), 0, indent)
  {
    assert Body(s)[0..] == Body(s);
  }

  method AppendLine(text: string, line: string, indent: nat) returns (out: string)
    ensures out == text + "\n" + IndentLine(line, indent)
  {
    out := text + "\n";
    if line != "" {
      out := out + Spaces(indent) + line;
    }
  }

  method WriteLiteral(s: string, indent: nat) returns (out: string)
    ensures out == Literal(s, indent)
  {
    var trailing := CountTrailingBreaks(s);
    var body := s[..|s| - if trailing > 0 then 1 else 0];
    assert body == Body(s);
    LiteralText(s, indent);
    out := if trailing == 0 then "|-" else if trailing == 1 then "|" else "|+";
    out := WriteLines(out, body, indent);
  }

  method WriteLines(text: string, body: string, indent: nat) returns (out: string)
    ensures out == text + "\n" + Written(body, 0, indent)
  {
    out := text;
    var start := 0;
    ghost var whole := text + "\n" + Written(body, 0, indent);
    while true
      invariant start <= |body|
      invariant whole == out + "\n" + Written(body, start, indent)
      decreases |body| - start
    {
      var nl := FindBreak(body, start);
      if nl.None? {
        LastLineWritten(body, start, indent);
        out := AppendLine(out, body[start..], indent);
        break;
      }
      LineWritten(body, start, nl.value, indent);
      Glue(out, IndentLine(body[start..nl.value], indent), Written(body, nl.value + 1, indent));
      out := AppendLine(out, body[start..nl.value], indent);
      start := nl.value + 1;
    }
  }

  method CountTrailingBreaks(s: string) returns (trailing: nat)
    ensures trailing == TrailingBreaks(s)
  {
    trailing := 0;
    assert s[..|s|] == s;
    while trailing < |s| && s[|s| - 1 - trailing] == '\n'
      invariant trailing <= |s|
      invariant TrailingBreaks(s) == trailing + TrailingBreaks(s[..|s| - trailing])
    {
      assert s[..|s| - trailing][..|s| - trailing - 1] == s[..|s| - (trailing + 1)];
      trailing := trailing + 1;
    }
  }

  // ---- The reader: section 8.1 of YAML 1.2.2 ----

  function LeadingSpaces(line: string): (n: nat)
    ensures n <= |line|
    ensures forall i :: 0 <= i < n ==> line[i] == ' '
    ensures n < |line| ==> line[n] != ' '
  {
    if line != "" && line[0] == ' ' then
      var n := LeadingSpaces(line[1..]);
      assert forall i :: 1 <= i < n + 1 ==> line[i] == line[1..][i - 1];
      n + 1
    else 0
  }

  predicate Blank(line: string) {
    LeadingSpaces(line) == |line|
  }

  /** A document marker ends the document wherever it stands at column 0. */
  predicate DocumentMarker(line: string) {
    && |line| >= 3 && (line[..3] == "---" || line[..3] == "...")
    && (|line| == 3 || line[3] == ' ' || line[3] == '\t')
  }

  /** Section 8.1.1.1: the content's indentation is that of its first non-empty
      line; with none, the longest line's number of spaces. */
  function DetectIndent(ls: seq<string>): nat {
    if ls == [] then 0
    else if !Blank(ls[0]) then LeadingSpaces(ls[0])
    else
      var n := DetectIndent(ls[1..]);
      if (exists l :: l in ls[1..] && !Blank(l)) then n else if |ls[0]| > n then |ls[0]| else n
  }

  /** A line that belongs to content indented by n: an empty one of at most n
      spaces, or n spaces followed by something. */
  predicate Continues(line: string, n: nat) {
    && !DocumentMarker(line)
    && ((Blank(line) && |line| <= n) || (LeadingSpaces(line) >= n && |line| > n))
  }

  function ContentLines(ls: seq<string>, n: nat): (content: seq<string>)
    ensures |content| <= |ls|
  {
    if ls != [] && Continues(ls[0], n) then [ls[0]] + ContentLines(ls[1..], n) else []
  }

  function Unindent(line: string, n: nat): string {
    if |line| > n then line[n..] else ""
  }

  function UnindentAll(ls: seq<string>, n: nat): (out: seq<string>)
    ensures |out| == |ls|
    ensures forall i :: 0 <= i < |ls| ==> out[i] == Unindent(ls[i], n)
  {
    seq(|ls|, i requires 0 <= i < |ls| => Unindent(ls[i], n))
  }

  datatype Chomping = Strip | Clip | Keep

  function ParseHeader(line: string): Option<Chomping> {
    if line == "|-" then Some(Strip) else if line == "|" then Some(Clip)
    else if line == "|+" then Some(Keep) else None
  }

  function DropTrailingEmpty(ls: seq<string>): seq<string> {
    if ls != [] && ls[|ls| - 1] == "" then DropTrailingEmpty(ls[..|ls| - 1]) else ls
  }

  /** Section 8.1.1.2. */
  function Chomp(content: seq<string>, chomping: Chomping): string {
    var text := DropTrailingEmpty(content);
    match chomping
    case Strip => if text == [] then "" else Join(text)
    case Clip => if text == [] then "" else Join(text) + "\n"
    case Keep => if content == [] then "" else Join(content) + "\n"
  }

  /** The lines of a text; what follows the last line feed is a line if it is not empty. */
  function DocumentLines(text: string): seq<string> {
    EndOfLines(Lines(text))
  }

  function EndOfLines(pieces: seq<string>): seq<string>
    requires |pieces| > 0
  {
    if pieces[|pieces| - 1] == "" then pieces[..|pieces| - 1] else pieces
  }

  /** The content the reader finds in the lines under a block's header. */
  function ReadContent(ls: seq<string>, chomping: Chomping, parent: int): Option<string> {
    var n := DetectIndent(ls);
    if n <= parent then None else Some(Chomp(UnindentAll(ContentLines(ls, n), n), chomping))
  }

  /** The scalar a literal block at the start of `text` denotes; `parent` is the
      indentation of the node that holds it. */
  function ReadLiteral(text: string, parent: int): Option<string> {
    var ls := DocumentLines(text);
    if ls == [] || ParseHeader(ls[0]).None? then None
    else ReadContent(ls[1..], ParseHeader(ls[0]).value, parent)
  }

  // ---- The round trip ----

  lemma {:induction false} LeadingSpacesOfIndented(line: string, indent: nat)
    requires line != ""
    ensures LeadingSpaces(Spaces(indent) + line) == indent + LeadingSpaces(line)
  {
    if indent == 0 {
      assert Spaces(0) + line == line;
    } else {
      assert (Spaces(indent) + line)[1..] == Spaces(indent - 1) + line;
      LeadingSpacesOfIndented(line, indent - 1);
    }
  }

  lemma IndentedLineContinues(line: string, indent: nat)
    requires indent > 0 || !DocumentMarker(line)
    ensures Continues(IndentLine(line, indent), indent)
    ensures Unindent(IndentLine(line, indent), indent) == line
  {
    if line != "" {
      LeadingSpacesOfIndented(line, indent);
      if indent == 0 {
        assert Spaces(0) + line == line;
      } else {
        assert (Spaces(indent) + line)[0] == ' ';
      }
    }
  }

  /** The reader takes exactly the indented lines, when what follows does not continue them. */
  lemma {:induction false} ContentIsTheBlock(ls: seq<string>, indent: nat, after: seq<string>)
    requires forall i :: 0 <= i < |ls| ==> indent > 0 || !DocumentMarker(ls[i])
    requires after == [] || !Continues(after[0], indent)
    ensures ContentLines(IndentLines(ls, indent) + after, indent) == IndentLines(ls, indent)
  {
    var all := IndentLines(ls, indent) + after;
    if ls != [] {
      IndentedLineContinues(ls[0], indent);
      assert all[1..] == IndentLines(ls[1..], indent) + after;
      ContentIsTheBlock(ls[1..], indent, after);
    }
  }

  /** A text that does not end with a line feed ends with a non-empty piece. */
  lemma {:induction false} LastPiece(s: string)
    requires s != "" && s[|s| - 1] != '\n'
    ensures Lines(s)[|Lines(s)| - 1] != ""
  {
    if |s| > 1 {
      LastPiece(s[1..]);
    }
  }

  /** The first line of a safe string is not blank and has no leading space. */
  lemma FirstLine(s: string)
    requires IsLiteralSafe(s)
    ensures Lines(Body(s))[0] != "" && LeadingSpaces(Lines(Body(s))[0]) == 0
  {
    assert TrailingBreaks(s) < |s| by { NotAllBreaks(s); }
  }

  lemma {:induction false} NotAllBreaks(s: string)
    requires s != "" && s[0] != '\n'
    ensures TrailingBreaks(s) < |s|
  {
    if s[|s| - 1] == '\n' {
      NotAllBreaks(s[..|s| - 1]);
    }
  }

  lemma {:induction false} DropNothing(ls: seq<string>)
    requires ls != [] && ls[|ls| - 1] != ""
    ensures DropTrailingEmpty(ls) == ls
  {
  }

  /** Each chomping indicator brings back the line feeds the writer left out. */
  lemma {:induction false} ChompRestores(s: string)
    requires IsLiteralSafe(s)
    ensures Chomp(Lines(Body(s)), ParseHeader(Header(TrailingBreaks(s))).value) == s
  {
    var ls := Lines(Body(s));
    JoinOfLines(Body(s));
    if TrailingBreaks(s) == 0 {
      LastPiece(s);
      DropNothing(ls);
    } else if TrailingBreaks(s) == 1 {
      assert s == Body(s) + "\n";
      NotAllBreaks(s);
      LastPiece(Body(s));
      DropNothing(ls);
    } else {
      assert s == Body(s) + "\n";
    }
  }

  lemma IndentedOneLine(ls: seq<string>, indent: nat)
    requires forall i :: 0 <= i < |ls| ==> OneLine(ls[i])
    ensures forall i :: 0 <= i < |ls| ==> OneLine(IndentLines(ls, indent)[i])
  {
  }

  /** What the reader sees of a written block and the text after it. */
  lemma ReaderView(s: string, indent: nat, after: string)
    ensures DocumentLines(Literal(s, indent) + "\n" + after) ==
            [Header(TrailingBreaks(s))] + (IndentLines(Lines(Body(s)), indent) + DocumentLines(after))
  {
    IndentedOneLine(Lines(Body(s)), indent);
    LinesBelowHeader(Header(TrailingBreaks(s)), IndentLines(Lines(Body(s)), indent), after);
  }

  lemma LinesBelowHeader(header: string, ls: seq<string>, after: string)
    requires OneLine(header) && forall i :: 0 <= i < |ls| ==> OneLine(ls[i])
    ensures DocumentLines(Join([header] + ls) + "\n" + after) == [header] + (ls + DocumentLines(after))
  {
    var written := [header] + ls;
    assert forall i :: 0 <= i < |written| ==> written[i] == if i == 0 then header else ls[i - 1];
    LinesOfJoin(written, after);
    EndOfLinesAppend(written, Lines(after));
    Regroup(header, ls, DocumentLines(after));
  }

  lemma Regroup(header: string, a: seq<string>, b: seq<string>)
    ensures [header] + a + b == [header] + (a + b)
  {
  }

  lemma EndOfLinesAppend(a: seq<string>, b: seq<string>)
    requires |b| > 0
    ensures EndOfLines(a + b) == a + EndOfLines(b)
  {
    assert (a + b)[|a + b| - 1] == b[|b| - 1];
    assert (a + b)[..|a + b| - 1] == a + b[..|b| - 1];
  }

  /** The indentation the reader detects is the one written. */
  lemma DetectedIndent(s: string, indent: nat, rest: seq<string>)
    requires IsLiteralSafe(s)
    ensures DetectIndent(IndentLines(Lines(Body(s)), indent) + rest) == indent
  {
    FirstLine(s);
    LeadingSpacesOfIndented(Lines(Body(s))[0], indent);
  }

  lemma UnindentRestores(ls: seq<string>, indent: nat)
    requires indent > 0 || forall i :: 0 <= i < |ls| ==> !DocumentMarker(ls[i])
    ensures UnindentAll(IndentLines(ls, indent), indent) == ls
  {
    forall i | 0 <= i < |ls| ensures Unindent(IndentLine(ls[i], indent), indent) == ls[i] {
      IndentedLineContinues(ls[i], indent);
    }
  }

  /**
   Every literal-safe string is read back as itself, whatever its trailing line
   feeds, blank lines and inner indentation, and whatever follows the block
   without continuing it. Only at column 0, where the writer puts a top-level
   string, must no line be a document marker.
  */
  lemma RoundTrip(s: string, indent: nat, parent: int, after: string)
    requires IsLiteralSafe(s) && parent < indent
    requires DocumentLines(after) == [] || !Continues(DocumentLines(after)[0], indent)
    requires indent > 0 || forall i :: 0 <= i < |Lines(Body(s))| ==> !DocumentMarker(Lines(Body(s))[i])
    ensures ReadLiteral(Literal(s, indent) + "\n" + after, parent) == Some(s)
  {
    ReaderView(s, indent, after);
    DetectedIndent(s, indent, DocumentLines(after));
    ContentIsTheBlock(Lines(Body(s)), indent, DocumentLines(after));
    UnindentRestores(Lines(Body(s)), indent);
    ChompRestores(s);
  }

  // ---- A string at column 0 that contains a document marker ----

  lemma {:induction false} ContentStopsAt(ls: seq<string>, k: nat)
    requires k < |ls| && DocumentMarker(ls[k])
    ensures |ContentLines(ls, 0)| <= k
    ensures ContentLines(ls, 0) <= ls
  {
    if k > 0 && Continues(ls[0], 0) {
      ContentStopsAt(ls[1..], k - 1);
    }
  }

  lemma {:induction false} DropPrefix(ls: seq<string>)
    ensures DropTrailingEmpty(ls) <= ls
  {
    if ls != [] && ls[|ls| - 1] == "" {
      DropPrefix(ls[..|ls| - 1]);
    }
  }

  /** A chomped block has no non-empty piece beyond its lines. */
  lemma ChompedPieces(content: seq<string>, chomping: Chomping, k: nat)
    requires forall i :: 0 <= i < |content| ==> OneLine(content[i])
    requires |content| <= k < |Lines(Chomp(content, chomping))|
    ensures Lines(Chomp(content, chomping))[k] == ""
  {
    DropPrefix(content);
    var text := if chomping == Keep then content else DropTrailingEmpty(content);
    if text == [] {
      assert Lines("") == [""];
    } else if chomping == Strip {
      LinesOfJoinAlone(text);
    } else {
      LinesOfJoin(text, "");
      assert Join(text) + "\n" + "" == Join(text) + "\n";
      assert Lines(Join(text) + "\n") == text + [""];
    }
  }

  lemma {:induction false} LinesOfJoinAlone(ls: seq<string>)
    requires |ls| > 0 && forall i :: 0 <= i < |ls| ==> OneLine(ls[i])
    ensures Lines(Join(ls)) == ls
  {
    if |ls| == 1 {
      LinesOfOneLine(ls[0]);
    } else {
      LinesAfterBreak(ls[0], Join(ls[1..]));
      LinesOfJoinAlone(ls[1..]);
    }
  }

  lemma NoIndent(ls: seq<string>)
    ensures IndentLines(ls, 0) == ls && UnindentAll(ls, 0) == ls
  {
    forall i | 0 <= i < |ls| ensures IndentLine(ls[i], 0) == ls[i] && Unindent(ls[i], 0) == ls[i] {
      assert Spaces(0) + ls[i] == ls[i];
    }
  }

  /** A top-level string with a line that is a document marker is not read back:
      the round trip at column 0 holds exactly without one. */
  lemma MarkerBreaksTopLevel(s: string, k: nat)
    requires IsLiteralSafe(s)
    requires k < |Lines(Body(s))| && DocumentMarker(Lines(Body(s))[k])
    ensures ReadLiteral(Literal(s, 0) + "\n", -1) != Some(s)
  {
    var ls := Lines(Body(s));
    var chomping := ParseHeader(Header(TrailingBreaks(s))).value;
    assert Literal(s, 0) + "\n" == Literal(s, 0) + "\n" + "";
    ReaderView(s, 0, "");
    DetectedIndent(s, 0, []);
    NoIndent(ls);
    assert ls + DocumentLines("") == ls;
    var content := ContentLines(ls, 0);
    ContentStopsAt(ls, k);
    NoIndent(content);
    if Chomp(content, chomping) == s {
      PieceOfString(s, k);
      ChompedPieces(content, chomping, k);
    }
  }

  /** Some line of the string is a document marker. */
  ghost predicate HasMarker(s: string) {
    exists k :: 0 <= k < |Lines(Body(s))| && DocumentMarker(Lines(Body(s))[k])
  }

  /** At column 0 a literal-safe string is read back if and only if no line of it is a
      document marker. */
  lemma TopLevelExactly(s: string)
    requires IsLiteralSafe(s)
    ensures ReadLiteral(Literal(s, 0) + "\n", -1) == Some(s) <==> !HasMarker(s)
  {
    if k :| 0 <= k < |Lines(Body(s))| && DocumentMarker(Lines(Body(s))[k]) {
      MarkerBreaksTopLevel(s, k);
    } else {
      assert Literal(s, 0) + "\n" == Literal(s, 0) + "\n" + "";
      RoundTrip(s, 0, -1, "");
    }
  }

  /** Such a string, which is_literal_safe lets through. */
  lemma MarkerExample()
    ensures IsLiteralSafe("a\n---") && ReadLiteral(Literal("a\n---", 0) + "\n", -1) != Some("a\n---")
  {
    LinesAfterBreak("a", "---");
    assert "a" + "\n" + "---" == "a\n---";
    LinesOfOneLine("---");
    assert Body("a\n---") == "a\n---";
    MarkerBreaksTopLevel("a\n---", 1);
  }

  /** The pieces of a string are its body's, and an empty one after a final line feed. */
  lemma PieceOfString(s: string, k: nat)
    requires k < |Lines(Body(s))|
    ensures k < |Lines(s)| && Lines(s)[k] == Lines(Body(s))[k]
  {
    if TrailingBreaks(s) > 0 {
      assert s == Body(s) + "\n" + "";
      JoinOfLines(Body(s));
      LinesOfJoin(Lines(Body(s)), "");
    }
  }
}
