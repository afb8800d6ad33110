/**
 The base64 codec of the plugin upload route: the encoding of section 4 of
 RFC 4648, decoded leniently about whitespace and about how many '=' follow the
 data, strictly about the alphabet and the leftover bits (section 3.5).
*/
module Base64 {
  import opened Wrappers

  type byte = x: int | 0 <= x < 256
  type sextet = x: int | 0 <= x < 64

  const WORD := 0x1_0000_0000  // the decoder's accumulator is a 32-bit word

  predicate IsSpace(c: char) {
    c == ' ' || c == '\n' || c == '\r' || c == '\t'
  }

  predicate InAlphabet(c: char) {
    'A' <= c <= 'Z' || 'a' <= c <= 'z' || '0' <= c <= '9' || c == '+' || c == '/'
  }

  /** Table 1 of RFC 4648. */
  function Letter(v: sextet): (c: char)
    ensures InAlphabet(c) && c != '=' && !IsSpace(c)
    ensures TableValue(c) == v
  {
    if v < 26 then ('A' as int + v) as char
    else if v < 52 then ('a' as int + (v - 26)) as char
    else if v < 62 then ('0' as int + (v - 52)) as char
    else if v == 62 then '+'
    else '/'
  }

  /** The decoding table; -1 marks characters outside the alphabet. */
  function TableValue(c: char): (v: int)
    ensures -1 <= v < 64
    ensures v >= 0 <==> InAlphabet(c)
  {
    if 'A' <= c <= 'Z' then c as int - 'A' as int
    else if 'a' <= c <= 'z' then c as int - 'a' as int + 26
    else if '0' <= c <= '9' then c as int - '0' as int + 52
    else if c == '+' then 62
    else if c == '/' then 63
    else -1
  }

  lemma {:induction false} LetterOfTableValue(c: char)
    requires InAlphabet(c)
    ensures Letter(TableValue(c)) == c
  {
  }

  // ---- Digit strings as numbers ----

  /** Digits are sextets or bytes. */
  type Base = b: nat | b == 64 || b == 256 witness 64

  /** n * base */
  function OneUp(base: Base, n: int): int {
    if base == 64 then n * 64 else n * 256
  }

  /** The number whose base-`base` digits, most significant first, are `digits`. */
  function Value(base: Base, digits: seq<int>): int {
    if digits == [] then 0 else OneUp(base, Value(base, digits[..|digits| - 1])) + digits[|digits| - 1]
  }

  ghost predicate Digits(base: Base, digits: seq<int>) {
    forall i :: 0 <= i < |digits| ==> 0 <= digits[i] < base
  }

  lemma {:induction false} ValueAppend(base: Base, digits: seq<int>, d: int)
    ensures Value(base, digits + [d]) == OneUp(base, Value(base, digits)) + d
  {
    assert (digits + [d])[..|digits|] == digits;
  }

  lemma {:induction false} QuotientIsUnique(base: int, q: int, q': int, r: int, r': int)
    requires 0 <= r < base && 0 <= r' < base
    requires q * base + r == q' * base + r'
    ensures q == q' && r == r'
  {
    assert (q - q') * base == r' - r;
    var d := q - q';
    assert d >= 1 ==> d * base >= base;
    assert d <= -1 ==> d * base <= -base;
  }

  lemma {:induction false} Division(n: nat, d: nat, q: nat, r: nat)
    requires n == q * d + r && r < d
    ensures n / d == q && n % d == r
  {
    QuotientIsUnique(d, q, n / d, r, n % d);
  }

  /** Digit strings of one length that denote one number are the same string. */
  lemma {:induction false} ValueIsInjective(base: Base, a: seq<int>, b: seq<int>)
    requires |a| == |b| && Digits(base, a) && Digits(base, b)
    requires Value(base, a) == Value(base, b)
    ensures a == b
  {
    if a != [] {
      var n := |a| - 1;
      QuotientIsUnique(base, Value(base, a[..n]), Value(base, b[..n]), a[n], b[n]);
      ValueIsInjective(base, a[..n], b[..n]);
      assert a == a[..n] + [a[n]] && b == b[..n] + [b[n]];
    }
  }

  // ---- The encoding of section 4 ----

  /** How many of n bytes are in whole 24-bit groups. */
  function Whole(n: nat): (w: nat)
    ensures w <= n < w + 3
  {
    if n < 3 then 0 else 3 + Whole(n - 3)
  }

  lemma {:induction false} WholeUpTo(n: nat, whole: nat)
    requires Whole(whole) == whole <= n < whole + 3
    ensures Whole(n) == whole
  {
    if whole > 0 { WholeUpTo(n - 3, whole - 3); }
  }

  lemma {:induction false} WholeIsWhole(n: nat)
    ensures Whole(Whole(n)) == Whole(n)
  {
    if n >= 3 { WholeIsWhole(n - 3); }
  }

  /** How many bits the sextets carry beyond the bytes. */
  function SpareBits(n: nat): (k: nat)
    ensures Leftover(k) && k < 6
  {
    if n == Whole(n) then 0 else if n == Whole(n) + 1 then 4 else 2
  }

  /** How many bits can be left over between two characters. */
  predicate Leftover(bits: int) {
    bits == 0 || bits == 2 || bits == 4 || bits == 6
  }

  /** n << bits */
  function ShiftLeft(n: int, bits: nat): int
    requires Leftover(bits)
  {
    if bits == 0 then n else if bits == 2 then n * 4 else if bits == 4 then n * 16 else n * 64
  }

  /** (acc >> bits) & 0xff */
  function ByteAbove(acc: nat, bits: nat): byte
    requires Leftover(bits)
  {
    if bits == 0 then acc % 256 else if bits == 2 then acc / 4 % 256
    else if bits == 4 then acc / 16 % 256 else acc / 64 % 256
  }

  /** acc & ((1 << bits) - 1) */
  function LowBits(acc: nat, bits: nat): (low: nat)
    requires Leftover(bits)
    ensures low < ShiftLeft(1, bits)
  {
    if bits == 0 then 0 else if bits == 2 then acc % 4 else if bits == 4 then acc % 16 else acc % 64
  }

  /** The four sextets of the 24-bit group x, y, z. */
  function Sextet1(x: byte): sextet { x / 4 }
  function Sextet2(x: byte, y: byte): sextet { x % 4 * 16 + y / 16 }
  function Sextet3(y: byte, z: byte): sextet { y % 16 * 4 + z / 64 }
  function Sextet4(z: byte): sextet { z % 64 }

  /** Whole 24-bit groups cut in four. */
  function Groups(bytes: seq<byte>): seq<sextet> {
    var n := |bytes|;
    if n < 3 then []
    else
      var x, y, z := bytes[n - 3], bytes[n - 2], bytes[n - 1];
      Groups(bytes[..n - 3]) + [Sextet1(x), Sextet2(x, y), Sextet3(y, z), Sextet4(z)]
  }

  /** The final partial group, filled up with zero bits. */
  function LastSextets(rest: seq<byte>): seq<sextet>
    requires |rest| < 3
  {
    if rest == [] then []
    else if |rest| == 1 then [Sextet1(rest[0]), Sextet2(rest[0], 0)]
    else [Sextet1(rest[0]), Sextet2(rest[0], rest[1]), Sextet3(rest[1], 0)]
  }

  function Sextets(bytes: seq<byte>): seq<sextet> {
    var whole := Whole(|bytes|);
    Groups(bytes[..whole]) + LastSextets(bytes[whole..])
  }

  lemma {:induction false} SextetsAre(bytes: seq<byte>, whole: nat)
    requires Whole(whole) == whole <= |bytes| < whole + 3
    ensures Sextets(bytes) == Groups(bytes[..whole]) + LastSextets(bytes[whole..])
    ensures Padding(|bytes|) == (if |bytes| == whole then "" else if |bytes| == whole + 1 then "==" else "=")
  {
    WholeUpTo(|bytes|, whole);
  }

  lemma {:induction false} GroupsCount(bytes: seq<byte>)
    requires Whole(|bytes|) == |bytes|
    ensures 6 * |Groups(bytes)| == 8 * |bytes|
  {
    if bytes != [] {
      GroupsCount(bytes[..|bytes| - 3]);
    }
  }

  lemma {:induction false} SextetCount(bytes: seq<byte>)
    ensures 6 * |Sextets(bytes)| == 8 * |bytes| + SpareBits(|bytes|)
  {
    WholeIsWhole(|bytes|);
    GroupsCount(bytes[..Whole(|bytes|)]);
  }

  function Letters(sextets: seq<sextet>): (out: string)
    ensures |out| == |sextets|
    ensures forall i :: 0 <= i < |out| ==> out[i] == Letter(sextets[i])
  {
    seq(|sextets|, i requires 0 <= i < |sextets| => Letter(sextets[i]))
  }

  function Padding(n: nat): string {
    if n == Whole(n) then "" else if n == Whole(n) + 1 then "==" else "="
  }

  function Encode(bytes: seq<byte>): string {
    Letters(Sextets(bytes)) + Padding(|bytes|)
  }

  lemma {:induction false} ValueAppend2(base: Base, digits: seq<int>, d: int, e: int)
    ensures Value(base, digits + [d, e]) == OneUp(base, OneUp(base, Value(base, digits)) + d) + e
  {
    ValueAppend(base, digits, d);
    ValueAppend(base, digits + [d], e);
    assert digits + [d, e] == digits + [d] + [e];
  }

  lemma {:induction false} FourSextets(sextets: seq<int>, a: sextet, b: sextet, c: sextet, d: sextet)
    ensures Value(64, sextets + [a, b, c, d]) ==
            Value(64, sextets) * 0x100_0000 + (a * 262144 + b * 4096 + c * 64 + d)
  {
    ValueAppend2(64, sextets, a, b);
    ValueAppend2(64, sextets + [a, b], c, d);
    assert sextets + [a, b] + [c, d] == sextets + [a, b, c, d];
  }

  lemma {:induction false} ThreeBytes(bytes: seq<int>, x: byte, y: byte, z: byte)
    ensures Value(256, bytes + [x, y, z]) == Value(256, bytes) * 0x100_0000 + Group(x, y, z)
  {
    ValueAppend2(256, bytes, x, y);
    ValueAppend(256, bytes + [x, y], z);
    assert bytes + [x, y] + [z] == bytes + [x, y, z];
  }

  /** The sextets of one more group carry its bits. */
  lemma {:induction false} FullGroup(sextets: seq<int>, bytes: seq<int>, x: byte, y: byte, z: byte)
    requires Value(64, sextets) == Value(256, bytes)
    ensures Value(64, sextets + [Sextet1(x), Sextet2(x, y), Sextet3(y, z), Sextet4(z)])
         == Value(256, bytes + [x, y, z])
  {
    var a, b, c, d := Sextet1(x), Sextet2(x, y), Sextet3(y, z), Sextet4(z);
    FourSextets(sextets, a, b, c, d);
    ThreeBytes(bytes, x, y, z);
    GroupIsSextets(x, y, z);
  }

  lemma {:induction false} PartialGroup(sextets: seq<int>, bytes: seq<int>, x: byte, y: byte)
    requires Value(64, sextets) == Value(256, bytes)
    ensures Value(64, sextets + [Sextet1(x), Sextet2(x, 0)]) == Value(256, bytes + [x]) * 16
    ensures Value(64, sextets + [Sextet1(x), Sextet2(x, y), Sextet3(y, 0)]) == Value(256, bytes + [x, y]) * 4
  {
    ValueAppend2(64, sextets, Sextet1(x), Sextet2(x, 0));
    ValueAppend(256, bytes, x);
    ValueAppend2(64, sextets, Sextet1(x), Sextet2(x, y));
    ValueAppend(64, sextets + [Sextet1(x), Sextet2(x, y)], Sextet3(y, 0));
    assert sextets + [Sextet1(x), Sextet2(x, y)] + [Sextet3(y, 0)] ==
           sextets + [Sextet1(x), Sextet2(x, y), Sextet3(y, 0)];
    ValueAppend2(256, bytes, x, y);
  }

  lemma {:induction false} GroupsCarryTheBits(bytes: seq<byte>)
    requires Whole(|bytes|) == |bytes|
    ensures Value(64, Groups(bytes)) == Value(256, bytes)
  {
    if bytes != [] {
      var n := |bytes|;
      var front := bytes[..n - 3];
      GroupsCarryTheBits(front);
      FullGroup(Groups(front), front, bytes[n - 3], bytes[n - 2], bytes[n - 1]);
      assert bytes == front + [bytes[n - 3], bytes[n - 2], bytes[n - 1]];
    }
  }

  lemma {:induction false} RestCarries(sextets: seq<int>, whole: seq<int>, rest: seq<byte>)
    requires Value(64, sextets) == Value(256, whole) && |rest| < 3
    ensures Value(64, sextets + LastSextets(rest)) ==
            ShiftLeft(Value(256, whole + rest), if rest == [] then 0 else if |rest| == 1 then 4 else 2)
  {
    if rest == [] {
      assert whole + rest == whole && sextets + [] == sextets;
    } else if |rest| == 1 {
      assert rest == [rest[0]];
      PartialGroup(sextets, whole, rest[0], 0);
    } else {
      assert rest == [rest[0], rest[1]];
      PartialGroup(sextets, whole, rest[0], rest[1]);
    }
  }

  /** The sextets carry the same bits as the bytes, followed by zero bits. */
  lemma {:induction false} SextetsCarryTheBits(bytes: seq<byte>)
    ensures Value(64, Sextets(bytes)) == ShiftLeft(Value(256, bytes), SpareBits(|bytes|))
  {
    var i := Whole(|bytes|);
    var whole, rest := bytes[..i], bytes[i..];
    WholeIsWhole(|bytes|);
    GroupsCarryTheBits(whole);
    RestCarries(Groups(whole), whole, rest);
    SplitAt(bytes, i);
  }

  lemma {:induction false} SplitAt(bytes: seq<byte>, i: nat)
    requires i <= |bytes|
    ensures bytes[..i] + bytes[i..] == bytes
  {
  }

  // ---- What a text carries ----

  predicate IsData(c: char) {
    !IsSpace(c) && c != '='
  }

  /** The text without whitespace and '='. */
  function Data(text: string): string {
    if text == "" then ""
    else
      var c := text[|text| - 1];
      Data(text[..|text| - 1]) + if IsData(c) then [c] else ""
  }

  function PadCount(text: string): nat {
    if text == "" then 0
    else PadCount(text[..|text| - 1]) + if text[|text| - 1] == '=' then 1 else 0
  }

  /** No data after the first '='. */
  predicate PaddingIsLast(text: string) {
    text == "" ||
    (PaddingIsLast(text[..|text| - 1]) && (IsData(text[|text| - 1]) ==> PadCount(text[..|text| - 1]) == 0))
  }

  /** The texts that denote `bytes`: whitespace anywhere, at most two '=' and
      those after the data, the data being exactly the encoding's. */
  ghost predicate Denotes(text: string, bytes: seq<byte>) {
    && PaddingIsLast(text)
    && PadCount(text) <= 2
    && Data(text) == Letters(Sextets(bytes))
  }

  ghost predicate AllInAlphabet(data: string) {
    forall i :: 0 <= i < |data| ==> InAlphabet(data[i])
  }

  function Values(data: string): (v: seq<int>)
    ensures |v| == |data|
    ensures forall i :: 0 <= i < |data| ==> v[i] == TableValue(data[i])
  {
    seq(|data|, i requires 0 <= i < |data| => TableValue(data[i]))
  }

  // ---- Encoding ----

  /** (n >> shift) & 63, for the shift that divides by `unit` */
  function SixBits(n: nat, unit: nat): sextet
    requires unit > 0
  {
    n / unit % 64
  }

  /** The 24-bit group with the bytes x, y, z. */
  function Group(x: byte, y: byte, z: byte): nat {
    x as int * 65536 + y as int * 256 + z as int
  }

  function GroupText(n: nat): string {
    [Letter(SixBits(n, 262144)), Letter(SixBits(n, 4096)), Letter(SixBits(n, 64)), Letter(SixBits(n, 1))]
  }

  function LastGroupText(n: nat, two: bool): string {
    [Letter(SixBits(n, 262144)), Letter(SixBits(n, 4096)), if two then Letter(SixBits(n, 64)) else '=', '=']
  }

  /** The encoder's loop over whole groups, then the partial group. */
  method EncodeBytes(bytes: seq<byte>) returns (out: string)
    ensures out == Encode(bytes)
  {
    out := "";
    var i := 0;
    while i + 2 < |bytes|
      invariant i <= |bytes| && Whole(i) == i
      invariant out == Letters(Groups(bytes[..i]))
    {
      WholeGroup(bytes, i);
      out := out + GroupText(Group(bytes[i], bytes[i + 1], bytes[i + 2]));
      i := i + 3;
    }
    if i < |bytes| {
      var two := i + 1 < |bytes|;
      if two { TwoBytesLeft(bytes, i); } else { OneByteLeft(bytes, i); }
      out := out + LastGroupText(Group(bytes[i], if two then bytes[i + 1] else 0, 0), two);
    } else {
      NoLastGroup(bytes);
    }
  }

  lemma {:induction false} GroupLetters(x: byte, y: byte, z: byte)
    ensures GroupText(Group(x, y, z)) == Letters([Sextet1(x), Sextet2(x, y), Sextet3(y, z), Sextet4(z)])
    ensures z == 0 ==> LastGroupText(Group(x, y, z), true) == Letters([Sextet1(x), Sextet2(x, y), Sextet3(y, 0)]) + "="
    ensures y == z == 0 ==> LastGroupText(Group(x, y, z), false) == Letters([Sextet1(x), Sextet2(x, 0)]) + "=="
  {
    GroupBits(x, y, z);
  }

  lemma {:induction false} LettersOfConcat(a: seq<sextet>, b: seq<sextet>)
    ensures Letters(a + b) == Letters(a) + Letters(b)
  {
  }

  lemma {:induction false} WholeGroup(bytes: seq<byte>, i: nat)
    requires Whole(i) == i && i + 2 < |bytes|
    ensures Letters(Groups(bytes[..i + 3])) ==
              Letters(Groups(bytes[..i])) + GroupText(Group(bytes[i], bytes[i + 1], bytes[i + 2]))
  {
    var x, y, z := bytes[i], bytes[i + 1], bytes[i + 2];
    assert bytes[..i + 3][..i] == bytes[..i];
    LettersOfConcat(Groups(bytes[..i]), [Sextet1(x), Sextet2(x, y), Sextet3(y, z), Sextet4(z)]);
    GroupLetters(x, y, z);
  }

  lemma {:induction false} OneByteLeft(bytes: seq<byte>, i: nat)
    requires Whole(i) == i && |bytes| == i + 1
    ensures Encode(bytes) == Letters(Groups(bytes[..i])) + LastGroupText(Group(bytes[i], 0, 0), false)
  {
    SextetsAre(bytes, i);
    assert bytes[i..] == [bytes[i]];
    LettersOfConcat(Groups(bytes[..i]), [Sextet1(bytes[i]), Sextet2(bytes[i], 0)]);
    GroupLetters(bytes[i], 0, 0);
  }

  lemma {:induction false} TwoBytesLeft(bytes: seq<byte>, i: nat)
    requires Whole(i) == i && |bytes| == i + 2
    ensures Encode(bytes) == Letters(Groups(bytes[..i])) + LastGroupText(Group(bytes[i], bytes[i + 1], 0), true)
  {
    var x, y := bytes[i], bytes[i + 1];
    SextetsAre(bytes, i);
    assert bytes[i..] == [x, y];
    LettersOfConcat(Groups(bytes[..i]), [Sextet1(x), Sextet2(x, y), Sextet3(y, 0)]);
    GroupLetters(x, y, 0);
  }

  lemma {:induction false} NoLastGroup(bytes: seq<byte>)
    requires Whole(|bytes|) == |bytes|
    ensures Encode(bytes) == Letters(Groups(bytes))
  {
    assert bytes[..|bytes|] == bytes;
    assert Groups(bytes) + [] == Groups(bytes);
    assert Letters(Sextets(bytes)) + "" == Letters(Sextets(bytes));
  }

  lemma {:induction false} GroupIsSextets(x: byte, y: byte, z: byte)
    ensures Group(x, y, z) ==
            Sextet1(x) * 262144 + Sextet2(x, y) * 4096 + Sextet3(y, z) * 64 + Sextet4(z)
  {
    assert x == 4 * (x / 4) + x % 4 && y == 16 * (y / 16) + y % 16 && z == 64 * (z / 64) + z % 64;
  }

  /** Cutting a 24-bit group in four, and in its bytes' bits. */
  lemma {:induction false} GroupBits(x: byte, y: byte, z: byte)
    ensures var n := Group(x, y, z);
            && SixBits(n, 262144) == Sextet1(x)
            && SixBits(n, 4096) == Sextet2(x, y)
            && SixBits(n, 64) == Sextet3(y, z)
            && SixBits(n, 1) == Sextet4(z)
  {
    var n: nat := Group(x, y, z);
    var a: nat, b: nat, c: nat, d: nat := Sextet1(x), Sextet2(x, y), Sextet3(y, z), Sextet4(z);
    GroupIsSextets(x, y, z);
    Division(n, 262144, a, b * 4096 + c * 64 + d);
    Division(a, 64, 0, a);
    Division(n, 4096, a * 64 + b, c * 64 + d);
    Division(a * 64 + b, 64, a, b);
    Division(n, 64, a * 4096 + b * 64 + c, d);
    Division(a * 4096 + b * 64 + c, 64, a * 64 + b, c);
    Division(n, 1, n, 0);
  }

  // ---- Decoding ----

  /** The accumulator after one more sextet, shifted in a 32-bit word. */
  function ShiftIn(acc: nat, v: sextet): nat {
    acc * 64 % WORD + v
  }

  /** What the decoder's loop knows after reading `text`. */
  ghost predicate Reading(text: string, out: seq<byte>, acc: nat, bits: nat, padding: nat) {
    && PaddingIsLast(text) && padding == PadCount(text)
    && AllInAlphabet(Data(text))
    && Leftover(bits) && acc < WORD
    && 6 * |Data(text)| == 8 * |out| + bits
    && Value(64, Values(Data(text))) == ShiftLeft(Value(256, out), bits) + LowBits(acc, bits)
  }

  /** The bits shifted out of the word are above the 26 lowest. */
  lemma {:induction false} DropHighBits(acc: nat)
    ensures acc * 64 % WORD == acc % 0x400_0000 * 64
    ensures acc % 0x400_0000 % 64 == acc % 64 && acc % 0x400_0000 % 16 == acc % 16 && acc % 0x400_0000 % 4 == acc % 4
  {
    var q, m := acc / 0x400_0000, acc % 0x400_0000;
    Division(acc * 64, WORD, q, m * 64);
    Division(acc, 64, q * 0x10_0000 + m / 64, m % 64);
    Division(acc, 16, q * 0x40_0000 + m / 16, m % 16);
    Division(acc, 4, q * 0x100_0000 + m / 4, m % 4);
  }

  lemma {:induction false} ByteFrom4(m: nat, v: sextet)
    ensures (m * 64 + v) / 4 % 256 == m % 16 * 16 + v / 4 && (m * 64 + v) % 4 == v % 4
  {
    Division(m * 64 + v, 4, m * 16 + v / 4, v % 4);
    Division(m * 16 + v / 4, 256, m / 16, m % 16 * 16 + v / 4);
  }

  lemma {:induction false} ByteFrom6(m: nat, v: sextet)
    ensures (m * 64 + v) / 16 % 256 == m % 64 * 4 + v / 16 && (m * 64 + v) % 16 == v % 16
  {
    Division(m * 64 + v, 16, m * 4 + v / 16, v % 16);
    Division(m * 4 + v / 16, 256, m / 64, m % 64 * 4 + v / 16);
  }

  lemma {:induction false} ByteFrom2(m: nat, v: sextet)
    ensures (m * 64 + v) % 256 == m % 4 * 64 + v && (m * 64 + v) % 64 == v
  {
    Division(m * 64 + v, 256, m / 4, m % 4 * 64 + v);
    Division(m * 64 + v, 64, m, v);
  }

  /** One sextet into the word: no wrap-around reaches the bits in use. */
  lemma {:induction false} WordBits(acc: nat, bits: nat, v: sextet)
    requires Leftover(bits)
    ensures
      var acc' := ShiftIn(acc, v);
      && acc' < WORD
      && LowBits(acc, bits) * 64 + v ==
           if bits == 0 then LowBits(acc', 6)
           else ShiftLeft(ByteAbove(acc', bits - 2), bits - 2) + LowBits(acc', bits - 2)
  {
    var m := acc % 0x400_0000;
    DropHighBits(acc);
    assert ShiftIn(acc, v) == m * 64 + v;
    if bits == 6 {
      ByteFrom6(m, v);
    } else if bits == 4 {
      ByteFrom4(m, v);
    } else {
      ByteFrom2(m, v);
    }
  }

  lemma {:induction false} DataAppend(text: string, c: char)
    ensures Data(text + [c]) == Data(text) + if IsData(c) then [c] else ""
    ensures PadCount(text + [c]) == PadCount(text) + if c == '=' then 1 else 0
    ensures PaddingIsLast(text + [c]) <==> PaddingIsLast(text) && (IsData(c) ==> PadCount(text) == 0)
  {
    assert (text + [c])[..|text|] == text;
  }

  /** Before a sextet is read the number read is the bytes' number and the bits left
      over; so it is after. */
  lemma {:induction false} NumberRead(acc: nat, bits: nat, v: sextet, number: int, bytes: int)
    requires Leftover(bits) && number == ShiftLeft(bytes, bits) + LowBits(acc, bits)
    ensures
      var acc' := ShiftIn(acc, v);
      && acc' < WORD
      && number * 64 + v ==
        if bits == 0 then ShiftLeft(bytes, 6) + LowBits(acc', 6)
        else ShiftLeft(bytes * 256 + ByteAbove(acc', bits - 2), bits - 2) + LowBits(acc', bits - 2)
  {
    WordBits(acc, bits, v);
  }

  lemma {:induction false} ValuesAppend(data: string, c: char)
    ensures Value(64, Values(data + [c])) == Value(64, Values(data)) * 64 + TableValue(c)
  {
    assert Values(data + [c]) == Values(data) + [TableValue(c)];
    ValueAppend(64, Values(data), TableValue(c));
  }

  lemma {:induction false} DataRead(text: string, c: char)
    requires PaddingIsLast(text) && PadCount(text) == 0 && AllInAlphabet(Data(text)) && IsData(c) && InAlphabet(c)
    ensures PaddingIsLast(text + [c]) && PadCount(text + [c]) == 0
    ensures |Data(text + [c])| == |Data(text)| + 1 && AllInAlphabet(Data(text + [c]))
    ensures Value(64, Values(Data(text + [c]))) == Value(64, Values(Data(text))) * 64 + TableValue(c)
  {
    DataAppend(text, c);
    ValuesAppend(Data(text), c);
  }

  /** One data character. */
  lemma {:induction false} ReadData(text: string, c: char, out: seq<byte>, acc: nat, bits: nat)
    requires Reading(text, out, acc, bits, 0) && IsData(c) && InAlphabet(c)
    ensures
      var acc' := ShiftIn(acc, TableValue(c));
      if bits + 6 >= 8
      then Reading(text + [c], out + [ByteAbove(acc', bits - 2)], acc', bits - 2, 0)
      else Reading(text + [c], out, acc', bits + 6, 0)
  {
    var v := TableValue(c);
    DataRead(text, c);
    NumberRead(acc, bits, v, Value(64, Values(Data(text))), Value(256, out));
    if bits + 6 >= 8 {
      ValueAppend(256, out, ByteAbove(ShiftIn(acc, v), bits - 2));
    }
  }

  /** Whitespace and '=' carry no bits. */
  lemma {:induction false} ReadOther(text: string, c: char, out: seq<byte>, acc: nat, bits: nat, padding: nat)
    requires Reading(text, out, acc, bits, padding) && !IsData(c)
    ensures Reading(text + [c], out, acc, bits, padding + if c == '=' then 1 else 0)
  {
    DataAppend(text, c);
    assert Data(text) + "" == Data(text);
  }

  /** A text the loop stops at denotes nothing, however it continues. */
  lemma {:induction false} StopsForGood(text: string, i: nat, bytes: seq<byte>)
    requires i < |text|
    requires IsData(text[i])
    requires PadCount(text[..i]) > 0 || !InAlphabet(text[i])
    ensures !Denotes(text, bytes)
  {
    assert text[..i + 1][..i] == text[..i];
    if PadCount(text[..i]) > 0 {
      assert !PaddingIsLast(text[..i + 1]);
      BadLayoutStays(text, i + 1);
    } else {
      assert Data(text[..i + 1]) == Data(text[..i]) + [text[i]];
      DataGrows(text, i + 1);
      var d := Data(text);
      assert d[|Data(text[..i])|] == text[i];
    }
  }

  lemma {:induction false} BadLayoutStays(text: string, i: nat)
    requires i <= |text| && !PaddingIsLast(text[..i])
    ensures !PaddingIsLast(text)
  {
    if i == |text| {
      assert text[..i] == text;
    } else {
      assert text[..|text| - 1][..i] == text[..i];
      BadLayoutStays(text[..|text| - 1], i);
    }
  }

  lemma {:induction false} DataGrows(text: string, i: nat)
    requires i <= |text|
    ensures Data(text[..i]) <= Data(text)
  {
    if i == |text| {
      assert text[..i] == text;
    } else {
      assert text[..|text| - 1][..i] == text[..i];
      DataGrows(text[..|text| - 1], i);
    }
  }

  /** Data of the right length whose number is the bytes', shifted, is their encoding. */
  lemma {:induction false} DataIsEncoding(data: string, bytes: seq<byte>)
    requires AllInAlphabet(data)
    requires 6 * |data| == 8 * |bytes| + SpareBits(|bytes|)
    ensures Value(64, Values(data)) == ShiftLeft(Value(256, bytes), SpareBits(|bytes|)) ==>
              data == Letters(Sextets(bytes))
  {
    if Value(64, Values(data)) != ShiftLeft(Value(256, bytes), SpareBits(|bytes|)) { return; }
    SextetCount(bytes);
    SextetsCarryTheBits(bytes);
    ValueIsInjective(64, Values(data), Sextets(bytes));
    forall i | 0 <= i < |data| ensures data[i] == Letters(Sextets(bytes))[i] {
      LetterOfTableValue(data[i]);
    }
  }

  lemma {:induction false} EncodingIsData(data: string, bytes: seq<byte>)
    requires data == Letters(Sextets(bytes))
    ensures 6 * |data| == 8 * |bytes| + SpareBits(|bytes|)
    ensures Value(64, Values(data)) == ShiftLeft(Value(256, bytes), SpareBits(|bytes|))
  {
    SextetCount(bytes);
    SextetsCarryTheBits(bytes);
    assert Values(data) == Sextets(bytes);
  }

  lemma {:induction false} BitCount(d: nat, n: nat, bits: nat)
    requires 6 * d == 8 * n + bits && bits < 6
    ensures bits == SpareBits(n)
  {
    if n >= 3 { BitCount(d - 4, n - 3, bits); }
  }

  /** Data of so many characters is the encoding of one number of bytes only. */
  lemma {:induction false} ByteCount(d: nat, n: nat, bits: nat, k: nat)
    requires 6 * d == 8 * n + bits && bits < 8 && 6 * d == 8 * k + SpareBits(k)
    ensures k == n && bits == SpareBits(k)
  {
  }

  lemma {:induction false} NoLowBits(x: int, y: int, bits: nat, low: nat)
    requires Leftover(bits) && low < ShiftLeft(1, bits)
    requires ShiftLeft(x, bits) == ShiftLeft(y, bits) + low
    ensures low == 0
  {
  }

  /** Where the data read is an encoding, no bit is left over. */
  lemma {:induction false} NothingLeftOver(
    text: string, out: seq<byte>, acc: nat, bits: nat, padding: nat, b: seq<byte>)
    requires Reading(text, out, acc, bits, padding) && Data(text) == Letters(Sextets(b))
    ensures bits < 6 && LowBits(acc, bits) == 0
  {
    EncodingIsData(Data(text), b);
    ByteCount(|Data(text)|, |out|, bits, |b|);
    NoLowBits(Value(256, b), Value(256, out), bits, LowBits(acc, bits));
  }

  /** The leftover-bits check decides whether the data is an encoding at all. */
  lemma {:induction false} LeftoverBits(text: string, out: seq<byte>, acc: nat, bits: nat, padding: nat)
    requires Reading(text, out, acc, bits, padding)
    ensures bits < 6 && LowBits(acc, bits) == 0 ==> Data(text) == Letters(Sextets(out))
    ensures !(bits < 6 && LowBits(acc, bits) == 0) ==> forall b: seq<byte> :: Data(text) != Letters(Sextets(b))
  {
    if bits < 6 && LowBits(acc, bits) == 0 {
      BitCount(|Data(text)|, |out|, bits);
      DataIsEncoding(Data(text), out);
    } else {
      forall b: seq<byte> ensures Data(text) != Letters(Sextets(b)) {
        if Data(text) == Letters(Sextets(b)) { NothingLeftOver(text, out, acc, bits, padding, b); }
      }
    }
  }

  /**
   The decoder: one pass, six bits a character into a 32-bit word, a byte out
   whenever eight are in. It returns the byte string the text denotes, and
   nothing exactly when the text denotes none.
  */
  method Decode(text: string) returns (r: Option<seq<byte>>)
    ensures r.Some? ==> Denotes(text, r.value)
    ensures r.None? ==> forall b: seq<byte> :: !Denotes(text, b)
  {
    var stop, out, acc, bits, padding := ReadText(text);
    if stop < |text| {
      NothingDenoted(text, stop, out, acc, bits, padding);
      return None;
    }
    assert text[..stop] == text;
    LeftoverBits(text, out, acc, bits, padding);
    if padding > 2 || bits >= 6 || LowBits(acc, bits) != 0 {
      return None;
    }
    return Some(out);
  }

  /** No data may follow '=', and no character outside the alphabet is data. */
  predicate StopsAt(c: char, padding: nat) {
    IsData(c) && (padding > 0 || TableValue(c) < 0)
  }

  /** Reads the characters up to one that makes the text denote nothing. */
  method ReadText(text: string) returns (stop: nat, out: seq<byte>, acc: nat, bits: nat, padding: nat)
    ensures stop <= |text| && Reading(text[..stop], out, acc, bits, padding)
    ensures stop < |text| ==> StopsAt(text[stop], padding)
  {
    stop, out, acc, bits, padding := 0, [], 0, 0, 0;
    while stop < |text| && !StopsAt(text[stop], padding)
      invariant stop <= |text| && Reading(text[..stop], out, acc, bits, padding)
    {
      out, acc, bits, padding := ReadCharacter(text[..stop], text[stop], out, acc, bits, padding);
      assert text[..stop + 1] == text[..stop] + [text[stop]];
      stop := stop + 1;
    }
  }

  method ReadCharacter(ghost text: string, c: char, out: seq<byte>, acc: nat, bits: nat, padding: nat)
    returns (out': seq<byte>, acc': nat, bits': nat, padding': nat)
    requires Reading(text, out, acc, bits, padding)
    requires !StopsAt(c, padding)
    ensures Reading(text + [c], out', acc', bits', padding')
  {
    out', acc', bits', padding' := out, acc, bits, padding;
    if IsSpace(c) {
      ReadOther(text, c, out, acc, bits, padding);
    } else if c == '=' {
      ReadOther(text, c, out, acc, bits, padding);
      padding' := padding + 1;
    } else {
      out', acc', bits' := TakeSextet(text, c, out, acc, bits);
    }
  }

  lemma {:induction false} NothingDenoted(text: string, i: nat, out: seq<byte>, acc: nat, bits: nat, padding: nat)
    requires i < |text| && Reading(text[..i], out, acc, bits, padding)
    requires StopsAt(text[i], padding)
    ensures forall b: seq<byte> :: !Denotes(text, b)
  {
    forall b: seq<byte> ensures !Denotes(text, b) { StopsForGood(text, i, b); }
  }

  /** A data character goes into the word, and a byte out if eight bits are in. */
  method TakeSextet(ghost text: string, c: char, out: seq<byte>, acc: nat, bits: nat)
    returns (out': seq<byte>, acc': nat, bits': nat)
    requires Reading(text, out, acc, bits, 0) && IsData(c) && InAlphabet(c)
    ensures Reading(text + [c], out', acc', bits', 0)
  {
    ReadData(text, c, out, acc, bits);
    out', acc', bits' := out, ShiftIn(acc, TableValue(c)), bits + 6;
    if bits' >= 8 {
      bits' := bits' - 8;
      out' := out' + [ByteAbove(acc', bits')];
    }
  }

  // ---- What the codec promises ----

  lemma {:induction false} PlainData(data: string, pads: string)
    requires forall i :: 0 <= i < |data| ==> IsData(data[i])
    requires forall i :: 0 <= i < |pads| ==> pads[i] == '='
    ensures Data(data + pads) == data && PadCount(data + pads) == |pads| && PaddingIsLast(data + pads)
    decreases |data| + |pads|
  {
    var text := data + pads;
    if pads != "" {
      assert text[..|text| - 1] == data + pads[..|pads| - 1];
      PlainData(data, pads[..|pads| - 1]);
    } else if data != "" {
      assert text[..|text| - 1] == data[..|data| - 1] + pads;
      PlainData(data[..|data| - 1], pads);
    }
  }

  /** decode(encode(b)) == b: the encoding denotes the bytes, and so, by DenotesOne, only them. */
  lemma {:induction false} RoundTrip(bytes: seq<byte>)
    ensures Denotes(Encode(bytes), bytes)
  {
    PlainData(Letters(Sextets(bytes)), Padding(|bytes|));
  }

  /** A text denotes at most one byte string. */
  lemma {:induction false} DenotesOne(text: string, a: seq<byte>, b: seq<byte>)
    ensures Denotes(text, a) && Denotes(text, b) ==> a == b
  {
    if !Denotes(text, a) || !Denotes(text, b) { return; }
    assert Sextets(a) == Sextets(b) by {
      forall i | 0 <= i < |Sextets(a)| ensures Sextets(a)[i] == Sextets(b)[i] {
        assert Letter(Sextets(a)[i]) == Data(text)[i] == Letter(Sextets(b)[i]);
      }
    }
    SextetCount(a);
    SextetCount(b);
    assert |a| == |b|;
    SextetsCarryTheBits(a);
    SextetsCarryTheBits(b);
    ValueIsInjective(256, a, b);
  }

  /** Canonicity: all texts of one byte string carry the data of its encoding. */
  lemma {:induction false} Canonical(text: string, bytes: seq<byte>)
    requires Denotes(text, bytes)
    ensures Data(text) == Data(Encode(bytes))
  {
    RoundTrip(bytes);
  }

  ghost predicate HasNoSpace(text: string) {
    forall i :: 0 <= i < |text| ==> !IsSpace(text[i])
  }

  lemma {:induction false} EncodingHasNoSpace(bytes: seq<byte>)
    ensures PadCount(Encode(bytes)) == |Padding(|bytes|)| && HasNoSpace(Encode(bytes))
  {
    var data, pads := Letters(Sextets(bytes)), Padding(|bytes|);
    PlainData(data, pads);
    forall i | 0 <= i < |data + pads| ensures !IsSpace((data + pads)[i]) {
      assert (data + pads)[i] == if i < |data| then data[i] else pads[i - |data|];
    }
  }

  /** The decoder does not count the '=': this is exactly when an accepted text
      is the encoding itself. */
  lemma {:induction false} CanonicalText(text: string, bytes: seq<byte>)
    requires Denotes(text, bytes)
    ensures text == Encode(bytes) <==> PadCount(text) == |Padding(|bytes|)| && HasNoSpace(text)
  {
    EncodingHasNoSpace(bytes);
    if PadCount(text) == |Padding(|bytes|)| && HasNoSpace(text) {
      DataThenPads(text);
      PadsAre(text, Letters(Sextets(bytes)), Padding(|bytes|));
    }
  }

  /** decode(encode(b)) == b, of the codec itself. */
  method EncodeAndDecode(bytes: seq<byte>) returns (r: Option<seq<byte>>)
    ensures r == Some(bytes)
  {
    var text := EncodeBytes(bytes);
    r := Decode(text);
    RoundTrip(bytes);
    if r.Some? { DenotesOne(text, r.value, bytes); }
  }

  /** encode(decode(t)) is t, but for whitespace and the number of '='. */
  method DecodeAndEncode(text: string) returns (r: Option<string>)
    ensures r.None? <==> forall b: seq<byte> :: !Denotes(text, b)
    ensures r.Some? ==> Data(r.value) == Data(text)
    ensures r == Some(text) <==> r.Some? && HasNoSpace(text) && PadCount(text) == PadCount(r.value)
  {
    var bytes := Decode(text);
    if bytes.None? {
      return None;
    }
    var canonical := EncodeBytes(bytes.value);
    r := Some(canonical);
    Canonical(text, bytes.value);
    CanonicalText(text, bytes.value);
    EncodingHasNoSpace(bytes.value);
  }

  lemma {:induction false} PadsAre(text: string, data: string, pads: string)
    requires |text| == |data| + |pads| && text[..|data|] == data
    requires forall i :: |data| <= i < |text| ==> text[i] == '='
    requires forall i :: 0 <= i < |pads| ==> pads[i] == '='
    ensures text == data + pads
  {
  }

  lemma {:induction false} DataThenPads(text: string)
    requires PaddingIsLast(text)
    requires forall i :: 0 <= i < |text| ==> !IsSpace(text[i])
    ensures |text| == |Data(text)| + PadCount(text)
    ensures text[..|Data(text)|] == Data(text)
    ensures forall i :: |Data(text)| <= i < |text| ==> text[i] == '='
  {
    if text != "" {
      var front := text[..|text| - 1];
      DataThenPads(front);
      assert text == front + [text[|text| - 1]];
    }
  }

  lemma {:induction false} EncodeOneByte()
    ensures Letters(Sextets([102])) == "Zg" && Encode([102]) == "Zg=="
  {
    SextetsAre([102], 0);
    assert [102][..0] == [] && [102][0..] == [102];
    assert Sextets([102]) == [25, 32];
    assert Letters([25, 32]) == "Zg";
  }

  /** "Zg" and "Zg=" are accepted beside "Zg==": one byte string, three texts. */
  lemma {:induction false} PaddingIsNotCounted()
    ensures Denotes("Zg", [102]) && Denotes("Zg=", [102]) && Encode([102]) == "Zg=="
  {
    EncodeOneByte();
    PlainData("Zg", "");
    PlainData("Zg", "=");
    assert "Zg" + "" == "Zg" && "Zg" + "=" == "Zg=";
  }
}
