/** The text written to `uid_map` and `gid_map` (src/wrap.rs), and the reader on the other
    side of the write: the line format of user_namespaces(7), "Defining user and group ID
    mappings: writing to uid_map and gid_map". */
module IdMappings {
  import opened Wrappers

  type u32 = n: nat | n < 0x1_0000_0000

  datatype IdMapping = IdMapping(baseNsid: u32, baseHostid: u32, remapCount: u32)

  // ----- the printer -----

  function Decimal(n: nat): string {
    if n < 10 then [DigitChar(n)] else Decimal(n / 10) + [DigitChar(n % 10)]
  }

  function DigitChar(d: nat): char
    requires d < 10
  {
    '0' + d as char
  }

  function RenderLine(m: IdMapping): string {
    Decimal(m.baseNsid) + " " + Decimal(m.baseHostid) + " " + Decimal(m.remapCount)
  }

  /** One line a mapping, joined by newlines: no newline after the last one. */
  function RenderUidgidMappings(mappings: seq<IdMapping>): string {
    if mappings == [] then ""
    else if |mappings| == 1 then RenderLine(mappings[0])
    else RenderLine(mappings[0]) + "\n" + RenderUidgidMappings(mappings[1..])
  }

  // ----- the reader -----

  predicate IsDigit(c: char) {
    '0' <= c <= '9'
  }

  predicate IsSpace(c: char) {
    c == ' ' || 9 as char <= c <= 13 as char
  }

  function SkipSpaces(s: string): string {
    if s != [] && IsSpace(s[0]) then SkipSpaces(s[1..]) else s
  }

  /** The length of the longest prefix of digits. */
  function DigitPrefix(s: string): (k: nat)
    ensures k <= |s|
  {
    if s != [] && IsDigit(s[0]) then 1 + DigitPrefix(s[1..]) else 0
  }

  /** The number a text of digits denotes. */
  function Value(s: string): nat {
    if s == [] then 0
    else Value(s[..|s| - 1]) * 10 + (if IsDigit(s[|s| - 1]) then s[|s| - 1] as int - '0' as int else 0)
  }

  /** A number after optional white space, and the text behind it. */
  function ReadField(s: string): Option<(nat, string)> {
    var t := SkipSpaces(s);
    var k := DigitPrefix(t);
    if k == 0 then None else Some((Value(t[..k]), t[k..]))
  }

  /** A field that must be followed by white space. */
  function ReadInnerField(s: string): Option<(nat, string)> {
    match ReadField(s)
    case None => None
    case Some((n, rest)) => if rest != [] && IsSpace(rest[0]) then Some((n, rest)) else None
  }

  /** Three numbers and nothing but white space behind them. */
  function ReadLine(line: string): Option<IdMapping> {
    match ReadInnerField(line)
    case None => None
    case Some((a, rest1)) =>
      match ReadInnerField(rest1)
      case None => None
      case Some((b, rest2)) =>
        match ReadField(rest2)
        case None => None
        case Some((c, rest3)) =>
          if SkipSpaces(rest3) == [] && a < 0x1_0000_0000 && b < 0x1_0000_0000 && c < 0x1_0000_0000
          then Some(IdMapping(a, b, c))
          else None
  }

  /** The length of the first line. */
  function LineLength(s: string): (k: nat)
    ensures k <= |s|
    ensures k < |s| ==> s[k] == '\n'
  {
    if s == [] || s[0] == '\n' then 0 else 1 + LineLength(s[1..])
  }

  /** Every line of a text; a newline may end the last one. */
  function ReadMap(text: string): Option<seq<IdMapping>>
    decreases |text|
  {
    if text == [] then Some([])
    else
      var k := LineLength(text);
      match ReadLine(text[..k])
      case None => None
      case Some(m) =>
        match ReadMap(if k < |text| then text[k + 1..] else [])
        case None => None
        case Some(ms) => Some([m] + ms)
  }

  // ----- round trip -----

  predicate AllDigits(s: string) {
    forall i :: 0 <= i < |s| ==> IsDigit(s[i])
  }

  lemma {:induction false} DecimalDigits(n: nat)
    ensures AllDigits(Decimal(n)) && Decimal(n) != []
    ensures Value(Decimal(n)) == n
  {
    if n >= 10 {
      DecimalDigits(n / 10);
      var front, last := Decimal(n / 10), DigitChar(n % 10);
      assert (front + [last])[..|front|] == front;
    } else {
      assert Decimal(n)[..0] == [];
    }
  }

  lemma {:induction false} DigitsThen(digits: string, rest: string)
    requires AllDigits(digits)
    requires rest == [] || !IsDigit(rest[0])
    ensures DigitPrefix(digits + rest) == |digits|
  {
    if digits == [] {
      assert digits + rest == rest;
    } else {
      assert (digits + rest)[1..] == digits[1..] + rest;
      DigitsThen(digits[1..], rest);
    }
  }

  lemma ReadDecimal(n: nat, rest: string)
    requires rest == [] || !IsDigit(rest[0])
    ensures ReadField(Decimal(n) + rest) == Some((n, rest))
    ensures ReadField(" " + Decimal(n) + rest) == Some((n, rest))
  {
    DecimalDigits(n);
    DigitsThen(Decimal(n), rest);
    var t := Decimal(n) + rest;
    assert SkipSpaces(t) == t;
    assert (" " + Decimal(n) + rest)[1..] == t;
    assert t[..|Decimal(n)|] == Decimal(n) && t[|Decimal(n)|..] == rest;
  }

  lemma ReadInnerDecimal(n: nat, rest: string)
    requires rest != [] && rest[0] == ' '
    ensures ReadInnerField(Decimal(n) + rest) == Some((n, rest))
    ensures ReadInnerField(" " + Decimal(n) + rest) == Some((n, rest))
  {
    ReadDecimal(n, rest);
  }

  lemma ReadThree(a: u32, b: u32, c: u32, line: string, rest1: string, rest2: string)
    requires ReadInnerField(line) == Some((a, rest1))
    requires ReadInnerField(rest1) == Some((b, rest2))
    requires ReadField(rest2) == Some((c, []))
    ensures ReadLine(line) == Some(IdMapping(a, b, c))
  {
  }

  lemma ReadRenderedLine(m: IdMapping)
    ensures ReadLine(RenderLine(m)) == Some(m)
  {
    var rest2 := " " + Decimal(m.remapCount);
    var rest1 := " " + Decimal(m.baseHostid) + rest2;
    assert rest2 == " " + Decimal(m.remapCount) + [];
    assert RenderLine(m) == Decimal(m.baseNsid) + rest1;
    ReadDecimal(m.remapCount, []);
    ReadInnerDecimal(m.baseHostid, rest2);
    ReadInnerDecimal(m.baseNsid, rest1);
    ReadThree(m.baseNsid, m.baseHostid, m.remapCount, RenderLine(m), rest1, rest2);
  }

  lemma RenderedLineHasNoNewline(m: IdMapping)
    ensures '\n' !in RenderLine(m) && RenderLine(m) != []
  {
    DecimalDigits(m.baseNsid);
    DecimalDigits(m.baseHostid);
    DecimalDigits(m.remapCount);
  }

  lemma {:induction false} FirstLine(line: string, rest: string)
    requires '\n' !in line
    requires rest == [] || rest[0] == '\n'
    ensures LineLength(line + rest) == |line|
  {
    if line == [] {
      assert line + rest == rest;
    } else {
      assert (line + rest)[1..] == line[1..] + rest;
      FirstLine(line[1..], rest);
    }
  }

  lemma ReadFirstLine(m: IdMapping, line: string, tail: string)
    requires ReadLine(line) == Some(m) && '\n' !in line && line != []
    ensures ReadMap(line) == Some([m])
    ensures ReadMap(tail).Some? ==> ReadMap(line + "\n" + tail) == Some([m] + ReadMap(tail).value)
  {
    FirstLine(line, []);
    assert line + [] == line && line[..|line|] == line;
    assert ReadMap([]) == Some([]) && [m] + [] == [m];
    FirstLine(line, "\n" + tail);
    var text := line + "\n" + tail;
    assert text == line + ("\n" + tail);
    assert text[..|line|] == line && text[|line| + 1..] == tail;
  }

  /** The reader recovers exactly the list that was printed. */
  lemma {:induction false} MappingsRoundTrip(mappings: seq<IdMapping>)
    ensures ReadMap(RenderUidgidMappings(mappings)) == Some(mappings)
  {
    if mappings != [] {
      var tail := RenderUidgidMappings(mappings[1..]);
      ReadRenderedLine(mappings[0]);
      RenderedLineHasNoNewline(mappings[0]);
      MappingsRoundTrip(mappings[1..]);
      ReadFirstLine(mappings[0], RenderLine(mappings[0]), tail);
      assert mappings == [mappings[0]] + mappings[1..];
    }
  }

  lemma RenderInjective(a: seq<IdMapping>, b: seq<IdMapping>)
    requires RenderUidgidMappings(a) == RenderUidgidMappings(b)
    ensures a == b
  {
    MappingsRoundTrip(a);
    MappingsRoundTrip(b);
  }

  /** Only the empty list prints as the empty text. */
  lemma EmptyText(mappings: seq<IdMapping>)
    ensures RenderUidgidMappings(mappings) == "" <==> mappings == []
  {
    MappingsRoundTrip(mappings);
  }
}
