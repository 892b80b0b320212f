/** Capability names and the reading of name lists (src/caps.rs, src/config.rs). */
module CapabilityNames {
  import opened Wrappers
  import opened CapabilityBits

  /** The spelling of each capability, seven numbers to a table. */
  function AsRef(c: CapabilityBit): string {
    if c < 7 then Spelling0(c)
    else if c < 14 then Spelling7(c)
    else if c < 21 then Spelling14(c)
    else if c < 28 then Spelling21(c)
    else if c < 35 then Spelling28(c)
    else Spelling35(c)
  }

  function Spelling0(c: CapabilityBit): string {
    match c
    case 0 => "CHOWN"
    case 1 => "DAC_OVERRIDE"
    case 2 => "DAC_READ_SEARCH"
    case 3 => "FOWNER"
    case 4 => "FSETID"
    case 5 => "KILL"
    case _ => "SETGID"
  }

  function Spelling7(c: CapabilityBit): string {
    match c
    case 7 => "SETUID"
    case 8 => "SETPCAP"
    case 9 => "LINUX_IMMUTABLE"
    case 10 => "NET_BIND_SERVICE"
    case 11 => "NET_BROADCAST"
    case 12 => "NET_ADMIN"
    case _ => "NET_RAW"
  }

  function Spelling14(c: CapabilityBit): string {
    match c
    case 14 => "IPC_LOCK"
    case 15 => "IPC_OWNER"
    case 16 => "SYS_MODULE"
    case 17 => "SYS_RAW_IO"
    case 18 => "SYS_CHROOT"
    case 19 => "SYS_PTRACE"
    case _ => "SYS_PACCT"
  }

  function Spelling21(c: CapabilityBit): string {
    match c
    case 21 => "SYS_ADMIN"
    case 22 => "SYS_BOOT"
    case 23 => "SYS_NICE"
    case 24 => "SYS_RESOURCE"
    case 25 => "SYS_TIME"
    case 26 => "SYS_TTY_CONFIG"
    case _ => "MKNOD"
  }

  function Spelling28(c: CapabilityBit): string {
    match c
    case 28 => "LEASE"
    case 29 => "AUDIT_WRITE"
    case 30 => "AUDIT_CONTROL"
    case 31 => "SETFCAP"
    case 32 => "MAC_OVERRIDE"
    case 33 => "MAC_ADMIN"
    case _ => "SYSLOG"
  }

  function Spelling35(c: CapabilityBit): string {
    match c
    case 35 => "WAKE_ALARM"
    case 36 => "BLOCK_SUSPEND"
    case 37 => "AUDIT_READ"
    case 38 => "PERFMON"
    case 39 => "BPF"
    case _ => "CHECKPOINT_RESTORE"
  }

  // ----- no two spellings agree -----

  /** A number read off a name's length and three of its characters. */
  ghost function Signature(s: string): int {
    if |s| < 3 then 0
    else ((|s| * 128 + s[0] as int) * 128 + s[|s| / 2] as int) * 128 + s[|s| - 2] as int
  }

  /** The capability with a given signature. */
  ghost function FromSignature(n: int): bv8 {
    match n
    case 11593687 => 0
    case 26288836 => 1
    case 32580163 => 2
    case 13739845 => 3
    case 13740617 => 4
    case 9627212 => 5
    case 13951945 => 6
    case 13953737 => 7
    case 16050241 => 8
    case 32712396 => 9
    case 34844611 => 10
    case 28551123 => 11
    case 20160713 => 12
    case 15970241 => 13
    case 17983043 => 14
    case 20080581 => 15
    case 22341580 => 16
    case 22339785 => 17
    case 22340687 => 18
    case 22342211 => 19
    case 20244547 => 20
    case 20242633 => 21
    case 18145615 => 22
    case 18147139 => 23
    case 26536387 => 24
    case 18147917 => 25
    case 30732233 => 26
    case 11757391 => 27
    case 11739347 => 28
    case 24145876 => 29
    case 28336591 => 30
    case 16048961 => 31
    case 26436292 => 32
    case 20144329 => 33
    case 13952591 => 34
    case 22405330 => 35
    case 28355022 => 36
    case 22048705 => 37
    case 15999823 => 38
    case 7383120 => 39
    case 38857298 => 40
    case _ => 255
  }

  lemma Signature0(c: CapabilityBit)
    requires c < 7
    ensures FromSignature(Signature(Spelling0(c))) == c
  {
  }

  lemma Signature7(c: CapabilityBit)
    requires 7 <= c < 14
    ensures FromSignature(Signature(Spelling7(c))) == c
  {
  }

  lemma Signature14(c: CapabilityBit)
    requires 14 <= c < 21
    ensures FromSignature(Signature(Spelling14(c))) == c
  {
  }

  lemma Signature21(c: CapabilityBit)
    requires 21 <= c < 28
    ensures FromSignature(Signature(Spelling21(c))) == c
  {
  }

  lemma Signature28(c: CapabilityBit)
    requires 28 <= c < 35
    ensures FromSignature(Signature(Spelling28(c))) == c
  {
  }

  lemma Signature35(c: CapabilityBit)
    requires 35 <= c
    ensures FromSignature(Signature(Spelling35(c))) == c
  {
  }

  lemma SignatureOf(c: CapabilityBit)
    ensures FromSignature(Signature(AsRef(c))) == c
  {
    if c < 7 {
      Signature0(c);
    } else if c < 14 {
      Signature7(c);
    } else if c < 21 {
      Signature14(c);
    } else if c < 28 {
      Signature21(c);
    } else if c < 35 {
      Signature28(c);
    } else {
      Signature35(c);
    }
  }

  lemma Distinct(c: CapabilityBit, d: CapabilityBit)
    requires AsRef(c) == AsRef(d)
    ensures c == d
  {
    SignatureOf(c);
    SignatureOf(d);
  }

  // ----- reading one name -----

  /** `char::to_uppercase`, as far as it leads to ASCII text: the letters a to z, and the few
      others whose upper case is made of ASCII letters alone. All further characters count as
      their own upper case, which contains one that is not ASCII, as theirs does. */
  function Upper(ch: char): string {
    if 'a' <= ch <= 'z' then [ch - 'a' + 'A']
    else match ch
      case '\U{131}' => "I"
      case '\U{17F}' => "S"
      case '\U{DF}' => "SS"
      case '\U{FB00}' => "FF"
      case '\U{FB01}' => "FI"
      case '\U{FB02}' => "FL"
      case '\U{FB03}' => "FFI"
      case '\U{FB04}' => "FFL"
      case '\U{FB05}' => "ST"
      case '\U{FB06}' => "ST"
      case _ => [ch]
  }

  function ToUpper(s: string): string {
    if s == [] then [] else Upper(s[0]) + ToUpper(s[1..])
  }

  /** The characters with the property White_Space. */
  predicate IsSpace(ch: char) {
    || ch == ' ' || '\U{9}' <= ch <= '\U{D}' || ch == '\U{85}' || ch == '\U{A0}' || ch == '\U{1680}'
    || '\U{2000}' <= ch <= '\U{200A}' || ch == '\U{2028}' || ch == '\U{2029}' || ch == '\U{202F}'
    || ch == '\U{205F}' || ch == '\U{3000}'
  }

  function TrimStart(s: string): string {
    if s != [] && IsSpace(s[0]) then TrimStart(s[1..]) else s
  }

  function TrimEnd(s: string): string {
    if s != [] && IsSpace(s[|s| - 1]) then TrimEnd(s[..|s| - 1]) else s
  }

  function Trim(s: string): string {
    TrimEnd(TrimStart(s))
  }

  /** The text that is compared with the spellings. An upper-case prefix is cut only when it
      opens the untrimmed name. */
  function Refined(s: string): string {
    Trim(ToUpper(if "CAP_" <= s && |s| > 4 then s[4..] else Trim(s)))
  }

  /** The capability a name stands for. */
  ghost function Meaning(s: string): Option<CapabilityBit> {
    if c: CapabilityBit :| AsRef(c) == Refined(s) then Some(c) else None
  }

  method FromStr(s: string) returns (r: Option<CapabilityBit>)
    ensures r == Meaning(s)
    ensures forall c: CapabilityBit :: r == Some(c) <==> AsRef(c) == Refined(s)
  {
    var refined := Refined(s);
    var n: bv8 := 0;
    while n <= LAST_CAP
      invariant n <= LAST_CAP + 1
      invariant forall c: CapabilityBit | c < n :: AsRef(c) != refined
      decreases LAST_CAP + 1 - n
    {
      if refined == AsRef(n) {
        forall c: CapabilityBit | AsRef(c) == refined
          ensures c == n
        {
          Distinct(c, n);
        }
        return Some(n);
      }
      n := n + 1;
    }
    return None;
  }

  // ----- every spelling is read back -----

  predicate Clean(s: string) {
    forall ch :: ch in s ==> !IsSpace(ch) && Upper(ch) == [ch]
  }

  /** Capitals and underscores only. */
  predicate Plain(s: string) {
    forall i :: 0 <= i < |s| ==> 'A' <= s[i] <= 'Z' || s[i] == '_'
  }

  lemma PlainClean(s: string)
    requires Plain(s)
    ensures Clean(s)
  {
    forall ch | ch in s
      ensures !IsSpace(ch) && Upper(ch) == [ch]
    {
      var i :| 0 <= i < |s| && s[i] == ch;
    }
  }

  predicate Unprefixed(s: string) {
    |s| >= 2 && (s[0] != 'C' || s[1] != 'A')
  }

  lemma Plain0(c: CapabilityBit)
    requires c < 7
    ensures Plain(Spelling0(c)) && Unprefixed(Spelling0(c))
  {
  }

  lemma Plain7(c: CapabilityBit)
    requires 7 <= c < 14
    ensures Plain(Spelling7(c)) && Unprefixed(Spelling7(c))
  {
  }

  lemma Plain14(c: CapabilityBit)
    requires 14 <= c < 21
    ensures Plain(Spelling14(c)) && Unprefixed(Spelling14(c))
  {
  }

  lemma Plain21(c: CapabilityBit)
    requires 21 <= c < 28
    ensures Plain(Spelling21(c)) && Unprefixed(Spelling21(c))
  {
  }

  lemma Plain28(c: CapabilityBit)
    requires 28 <= c < 35
    ensures Plain(Spelling28(c)) && Unprefixed(Spelling28(c))
  {
  }

  lemma Plain35(c: CapabilityBit)
    requires 35 <= c
    ensures Plain(Spelling35(c)) && Unprefixed(Spelling35(c))
  {
  }

  lemma CleanSpelling(c: CapabilityBit)
    ensures Clean(AsRef(c)) && Plain(AsRef(c)) && Unprefixed(AsRef(c))
  {
    if c < 7 {
      Plain0(c);
    } else if c < 14 {
      Plain7(c);
    } else if c < 21 {
      Plain14(c);
    } else if c < 28 {
      Plain21(c);
    } else if c < 35 {
      Plain28(c);
    } else {
      Plain35(c);
    }
    PlainClean(AsRef(c));
  }

  lemma TrimClean(s: string)
    requires forall ch :: ch in s ==> !IsSpace(ch)
    ensures Trim(s) == s
  {
  }

  lemma {:induction false} UpperHasSpaces(s: string, ch: char)
    requires ch in s && IsSpace(ch)
    ensures ch in ToUpper(s)
  {
    if s[0] == ch {
      assert Upper(ch) == [ch];
    } else {
      UpperHasSpaces(s[1..], ch);
    }
  }

  lemma UpperClean(s: string)
    requires Clean(ToUpper(s))
    ensures forall ch :: ch in s ==> !IsSpace(ch)
    ensures forall ch :: ch in ToUpper(s) ==> !IsSpace(ch)
  {
    forall ch | ch in s
      ensures !IsSpace(ch)
    {
      if IsSpace(ch) {
        UpperHasSpaces(s, ch);
      }
    }
  }

  predicate Spaces(s: string) {
    forall i :: 0 <= i < |s| ==> IsSpace(s[i])
  }

  /** By code point. */
  lemma WhiteSpaceIs(ch: char)
    ensures IsSpace(ch) <==>
      || 9 <= ch as int <= 13
      || 8192 <= ch as int <= 8202
      || ch as int in {32, 133, 160, 5760, 8232, 8233, 8239, 8287, 12288}
  {
  }

  lemma {:induction false} TrimStartPadded(a: string, s: string)
    requires Spaces(a) && s != [] && !IsSpace(s[0])
    ensures TrimStart(a + s) == s
    decreases |a|
  {
    if a == [] {
      assert a + s == s;
    } else {
      assert (a + s)[1..] == a[1..] + s;
      TrimStartPadded(a[1..], s);
    }
  }

  lemma {:induction false} TrimEndPadded(s: string, b: string)
    requires Spaces(b) && s != [] && !IsSpace(s[|s| - 1])
    ensures TrimEnd(s + b) == s
    decreases |b|
  {
    if b == [] {
      assert s + b == s;
    } else {
      assert (s + b)[..|s + b| - 1] == s + b[..|b| - 1];
      TrimEndPadded(s, b[..|b| - 1]);
    }
  }

  lemma TrimPadded(a: string, s: string, b: string)
    requires Spaces(a) && Spaces(b) && s != [] && forall ch :: ch in s ==> !IsSpace(ch)
    ensures Trim(a + s + b) == s
  {
    assert s[0] in s && s[|s| - 1] in s;
    assert a + s + b == a + (s + b);
    TrimStartPadded(a, s + b);
    TrimEndPadded(s, b);
  }

  lemma {:induction false} UpperAppend(a: string, b: string)
    ensures ToUpper(a + b) == ToUpper(a) + ToUpper(b)
    decreases |a|
  {
    if a == [] {
      assert a + b == b;
    } else {
      assert (a + b)[1..] == a[1..] + b;
      UpperAppend(a[1..], b);
    }
  }

  lemma {:induction false} UpperSpaces(s: string)
    requires Spaces(s)
    ensures ToUpper(s) == s
  {
    if s != [] {
      assert Upper(s[0]) == [s[0]];
      UpperSpaces(s[1..]);
    }
  }

  lemma UpperOfTwo(s: string)
    requires |s| >= 2 && s[0] == 'C' && s[1] == 'A'
    ensures !Unprefixed(ToUpper(s))
  {
    assert ToUpper(s) == "C" + ToUpper(s[1..]);
    assert ToUpper(s[1..]) == "A" + ToUpper(s[1..][1..]);
  }

  /** A padded spelling does not open with the prefix. */
  lemma PaddedUnprefixed(a: string, s: string, b: string)
    requires Spaces(a) && Spaces(b) && Unprefixed(ToUpper(s))
    ensures !("CAP_" <= a + s + b)
  {
    var t := a + s + b;
    assert "CAP_" <= t ==> t[0] == 'C' && t[1] == 'A';
    if a != [] {
      assert t[0] == a[0] && IsSpace(a[0]);
    } else if |s| < 2 {
      assert |t| >= 2 ==> t[1] == b[1 - |s|] && IsSpace(b[1 - |s|]);
    } else {
      assert t[0] == s[0] && t[1] == s[1];
      assert s[0] != 'C' || s[1] != 'A' by {
        if s[0] == 'C' && s[1] == 'A' {
          UpperOfTwo(s);
        }
      }
    }
  }

  /** A capability's spelling in any case, with or without the prefix, names it, whatever white
      space there is around the spelling. */
  lemma SpellingRead(c: CapabilityBit, a: string, s: string, b: string)
    requires ToUpper(s) == AsRef(c) && Spaces(a) && Spaces(b)
    ensures Meaning(a + s + b) == Some(c) && Meaning("CAP_" + (a + s + b)) == Some(c)
  {
    CleanSpelling(c);
    UpperClean(s);
    TrimClean(ToUpper(s));
    PaddedUnprefixed(a, s, b);
    TrimPadded(a, s, b);
    assert ("CAP_" + (a + s + b))[4..] == a + s + b;
    UpperPadded(a, s, b);
    TrimPadded(a, ToUpper(s), b);
    OneMeaning(a + s + b, c);
    OneMeaning("CAP_" + (a + s + b), c);
  }

  /** A letter in either case, or one of the two others whose upper case is a letter of a name. */
  predicate SameLetter(a: char, b: char) {
    || a == b
    || ('A' <= b <= 'Z' && a as int == b as int + 32)
    || (a == '\U{17F}' && b == 'S')
    || (a == '\U{131}' && b == 'I')
  }

  lemma {:induction false} UpperOf(s: string, t: string)
    requires |s| == |t| && Plain(t) && forall i :: 0 <= i < |s| ==> SameLetter(s[i], t[i])
    ensures ToUpper(s) == t
  {
    if s != [] {
      assert SameLetter(s[0], t[0]);
      assert Upper(s[0]) == [t[0]];
      UpperOf(s[1..], t[1..]);
    }
  }

  /** So letter by letter in either case. */
  lemma AnyCaseRead(c: CapabilityBit, a: string, s: string, b: string)
    requires |s| == |AsRef(c)| && forall i :: 0 <= i < |s| ==> SameLetter(s[i], AsRef(c)[i])
    requires Spaces(a) && Spaces(b)
    ensures Meaning(a + s + b) == Some(c) && Meaning("CAP_" + (a + s + b)) == Some(c)
  {
    CleanSpelling(c);
    UpperOf(s, AsRef(c));
    SpellingRead(c, a, s, b);
  }

  lemma UpperPadded(a: string, s: string, b: string)
    requires Spaces(a) && Spaces(b)
    ensures ToUpper(a + s + b) == a + ToUpper(s) + b
  {
    UpperAppend(a + s, b);
    UpperAppend(a, s);
    UpperSpaces(a);
    UpperSpaces(b);
  }

  /** A prefix in lower case, or behind white space, is not cut, and then the name is unknown. */
  lemma UncutPrefixUnknown(t: string)
    requires !("CAP_" <= t) && "CAP_" <= Refined(t)
    ensures Meaning(t) == None
  {
    forall c: CapabilityBit
      ensures AsRef(c) != Refined(t)
    {
      CleanSpelling(c);
      assert Refined(t)[0] == 'C' && Refined(t)[1] == 'A';
    }
  }

  lemma OneMeaning(s: string, c: CapabilityBit)
    requires Refined(s) == AsRef(c)
    ensures Meaning(s) == Some(c)
  {
    forall d: CapabilityBit | AsRef(d) == Refined(s)
      ensures d == c
    {
      Distinct(d, c);
    }
  }

  // ----- name lists -----

  ghost predicate KnownName(name: string) {
    Meaning(name).Some? || ToUpper(name) == "ALL"
  }

  /** The capabilities one entry of a list stands for. */
  ghost function Named(name: string): set<CapabilityBit>
    requires KnownName(name)
  {
    match Meaning(name)
    case Some(c) => {c}
    case None => UpTo(LAST_CAP)
  }

  /** The capabilities a whole list stands for. */
  ghost function NamedSet(names: seq<string>): set<CapabilityBit>
    requires forall name :: name in names ==> KnownName(name)
  {
    set name, c | name in names && c in Named(name) :: c
  }

  lemma NamedSnoc(names: seq<string>, name: string)
    requires forall n :: n in names + [name] ==> KnownName(n)
    ensures forall n :: n in names ==> KnownName(n)
    ensures KnownName(name)
    ensures NamedSet(names + [name]) == NamedSet(names) + Named(name)
  {
    assert forall n :: n in names ==> n in names + [name];
    assert name in names + [name];
  }

  method NamesAsBits(names: seq<string>) returns (r: Result<seq<CapabilityBit>, string>)
    ensures r.Success? <==> forall name :: name in names ==> KnownName(name)
    ensures r.Success? ==> Elements(r.value) == NamedSet(names)
    ensures r.Success? ==> forall i, j :: 0 <= i < j < |r.value| ==> r.value[i] != r.value[j]
    ensures r.Failure? ==> r.error in names && !KnownName(r.error)
  {
    var caps: set<CapabilityBit> := {};
    for i := 0 to |names|
      invariant forall name :: name in names[..i] ==> KnownName(name)
      invariant caps == NamedSet(names[..i])
    {
      var bit := FromStr(names[i]);
      assert names[..i + 1] == names[..i] + [names[i]];
      if bit.Some? {
        caps := caps + {bit.value};
      } else if ToUpper(names[i]) == "ALL" {
        caps := caps + UpTo(LAST_CAP);
      } else {
        assert names[i] in names && !KnownName(names[i]);
        return Failure(names[i]);
      }
      NamedSnoc(names[..i], names[i]);
    }
    assert names[..|names|] == names;
    var order := Drain(caps);
    return Success(order);
  }

  /** The hash set is drained in an arbitrary order. */
  method Drain(caps: set<CapabilityBit>) returns (order: seq<CapabilityBit>)
    ensures Elements(order) == caps
    ensures forall i, j :: 0 <= i < j < |order| ==> order[i] != order[j]
  {
    order := [];
    var rest := caps;
    while rest != {}
      invariant rest + Elements(order) == caps
      invariant forall c :: c in order ==> c !in rest
      invariant forall i, j :: 0 <= i < j < |order| ==> order[i] != order[j]
      decreases rest
    {
      var c :| c in rest;
      rest := rest - {c};
      ElementsSnoc(order, c);
      order := order + [c];
    }
  }
}
