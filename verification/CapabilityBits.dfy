/** Capability numbers and the `u64` masks built from them (src/caps.rs).

    The enumeration is `repr(u8)` with discriminants 0 to 40, so a capability is its number.
    A mask is a real 64-bit vector. `View` reads it as the set of known capabilities whose
    bit is set; the results here say that every mask operation is the corresponding set
    operation and touches no bit above the last known capability. */
module CapabilityBits {

  const LAST_CAP: bv8 := 40

  type CapabilityBit = n: bv8 | n <= LAST_CAP

  const SETGID: CapabilityBit := 6
  const SETUID: CapabilityBit := 7
  const SETPCAP: CapabilityBit := 8
  const SYS_ADMIN: CapabilityBit := 21
  const SETFCAP: CapabilityBit := 31

  /** Bits 0 to 40: the capabilities this program knows. */
  const KNOWN_BITS: bv64 := 0x1FF_FFFF_FFFF

  function BitMask(c: CapabilityBit): bv64 {
    (1 as bv64) << (c as bv64)
  }

  function AddTo(c: CapabilityBit, value: bv64): bv64 {
    value | BitMask(c)
  }

  function RemoveFrom(c: CapabilityBit, value: bv64): bv64 {
    value & !BitMask(c)
  }

  predicate GetFrom(c: CapabilityBit, value: bv64) {
    value & BitMask(c) == BitMask(c)
  }

  /** The set of known capabilities whose bit is set in `value`. */
  ghost function View(value: bv64): set<CapabilityBit> {
    set c | c in UpTo(LAST_CAP) && GetFrom(c, value)
  }

  /** The capabilities numbered at most `n`. */
  function UpTo(n: CapabilityBit): (s: set<CapabilityBit>)
    ensures forall c: CapabilityBit :: c in s <==> c <= n
    decreases n
  {
    if n == 0 then {0} else UpTo(n - 1) + {n}
  }

  ghost function Elements<T>(bits: seq<T>): set<T> {
    set c | c in bits
  }

  // ----- single bits -----

  lemma SetMask(c: CapabilityBit, d: CapabilityBit, v: bv64)
    ensures (v | BitMask(c)) & BitMask(d) == BitMask(d)
      <==> c == d || v & BitMask(d) == BitMask(d)
  {
  }

  lemma ClearMask(c: CapabilityBit, d: CapabilityBit, v: bv64)
    ensures (v & !BitMask(c)) & BitMask(d) == BitMask(d)
      <==> c != d && v & BitMask(d) == BitMask(d)
  {
  }

  lemma EmptyMask(c: CapabilityBit)
    ensures (0 as bv64) & BitMask(c) != BitMask(c)
  {
  }

  lemma GetFromSet(c: CapabilityBit, d: CapabilityBit, v: bv64)
    ensures GetFrom(d, v | BitMask(c)) <==> d == c || GetFrom(d, v)
  {
    SetMask(c, d, v);
  }

  lemma GetFromCleared(c: CapabilityBit, d: CapabilityBit, v: bv64)
    ensures GetFrom(d, v & !BitMask(c)) <==> d != c && GetFrom(d, v)
  {
    ClearMask(c, d, v);
  }

  lemma AddHighBits(c: CapabilityBit, v: bv64)
    ensures AddTo(c, v) & !KNOWN_BITS == v & !KNOWN_BITS
  {
  }

  lemma RemoveHighBits(c: CapabilityBit, v: bv64)
    ensures RemoveFrom(c, v) & !KNOWN_BITS == v & !KNOWN_BITS
  {
  }

  lemma BitAfterAdd(c: CapabilityBit, d: CapabilityBit, v: bv64)
    ensures GetFrom(d, AddTo(c, v)) <==> d == c || GetFrom(d, v)
  {
    GetFromSet(c, d, v);
  }

  lemma BitAfterRemove(c: CapabilityBit, d: CapabilityBit, v: bv64)
    ensures GetFrom(d, RemoveFrom(c, v)) <==> d != c && GetFrom(d, v)
  {
    GetFromCleared(c, d, v);
  }

  lemma InView(c: CapabilityBit, v: bv64)
    ensures c in View(v) <==> GetFrom(c, v)
  {
  }

  lemma InViewAfterAdd(c: CapabilityBit, d: CapabilityBit, v: bv64)
    ensures d in View(AddTo(c, v)) <==> d in View(v) || d == c
  {
    BitAfterAdd(c, d, v);
    InView(d, v);
    InView(d, AddTo(c, v));
  }

  lemma InViewAfterRemove(c: CapabilityBit, d: CapabilityBit, v: bv64)
    ensures d in View(RemoveFrom(c, v)) <==> d in View(v) && d != c
  {
    BitAfterRemove(c, d, v);
    InView(d, v);
    InView(d, RemoveFrom(c, v));
  }

  lemma SameSet(a: set<CapabilityBit>, b: set<CapabilityBit>)
    requires forall d: CapabilityBit :: d in a <==> d in b
    ensures a == b
  {
  }

  lemma AddView(c: CapabilityBit, v: bv64)
    ensures View(AddTo(c, v)) == View(v) + {c}
  {
    forall d: CapabilityBit
      ensures d in View(AddTo(c, v)) <==> d in View(v) + {c}
    {
      InViewAfterAdd(c, d, v);
    }
    SameSet(View(AddTo(c, v)), View(v) + {c});
  }

  lemma RemoveView(c: CapabilityBit, v: bv64)
    ensures View(RemoveFrom(c, v)) == View(v) - {c}
  {
    forall d: CapabilityBit
      ensures d in View(RemoveFrom(c, v)) <==> d in View(v) - {c}
    {
      InViewAfterRemove(c, d, v);
    }
    SameSet(View(RemoveFrom(c, v)), View(v) - {c});
  }

  lemma ZeroView()
    ensures View(0) == {}
  {
    forall c: CapabilityBit
      ensures !GetFrom(c, 0)
    {
      EmptyMask(c);
    }
  }

  // ----- loops over lists of capabilities -----

  /** `value` with the bits of a list added one after the other. */
  function Adding(value: bv64, bits: seq<CapabilityBit>): bv64 {
    if bits == [] then value else AddTo(bits[|bits| - 1], Adding(value, bits[..|bits| - 1]))
  }

  /** `value` with the bits of a list removed one after the other. */
  function Removing(value: bv64, bits: seq<CapabilityBit>): bv64 {
    if bits == [] then value else RemoveFrom(bits[|bits| - 1], Removing(value, bits[..|bits| - 1]))
  }

  lemma {:induction false} AddingView(value: bv64, bits: seq<CapabilityBit>)
    ensures View(Adding(value, bits)) == View(value) + Elements(bits)
  {
    if bits != [] {
      var front, last := bits[..|bits| - 1], bits[|bits| - 1];
      AddingView(value, front);
      AddView(last, Adding(value, front));
      ElementsSnoc(front, last);
      assert bits == front + [last];
    }
  }

  lemma {:induction false} RemovingView(value: bv64, bits: seq<CapabilityBit>)
    ensures View(Removing(value, bits)) == View(value) - Elements(bits)
  {
    if bits != [] {
      var front, last := bits[..|bits| - 1], bits[|bits| - 1];
      RemovingView(value, front);
      RemoveView(last, Removing(value, front));
      ElementsSnoc(front, last);
      assert bits == front + [last];
    }
  }

  lemma {:induction false} AddingHighBits(value: bv64, bits: seq<CapabilityBit>)
    ensures Adding(value, bits) & !KNOWN_BITS == value & !KNOWN_BITS
  {
    if bits != [] {
      AddingHighBits(value, bits[..|bits| - 1]);
      AddHighBits(bits[|bits| - 1], Adding(value, bits[..|bits| - 1]));
    }
  }

  lemma {:induction false} RemovingHighBits(value: bv64, bits: seq<CapabilityBit>)
    ensures Removing(value, bits) & !KNOWN_BITS == value & !KNOWN_BITS
  {
    if bits != [] {
      RemovingHighBits(value, bits[..|bits| - 1]);
      RemoveHighBits(bits[|bits| - 1], Removing(value, bits[..|bits| - 1]));
    }
  }

  lemma ElementsSnoc<T>(front: seq<T>, last: T)
    ensures Elements(front + [last]) == Elements(front) + {last}
  {
  }

  /** Union, whatever the order and however often a capability is repeated. */
  method SetBits(value: bv64, bits: seq<CapabilityBit>) returns (r: bv64)
    ensures View(r) == View(value) + Elements(bits)
    ensures r & !KNOWN_BITS == value & !KNOWN_BITS
  {
    r := value;
    for i := 0 to |bits|
      invariant r == Adding(value, bits[..i])
    {
      assert bits[..i + 1][..i] == bits[..i];
      r := AddTo(bits[i], r);
    }
    assert bits[..|bits|] == bits;
    AddingView(value, bits);
    AddingHighBits(value, bits);
  }

  /** Difference, whatever the order and however often a capability is repeated. */
  method ClearBits(value: bv64, bits: seq<CapabilityBit>) returns (r: bv64)
    ensures View(r) == View(value) - Elements(bits)
    ensures r & !KNOWN_BITS == value & !KNOWN_BITS
  {
    r := value;
    for i := 0 to |bits|
      invariant r == Removing(value, bits[..i])
    {
      assert bits[..i + 1][..i] == bits[..i];
      r := RemoveFrom(bits[i], r);
    }
    assert bits[..|bits|] == bits;
    RemovingView(value, bits);
    RemovingHighBits(value, bits);
  }

  method RawBits(bits: seq<CapabilityBit>) returns (r: bv64)
    ensures View(r) == Elements(bits)
    ensures r & !KNOWN_BITS == 0
  {
    ZeroView();
    r := SetBits(0, bits);
  }

  /** In number order and without duplicates. */
  ghost predicate NumberOrdered(bits: seq<CapabilityBit>) {
    forall i, j :: 0 <= i < j < |bits| ==> bits[i] < bits[j]
  }

  /** The capabilities numbered below `n` that are set in `value`, in number order. */
  function Parsed(value: bv64, n: bv8): seq<CapabilityBit>
    requires n <= LAST_CAP + 1
    decreases n
  {
    if n == 0 then []
    else Parsed(value, n - 1) + (if GetFrom(n - 1, value) then [n - 1 as CapabilityBit] else [])
  }

  lemma {:induction false} ParsedMembers(value: bv64, n: bv8, c: CapabilityBit)
    requires n <= LAST_CAP + 1
    ensures c in Parsed(value, n) <==> c < n && GetFrom(c, value)
    decreases n
  {
    if n != 0 {
      ParsedMembers(value, n - 1, c);
    }
  }

  lemma {:induction false} ParsedOrdered(value: bv64, n: bv8)
    requires n <= LAST_CAP + 1
    ensures NumberOrdered(Parsed(value, n))
    decreases n
  {
    if n != 0 {
      ParsedOrdered(value, n - 1);
      var below := Parsed(value, n - 1);
      forall i | 0 <= i < |below|
        ensures below[i] < n - 1
      {
        ParsedMembers(value, n - 1, below[i]);
      }
    }
  }

  /** The capabilities are visited in the order of their numbers, as the constant list of
      all of them is written. */
  method ParseBits(value: bv64) returns (bits: seq<CapabilityBit>)
    ensures Elements(bits) == View(value)
    ensures NumberOrdered(bits)
  {
    bits := [];
    var n: bv8 := 0;
    while n <= LAST_CAP
      invariant n <= LAST_CAP + 1
      invariant bits == Parsed(value, n)
      decreases LAST_CAP + 1 - n
    {
      if GetFrom(n, value) {
        bits := bits + [n];
      }
      n := n + 1;
    }
    ParsedOrdered(value, n);
    forall c: CapabilityBit
      ensures c in bits <==> GetFrom(c, value)
    {
      ParsedMembers(value, n, c);
    }
  }

  // ----- a mask is determined by its view and its high bits -----

  /** All masks of a list, joined. */
  function Joined(masks: seq<bv64>): bv64 {
    if masks == [] then 0 else Joined(masks[..|masks| - 1]) | masks[|masks| - 1]
  }

  lemma JoinedSnoc(masks: seq<bv64>, m: bv64)
    ensures Joined(masks + [m]) == Joined(masks) | m
  {
    assert (masks + [m])[..|masks|] == masks;
  }

  predicate Agree(v: bv64, w: bv64, m: bv64) {
    v & m == w & m
  }

  lemma AgreeNowhere(v: bv64, w: bv64)
    ensures Agree(v, w, 0)
  {
  }

  lemma AgreeOr(v: bv64, w: bv64, m: bv64, b: bv64)
    requires Agree(v, w, m) && Agree(v, w, b)
    ensures Agree(v, w, m | b)
  {
  }

  /** Vectors that agree under each mask of a list agree under all of them together. */
  lemma {:induction false} AgreeJoined(v: bv64, w: bv64, masks: seq<bv64>)
    requires forall m :: m in masks ==> Agree(v, w, m)
    ensures Agree(v, w, Joined(masks))
  {
    if masks == [] {
      AgreeNowhere(v, w);
    } else {
      var front, last := masks[..|masks| - 1], masks[|masks| - 1];
      AgreeJoined(v, w, front);
      AgreeOr(v, w, Joined(front), last);
    }
  }

  function SingleBits(n: bv8): seq<bv64>
    requires n <= LAST_CAP + 1
    decreases n
  {
    if n == 0 then [] else SingleBits(n - 1) + [BitMask(n - 1)]
  }

  lemma NextShift(c: CapabilityBit)
    ensures (((1 as bv64) << (c as bv64)) - 1) | BitMask(c) == ((1 as bv64) << ((c + 1) as bv64)) - 1
  {
  }

  lemma {:induction false} SingleBitsJoined(n: bv8)
    requires n <= LAST_CAP + 1
    ensures Joined(SingleBits(n)) == ((1 as bv64) << (n as bv64)) - 1
    decreases n
  {
    if n != 0 {
      SingleBitsJoined(n - 1);
      JoinedSnoc(SingleBits(n - 1), BitMask(n - 1));
      NextShift(n - 1);
    }
  }

  lemma AllBitsJoined()
    ensures Joined(SingleBits(LAST_CAP + 1)) == KNOWN_BITS
  {
    SingleBitsJoined(LAST_CAP + 1);
  }

  lemma BitAgrees(v: bv64, w: bv64, c: CapabilityBit)
    requires GetFrom(c, v) == GetFrom(c, w)
    ensures Agree(v, w, BitMask(c))
  {
  }

  lemma {:induction false} SingleBitsAgree(v: bv64, w: bv64, n: bv8)
    requires n <= LAST_CAP + 1
    requires forall c: CapabilityBit :: GetFrom(c, v) == GetFrom(c, w)
    ensures forall m :: m in SingleBits(n) ==> Agree(v, w, m)
    decreases n
  {
    if n != 0 {
      SingleBitsAgree(v, w, n - 1);
      BitAgrees(v, w, n - 1);
    }
  }

  lemma KnownAgree(v: bv64, w: bv64)
    requires forall c: CapabilityBit :: GetFrom(c, v) == GetFrom(c, w)
    ensures Agree(v, w, KNOWN_BITS)
  {
    SingleBitsAgree(v, w, LAST_CAP + 1);
    AgreeJoined(v, w, SingleBits(LAST_CAP + 1));
    AllBitsJoined();
  }

  lemma AllKnownBits(v: bv64, w: bv64)
    requires Agree(v, w, KNOWN_BITS) && Agree(v, w, !KNOWN_BITS)
    ensures v == w
  {
  }

  /** A mask is determined by the known capabilities in it and its higher bits. */
  lemma MaskExtensional(v: bv64, w: bv64)
    requires View(v) == View(w) && v & !KNOWN_BITS == w & !KNOWN_BITS
    ensures v == w
  {
    forall c: CapabilityBit
      ensures GetFrom(c, v) == GetFrom(c, w)
    {
      InView(c, v);
      InView(c, w);
    }
    KnownAgree(v, w);
    AllKnownBits(v, w);
  }

  lemma MaskedView(v: bv64)
    ensures View(v & KNOWN_BITS) == View(v)
    ensures (v & KNOWN_BITS) & !KNOWN_BITS == 0
  {
    forall c: CapabilityBit
      ensures GetFrom(c, v & KNOWN_BITS) <==> GetFrom(c, v)
    {
      KnownBit(c, v);
    }
  }

  lemma KnownBit(c: CapabilityBit, v: bv64)
    ensures (v & KNOWN_BITS) & BitMask(c) == v & BitMask(c)
  {
  }

  /** Parsing a mask and packing the list again keeps exactly the bits of known
      capabilities. */
  method PackParsed(value: bv64) returns (r: bv64)
    ensures r == value & KNOWN_BITS
  {
    var bits := ParseBits(value);
    r := RawBits(bits);
    MaskedView(value);
    MaskExtensional(r, value & KNOWN_BITS);
  }

  /** Packing a list and parsing the mask again sorts the list and removes duplicates. */
  method ParsePacked(bits: seq<CapabilityBit>) returns (sorted: seq<CapabilityBit>)
    ensures Elements(sorted) == Elements(bits)
    ensures NumberOrdered(sorted)
    ensures NumberOrdered(bits) ==> sorted == bits
  {
    var v := RawBits(bits);
    sorted := ParseBits(v);
    if NumberOrdered(bits) {
      OrderedListUnique(sorted, bits);
    }
  }

  lemma {:induction false} OrderedListUnique(a: seq<CapabilityBit>, b: seq<CapabilityBit>)
    requires NumberOrdered(a) && NumberOrdered(b)
    requires Elements(a) == Elements(b)
    ensures a == b
    decreases |a|
  {
    if a != [] { Inhabited(a); }
    if b != [] { Inhabited(b); }
    if a != [] && b != [] {
      SameLast(a, b);
      SplitLast(a);
      SplitLast(b);
      OrderedListUnique(a[..|a| - 1], b[..|b| - 1]);
    }
  }

  lemma Inhabited<T>(a: seq<T>)
    requires a != []
    ensures Elements(a) != {}
  {
    assert a[0] in Elements(a);
  }

  lemma SameLast(a: seq<CapabilityBit>, b: seq<CapabilityBit>)
    requires NumberOrdered(a) && NumberOrdered(b)
    requires Elements(a) == Elements(b) && a != [] && b != []
    ensures a[|a| - 1] == b[|b| - 1]
  {
    var x, y := a[|a| - 1], b[|b| - 1];
    assert x in Elements(b) && y in Elements(a);
    var i :| 0 <= i < |b| && b[i] == x;
    var j :| 0 <= j < |a| && a[j] == y;
    assert x <= y;
    assert y <= x;
  }

  lemma SplitLast(a: seq<CapabilityBit>)
    requires NumberOrdered(a) && a != []
    ensures a == a[..|a| - 1] + [a[|a| - 1]]
    ensures NumberOrdered(a[..|a| - 1])
    ensures Elements(a[..|a| - 1]) == Elements(a) - {a[|a| - 1]}
  {
    var front, last := a[..|a| - 1], a[|a| - 1];
    assert a == front + [last];
    assert last !in front;
  }

  // ----- the two-word layout of capget(2) and capset(2) -----

  datatype CapInternalData = CapInternalData(effective: bv32, permitted: bv32, inheritable: bv32)

  datatype CapResult = CapResult(effective: bv64, permitted: bv64, inheritable: bv64)

  function Join(high: bv32, low: bv32): bv64 {
    ((high as bv64) << 32) | (low as bv64)
  }

  /** The truncating cast `as u32`. */
  function LowWord(value: bv64): bv32 {
    (value & 0xFFFF_FFFF) as bv32
  }

  function HighWord(value: bv64): bv32 {
    LowWord(value >> 32)
  }

  function CapDataToResult(data: seq<CapInternalData>): CapResult
    requires |data| == 2
  {
    CapResult(
      Join(data[1].effective, data[0].effective),
      Join(data[1].permitted, data[0].permitted),
      Join(data[1].inheritable, data[0].inheritable))
  }

  function CapResultToData(caps: CapResult): (data: seq<CapInternalData>)
    ensures |data| == 2
  {
    [CapInternalData(LowWord(caps.effective), LowWord(caps.permitted), LowWord(caps.inheritable)),
     CapInternalData(HighWord(caps.effective), HighWord(caps.permitted), HighWord(caps.inheritable))]
  }

  lemma JoinSplit(value: bv64)
    ensures Join(HighWord(value), LowWord(value)) == value
  {
  }

  lemma SplitJoin(high: bv32, low: bv32)
    ensures HighWord(Join(high, low)) == high && LowWord(Join(high, low)) == low
  {
  }

  lemma ResultRoundTrip(caps: CapResult)
    ensures CapDataToResult(CapResultToData(caps)) == caps
  {
    JoinSplit(caps.effective);
    JoinSplit(caps.permitted);
    JoinSplit(caps.inheritable);
  }

  lemma DataRoundTrip(data: seq<CapInternalData>)
    requires |data| == 2
    ensures CapResultToData(CapDataToResult(data)) == data
  {
    SplitJoin(data[1].effective, data[0].effective);
    SplitJoin(data[1].permitted, data[0].permitted);
    SplitJoin(data[1].inheritable, data[0].inheritable);
  }

  /** Bit `c % 32` of word `c / 32`, which is where the kernel looks for capability `c`. */
  predicate InWord(c: CapabilityBit, low: bv32, high: bv32) {
    var word := if c / 32 == 0 then low else high;
    word & ((1 as bv32) << ((c % 32) as bv32)) != 0
  }

  lemma WordPosition(c: CapabilityBit, value: bv64)
    ensures GetFrom(c, value) <==> InWord(c, LowWord(value), HighWord(value))
  {
    if c < 32 {
      LowPosition(c, value);
    } else {
      HighPosition(c, value);
    }
  }

  lemma LowPosition(c: CapabilityBit, value: bv64)
    requires c < 32
    ensures c / 32 == 0 && c % 32 == c
    ensures value & BitMask(c) == BitMask(c)
      <==> LowWord(value) & ((1 as bv32) << (c as bv32)) != 0
  {
  }

  lemma HighPosition(c: CapabilityBit, value: bv64)
    requires 32 <= c
    ensures c / 32 == 1 && c % 32 == c - 32
    ensures value & BitMask(c) == BitMask(c)
      <==> HighWord(value) & ((1 as bv32) << ((c - 32) as bv32)) != 0
  {
  }
}
