/** Namespace kinds and the clone flags that name them (src/namespace.rs, src/unshare.rs). */
module Namespaces {
  import opened CapabilityBits

  datatype Namespace = Mount | Uts | Ipc | User | Pid | Net | Cgroup | Time

  const CLONE_NEWTIME: bv32 := 0x0000_0080
  const CLONE_NEWNS: bv32 := 0x0002_0000
  const CLONE_NEWCGROUP: bv32 := 0x0200_0000
  const CLONE_NEWUTS: bv32 := 0x0400_0000
  const CLONE_NEWIPC: bv32 := 0x0800_0000
  const CLONE_NEWUSER: bv32 := 0x1000_0000
  const CLONE_NEWPID: bv32 := 0x2000_0000
  const CLONE_NEWNET: bv32 := 0x4000_0000

  /** The namespaces a request without a list asks for. */
  const DEFAULT_NAMESPACES: seq<Namespace> := [Mount, Time, Uts, Pid, Ipc, User]

  function ToCloneFlags(ns: Namespace): bv32 {
    match ns
    case Mount => CLONE_NEWNS
    case Uts => CLONE_NEWUTS
    case Ipc => CLONE_NEWIPC
    case User => CLONE_NEWUSER
    case Pid => CLONE_NEWPID
    case Net => CLONE_NEWNET
    case Cgroup => CLONE_NEWCGROUP
    case Time => CLONE_NEWTIME
  }

  /** The left fold that `unshare` and `setns` run over their argument. */
  function Fold(acc: bv32, list: seq<Namespace>): bv32
    decreases |list|
  {
    if list == [] then acc else Fold(AddFlag(acc, list[0]), list[1..])
  }

  function AddFlag(acc: bv32, ns: Namespace): bv32 {
    acc | ToCloneFlags(ns)
  }

  function Flags(list: seq<Namespace>): bv32 {
    Fold(0, list)
  }

  /** The bit of unshare(2) and setns(2) that stands for a kind of namespace. */
  function KernelBit(ns: Namespace): bv32 {
    match ns
    case Time => 1 << 7
    case Mount => 1 << 17
    case Cgroup => 1 << 25
    case Uts => 1 << 26
    case Ipc => 1 << 27
    case User => 1 << 28
    case Pid => 1 << 29
    case Net => 1 << 30
  }

  predicate HasFlag(flags: bv32, ns: Namespace) {
    flags & KernelBit(ns) != 0
  }

  /** The namespace kinds the kernel finds in a flag word. */
  ghost function Decode(flags: bv32): set<Namespace> {
    set ns: Namespace | HasFlag(flags, ns)
  }

  const KNOWN_FLAGS: bv32 := 0x7E02_0080

  /** Each flag is the one bit of its own kind. */
  lemma DistinctFlags(a: Namespace, b: Namespace)
    ensures HasFlag(ToCloneFlags(a), b) <==> a == b
  {
  }

  lemma MaskedUnion(x: bv32, y: bv32, mask: bv32)
    ensures (x | y) & mask != 0 <==> x & mask != 0 || y & mask != 0
  {
  }

  lemma HasFlagAdded(x: bv32, a: Namespace, ns: Namespace)
    ensures HasFlag(AddFlag(x, a), ns) <==> HasFlag(x, ns) || ns == a
  {
    MaskedUnion(x, ToCloneFlags(a), KernelBit(ns));
    DistinctFlags(a, ns);
  }

  lemma KnownFlags(a: Namespace, flags: bv32)
    requires flags & !KNOWN_FLAGS == 0
    ensures AddFlag(flags, a) & !KNOWN_FLAGS == 0
  {
  }

  lemma EmptyFlags(ns: Namespace)
    ensures !HasFlag(0, ns)
  {
  }

  lemma {:induction false} FoldHasFlag(acc: bv32, list: seq<Namespace>, ns: Namespace)
    ensures HasFlag(Fold(acc, list), ns) <==> HasFlag(acc, ns) || ns in list
    decreases |list|
  {
    if list != [] {
      HasFlagAdded(acc, list[0], ns);
      FoldHasFlag(AddFlag(acc, list[0]), list[1..], ns);
      InCons(list, ns);
    }
  }

  lemma InCons(list: seq<Namespace>, ns: Namespace)
    requires list != []
    ensures ns in list <==> ns == list[0] || ns in list[1..]
  {
  }

  lemma FlagsHave(list: seq<Namespace>, ns: Namespace)
    ensures HasFlag(Flags(list), ns) <==> ns in list
  {
    EmptyFlags(ns);
    FoldHasFlag(0, list, ns);
  }

  lemma {:induction false} FoldKnown(acc: bv32, list: seq<Namespace>)
    requires acc & !KNOWN_FLAGS == 0
    ensures Fold(acc, list) & !KNOWN_FLAGS == 0
    decreases |list|
  {
    if list != [] {
      KnownFlags(list[0], acc);
      FoldKnown(AddFlag(acc, list[0]), list[1..]);
    }
  }

  /** The kernel reads back exactly the requested kinds, and no other flag. */
  lemma FlagsDecode(list: seq<Namespace>)
    ensures Decode(Flags(list)) == Elements(list)
    ensures Flags(list) & !KNOWN_FLAGS == 0
  {
    FoldKnown(0, list);
    forall ns: Namespace
      ensures HasFlag(Flags(list), ns) <==> ns in list
    {
      FlagsHave(list, ns);
    }
  }

  lemma EightBits(x: bv32, y: bv32)
    requires x & !KNOWN_FLAGS == 0 && y & !KNOWN_FLAGS == 0
    requires forall ns: Namespace :: HasFlag(x, ns) <==> HasFlag(y, ns)
    ensures x == y
  {
    assert HasFlag(x, Mount) == HasFlag(y, Mount);
    assert HasFlag(x, Uts) == HasFlag(y, Uts);
    assert HasFlag(x, Ipc) == HasFlag(y, Ipc);
    assert HasFlag(x, User) == HasFlag(y, User);
    assert HasFlag(x, Pid) == HasFlag(y, Pid);
    assert HasFlag(x, Net) == HasFlag(y, Net);
    assert HasFlag(x, Cgroup) == HasFlag(y, Cgroup);
    assert HasFlag(x, Time) == HasFlag(y, Time);
  }

  lemma SameElements(a: seq<Namespace>, b: seq<Namespace>, ns: Namespace)
    requires Elements(a) == Elements(b)
    ensures HasFlag(Flags(a), ns) <==> HasFlag(Flags(b), ns)
  {
    FlagsHave(a, ns);
    FlagsHave(b, ns);
    assert ns in Elements(a) <==> ns in Elements(b);
  }

  /** The fold is insensitive to order and duplicates, and to nothing else. */
  lemma FlagsDetermined(a: seq<Namespace>, b: seq<Namespace>)
    ensures Flags(a) == Flags(b) <==> Elements(a) == Elements(b)
  {
    if Elements(a) == Elements(b) {
      forall ns: Namespace
        ensures HasFlag(Flags(a), ns) <==> HasFlag(Flags(b), ns)
      {
        SameElements(a, b, ns);
      }
      FoldKnown(0, a);
      FoldKnown(0, b);
      EightBits(Flags(a), Flags(b));
    } else if Flags(a) == Flags(b) {
      FlagsDecode(a);
      FlagsDecode(b);
    }
  }

  /** The namespaces unshared before the fork: all of them, or all but the user namespace. */
  function FirstLevel(list: seq<Namespace>, skipTwoStage: bool): seq<Namespace> {
    if skipTwoStage then list else WithoutUser(list)
  }

  function WithoutUser(list: seq<Namespace>): seq<Namespace> {
    if list == [] then []
    else (if list[0] != User then [list[0]] else []) + WithoutUser(list[1..])
  }

  lemma {:induction false} InWithoutUser(list: seq<Namespace>, ns: Namespace)
    ensures ns in WithoutUser(list) <==> ns in list && ns != User
  {
    if list != [] {
      InWithoutUser(list[1..], ns);
      InCons(list, ns);
    }
  }

  lemma FirstLevelElements(list: seq<Namespace>, skipTwoStage: bool)
    ensures Elements(FirstLevel(list, skipTwoStage)) == Elements(list) - (if skipTwoStage then {} else {User})
  {
    forall ns: Namespace
      ensures ns in WithoutUser(list) <==> ns in list && ns != User
    {
      InWithoutUser(list, ns);
    }
  }

  /** What the child unshares for itself in the two-stage path. */
  function SecondLevel(list: seq<Namespace>): seq<Namespace> {
    if User in list then [User] else []
  }

  lemma Associate(x: bv32, y: bv32, z: bv32)
    ensures (x | y) | z == x | (y | z)
    ensures 0 | y == y
  {
  }

  lemma {:induction false} FoldFrom(acc: bv32, list: seq<Namespace>)
    ensures Fold(acc, list) == acc | Fold(0, list)
    decreases |list|
  {
    if list != [] {
      var f, rest := ToCloneFlags(list[0]), list[1..];
      FoldFrom(AddFlag(acc, list[0]), rest);
      FoldFrom(AddFlag(0, list[0]), rest);
      Associate(acc, f, Fold(0, rest));
    }
  }

  lemma {:induction false} FoldAppend(acc: bv32, a: seq<Namespace>, b: seq<Namespace>)
    ensures Fold(acc, a + b) == Fold(Fold(acc, a), b)
    decreases |a|
  {
    if a == [] {
      assert a + b == b;
    } else {
      assert (a + b)[1..] == a[1..] + b;
      FoldAppend(AddFlag(acc, a[0]), a[1..], b);
    }
  }

  lemma FlagsAppend(a: seq<Namespace>, b: seq<Namespace>)
    ensures Flags(a + b) == Flags(a) | Flags(b)
  {
    FoldAppend(0, a, b);
    FoldFrom(Flags(a), b);
  }

  lemma StagesHaveTheElements(list: seq<Namespace>)
    ensures Elements(WithoutUser(list) + SecondLevel(list)) == Elements(list)
  {
    var first, second := WithoutUser(list), SecondLevel(list);
    FirstLevelElements(list, false);
    assert Elements(first + second) == Elements(first) + Elements(second);
    assert Elements(second) == if User in list then {User} else {};
  }

  /** The two unshare calls of the two-stage path ask, between them, for the same flags as
      one call over the whole list. */
  lemma TwoStagesCoverTheList(list: seq<Namespace>)
    ensures Flags(WithoutUser(list)) | Flags(SecondLevel(list)) == Flags(list)
  {
    FlagsAppend(WithoutUser(list), SecondLevel(list));
    StagesHaveTheElements(list);
    FlagsDetermined(WithoutUser(list) + SecondLevel(list), list);
  }
}
