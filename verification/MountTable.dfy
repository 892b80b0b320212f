/** The mounts of a mount namespace and what a path lookup finds in them: mount(2),
    mount_setattr(2), pivot_root(2).

    The table lists mounts in the order in which they were made. Every mount is made on what
    was visible at its mountpoint then, so the newest mount whose mountpoint is a prefix of
    a path is the one the path is looked up in. There are no symbolic links. */
module MountTable {
  import opened Wrappers

  type Path = seq<string>

  /** A place in a file system. */
  datatype Loc = Loc(fs: nat, path: Path)

  /** The attributes of mount_setattr(2) that matter here: MOUNT_ATTR_NOSUID, NODEV and NOEXEC
      together, and MOUNT_ATTR_RDONLY. */
  datatype MountAttrs = MountAttrs(safe: bool, readOnly: bool) {
    function With(more: MountAttrs): MountAttrs {
      MountAttrs(safe || more.safe, readOnly || more.readOnly)
    }
  }

  const NO_ATTRS := MountAttrs(false, false)

  const READ_ONLY := MountAttrs(false, true)

  /** A mount that a new user namespace got from a more privileged one is locked. */
  datatype Mount = Mount(at: Path, root: Loc, attrs: MountAttrs, locked: bool := false)

  type Table = seq<Mount>

  datatype Kind = Dir | File

  datatype Stat = Exists(kind: Kind) | NotFound | NotDirectory

  predicate Rooted(t: Table) {
    t != [] && t[0].at == []
  }

  /** The mount a path is looked up in. */
  function Top(t: Table, q: Path): (m: Mount)
    requires Rooted(t)
    ensures m in t && m.at <= q
  {
    if t[|t| - 1].at <= q then t[|t| - 1] else Top(t[..|t| - 1], q)
  }

  function LocIn(m: Mount, q: Path): Loc
    requires m.at <= q
  {
    Loc(m.root.fs, m.root.path + q[|m.at|..])
  }

  function LocAt(t: Table, q: Path): Loc
    requires Rooted(t)
  {
    LocIn(Top(t, q), q)
  }

  function AttrsAt(t: Table, q: Path): MountAttrs
    requires Rooted(t)
  {
    Top(t, q).attrs
  }

  lemma TopOfAppend(t: Table, m: Mount, q: Path)
    requires Rooted(t)
    ensures Rooted(t + [m])
    ensures Top(t + [m], q) == if m.at <= q then m else Top(t, q)
  {
    assert (t + [m])[..|t|] == t;
  }

  // ----- bind mounts -----

  /** The mount visible at `src` and, for a recursive bind, the mounts below `src` that came
      after it, moved to `dst`. The first copy is never locked, the others as their originals. */
  function Copies(t: Table, src: Path, dst: Path): Table
    requires Rooted(t)
  {
    var m, front := t[|t| - 1], t[..|t| - 1];
    if m.at <= src then [Mount(dst, LocIn(m, src), m.attrs)]
    else Copies(front, src, dst)
         + (if src < m.at then [Mount(dst + m.at[|src|..], m.root, m.attrs, m.locked)] else [])
  }

  function Bound(t: Table, src: Path, dst: Path, recurse: bool): Table
    requires Rooted(t)
  {
    t + (if recurse then Copies(t, src, dst) else [Mount(dst, LocAt(t, src), AttrsAt(t, src))])
  }

  lemma {:induction false} CopiesBelow(t: Table, src: Path, dst: Path)
    requires Rooted(t)
    ensures forall m :: m in Copies(t, src, dst) ==> dst <= m.at
    ensures Copies(t, src, dst) != []
    ensures Copies(t, src, dst)[0].at == dst
  {
    if !(t[|t| - 1].at <= src) {
      CopiesBelow(t[..|t| - 1], src, dst);
    }
  }

  /** A copy moved by one component list shows the same place as its original. */
  lemma MovedMount(m: Mount, src: Path, dst: Path, r: Path)
    requires src <= m.at
    ensures var c := Mount(dst + m.at[|src|..], m.root, m.attrs, m.locked);
      && (c.at <= dst + r <==> m.at <= src + r)
      && (m.at <= src + r ==> LocIn(c, dst + r) == LocIn(m, src + r))
  {
    var tail := m.at[|src|..];
    assert m.at == src + tail;
    var c := Mount(dst + tail, m.root, m.attrs, m.locked);
    if m.at <= src + r {
      PrefixCancel(src, tail, r);
      assert (src + r)[|m.at|..] == r[|tail|..];
      assert (dst + r)[|c.at|..] == r[|tail|..];
    }
    if c.at <= dst + r {
      PrefixCancel(dst, tail, r);
    }
    if tail <= r {
      PrefixExtend(src, tail, r);
      PrefixExtend(dst, tail, r);
    }
  }

  lemma PrefixCancel(a: Path, b: Path, c: Path)
    requires a + b <= a + c
    ensures b <= c
  {
    assert forall i :: 0 <= i < |b| ==> b[i] == (a + b)[|a| + i] == (a + c)[|a| + i];
  }

  lemma PrefixExtend(a: Path, b: Path, c: Path)
    requires b <= c
    ensures a + b <= a + c
  {
    assert c == b + c[|b|..];
    assert a + c == (a + b) + c[|b|..];
  }

  /** Two prefixes of one path are comparable. */
  lemma PrefixesCompare(a: Path, b: Path, q: Path)
    requires a <= q && b <= q
    ensures a <= b || b <= a
  {
    if |a| <= |b| {
      assert a == q[..|a|] == b[..|a|];
    } else {
      assert b == q[..|b|] == a[..|b|];
    }
  }

  lemma TailOfLonger(a: Path, b: Path, r: Path, front: Path)
    requires a <= b
    ensures a <= b + r
    ensures front + (b + r)[|a|..] == (front + b[|a|..]) + r
  {
    assert b + r == a + (b[|a|..] + r);
    assert (b + r)[|a|..] == b[|a|..] + r;
  }

  lemma RootCopyShows(base: Table, m: Mount, src: Path, dst: Path, r: Path)
    requires Rooted(base) && m.at <= src
    ensures var c := Mount(dst, LocIn(m, src), m.attrs);
      && Rooted(base + [c])
      && m.at <= src + r
      && Top(base + [c], dst + r) == c
      && LocIn(c, dst + r) == LocIn(m, src + r)
  {
    TopOfAppend(base, Mount(dst, LocIn(m, src), m.attrs), dst + r);
    TailOfLonger(m.at, src, r, m.root.path);
    assert (dst + r)[|dst|..] == r;
  }

  /** Two tables show the same at two paths. */
  predicate SameSight(a: Table, p: Path, b: Table, q: Path)
    requires Rooted(a) && Rooted(b)
  {
    LocAt(a, p) == LocAt(b, q) && AttrsAt(a, p) == AttrsAt(b, q)
  }

  lemma NextCopyShows(copied: Table, front: Table, m: Mount, src: Path, dst: Path, r: Path)
    requires Rooted(copied) && Rooted(front) && src <= m.at
    requires SameSight(copied, dst + r, front, src + r)
    ensures var c := Mount(dst + m.at[|src|..], m.root, m.attrs, m.locked);
      && Rooted(copied + [c]) && Rooted(front + [m])
      && SameSight(copied + [c], dst + r, front + [m], src + r)
  {
    var c := Mount(dst + m.at[|src|..], m.root, m.attrs, m.locked);
    TopOfAppend(copied, c, dst + r);
    TopOfAppend(front, m, src + r);
    MovedMount(m, src, dst, r);
  }

  /** Everything below the destination of a recursive bind shows what is below its source. */
  lemma {:induction false} CopiesShow(base: Table, t: Table, src: Path, dst: Path, r: Path)
    requires Rooted(base) && Rooted(t)
    ensures Rooted(base + Copies(t, src, dst))
    ensures SameSight(base + Copies(t, src, dst), dst + r, t, src + r)
    decreases |t|
  {
    var m, front := t[|t| - 1], t[..|t| - 1];
    assert t == front + [m];
    if m.at <= src {
      RootCopyShows(base, m, src, dst, r);
    } else if src < m.at {
      var c := Mount(dst + m.at[|src|..], m.root, m.attrs, m.locked);
      CopiesShow(base, front, src, dst, r);
      assert base + Copies(t, src, dst) == (base + Copies(front, src, dst)) + [c];
      NextCopyShows(base + Copies(front, src, dst), front, m, src, dst, r);
    } else {
      CopiesShow(base, front, src, dst, r);
      assert Copies(t, src, dst) == Copies(front, src, dst);
      if m.at <= src + r {
        PrefixesCompare(m.at, src, src + r);
      }
    }
  }

  /** Whether a path lies on the mount visible at `src`, or on a mount below it. */
  predicate OnOwnMount(t: Table, src: Path, r: Path)
    requires Rooted(t)
  {
    Top(t, src + r).at <= src
  }

  /** The paths on the mount a recursive bind starts from are on the mount it makes first. */
  lemma {:induction false} CopiesOwn(base: Table, t: Table, src: Path, dst: Path, r: Path)
    requires Rooted(base) && Rooted(t)
    ensures Rooted(base + Copies(t, src, dst))
    ensures OnOwnMount(base + Copies(t, src, dst), dst, r) <==> OnOwnMount(t, src, r)
    decreases |t|
  {
    var m, front := t[|t| - 1], t[..|t| - 1];
    if m.at <= src {
      TopOfAppend(base, Mount(dst, LocIn(m, src), m.attrs), dst + r);
      assert m.at <= src + r;
    } else if src < m.at {
      CopiesOwn(base, front, src, dst, r);
      var copied, c := base + Copies(front, src, dst), Mount(dst + m.at[|src|..], m.root, m.attrs, m.locked);
      assert base + Copies(t, src, dst) == copied + [c];
      TopOfAppend(copied, c, dst + r);
      MovedMount(m, src, dst, r);
    } else {
      CopiesOwn(base, front, src, dst, r);
      assert Copies(t, src, dst) == Copies(front, src, dst);
      if m.at <= src + r {
        PrefixesCompare(m.at, src, src + r);
      }
    }
  }

  /** Mounts that come before a mount on "/" are out of sight. */
  lemma {:induction false} TopPastRoot(base: Table, t: Table, q: Path)
    requires Rooted(base) && Rooted(t)
    ensures Rooted(base + t) && Top(base + t, q) == Top(t, q)
    decreases |t|
  {
    var m, front := t[|t| - 1], t[..|t| - 1];
    assert base + t == (base + front) + [m];
    if front == [] {
      assert base + front == base;
      TopOfAppend(base, m, q);
    } else {
      TopPastRoot(base, front, q);
      TopOfAppend(base + front, m, q);
    }
  }

  /** The destination of a recursive bind is a mountpoint, and not a locked one. */
  lemma {:induction false} BlockTop(base: Table, t: Table, src: Path, dst: Path)
    requires Rooted(base) && Rooted(t)
    ensures Rooted(base + Copies(t, src, dst))
    ensures Top(base + Copies(t, src, dst), dst).at == dst && !Top(base + Copies(t, src, dst), dst).locked
    decreases |t|
  {
    var m, front := t[|t| - 1], t[..|t| - 1];
    if m.at <= src {
      TopOfAppend(base, Mount(dst, LocIn(m, src), m.attrs), dst);
    } else {
      BlockTop(base, front, src, dst);
      if src < m.at {
        var copied, c := base + Copies(front, src, dst), Mount(dst + m.at[|src|..], m.root, m.attrs, m.locked);
        assert base + Copies(t, src, dst) == copied + [c];
        assert |c.at| > |dst|;
        TopOfAppend(copied, c, dst);
      } else {
        assert Copies(t, src, dst) == Copies(front, src, dst);
      }
    }
  }

  /** A block of mounts below one path changes nothing elsewhere. */
  lemma {:induction false} BlockElsewhere(base: Table, block: Table, dst: Path, q: Path)
    requires Rooted(base) && !(dst <= q)
    requires forall m :: m in block ==> dst <= m.at
    ensures Rooted(base + block)
    ensures Top(base + block, q) == Top(base, q)
    decreases |block|
  {
    if block == [] {
      assert base + block == base;
    } else {
      var front, m := block[..|block| - 1], block[|block| - 1];
      BlockElsewhere(base, front, dst, q);
      assert base + block == (base + front) + [m];
      TopOfAppend(base + front, m, q);
    }
  }

  // ----- mount attributes -----

  function Marking(m: Mount, more: MountAttrs): Mount {
    m.(attrs := m.attrs.With(more))
  }

  /** Attributes added to the mount visible at `at` and, recursively, to the later mounts below
      it. */
  function Marked(t: Table, at: Path, recurse: bool, more: MountAttrs): (r: Table)
    requires Rooted(t)
    ensures |r| == |t| && Rooted(r)
  {
    var m, front := t[|t| - 1], t[..|t| - 1];
    if m.at <= at then front + [Marking(m, more)]
    else Marked(front, at, recurse, more) + [if recurse && at <= m.at then Marking(m, more) else m]
  }

  /** The recursive form covers every path at or below `at` and touches nothing else. */
  lemma {:induction false} MarkedShows(t: Table, at: Path, more: MountAttrs, q: Path)
    requires Rooted(t) && Top(t, at).at == at
    ensures LocAt(Marked(t, at, true, more), q) == LocAt(t, q)
    ensures AttrsAt(Marked(t, at, true, more), q) == if at <= q then AttrsAt(t, q).With(more) else AttrsAt(t, q)
    decreases |t|
  {
    var m, front := t[|t| - 1], t[..|t| - 1];
    if m.at <= at {
      TopOfReplaced(front, Marking(m, more), t, q);
    } else {
      MarkedShows(front, at, more, q);
      var m' := if at <= m.at then Marking(m, more) else m;
      TopOfAppend(Marked(front, at, true, more), m', q);
      if m.at <= q && at <= q {
        PrefixesCompare(m.at, at, q);
      }
    }
  }

  /** The plain form covers the one mount, not the mounts below it. */
  lemma {:induction false} MarkedShallow(t: Table, at: Path, more: MountAttrs, q: Path)
    requires Rooted(t) && Top(t, at).at == at
    ensures LocAt(Marked(t, at, false, more), q) == LocAt(t, q)
    ensures Top(Marked(t, at, false, more), q).at == Top(t, q).at
    ensures AttrsAt(Marked(t, at, false, more), q)
      == if at <= q && Top(t, q).at <= at then AttrsAt(t, q).With(more) else AttrsAt(t, q)
    decreases |t|
  {
    var m, front := t[|t| - 1], t[..|t| - 1];
    if m.at <= at {
      TopOfReplaced(front, Marking(m, more), t, q);
    } else {
      MarkedShallow(front, at, more, q);
      TopOfAppend(Marked(front, at, false, more), m, q);
    }
  }

  /** Neither form touches a mount elsewhere. */
  lemma {:induction false} MarkedElsewhere(t: Table, at: Path, recurse: bool, more: MountAttrs, q: Path)
    requires Rooted(t) && Top(t, at).at == at && !(at <= q)
    ensures Top(Marked(t, at, recurse, more), q) == Top(t, q)
    decreases |t|
  {
    var m, front := t[|t| - 1], t[..|t| - 1];
    if m.at <= at {
      TopOfReplaced(front, Marking(m, more), t, q);
    } else {
      MarkedElsewhere(front, at, recurse, more, q);
      TopOfAppend(Marked(front, at, recurse, more), if recurse && at <= m.at then Marking(m, more) else m, q);
    }
  }

  lemma {:induction false} MarkedTop(t: Table, at: Path, recurse: bool, more: MountAttrs)
    requires Rooted(t) && Top(t, at).at == at
    ensures Top(Marked(t, at, recurse, more), at).at == at
    ensures Top(Marked(t, at, recurse, more), at).locked == Top(t, at).locked
    decreases |t|
  {
    var m, front := t[|t| - 1], t[..|t| - 1];
    if m.at <= at {
      TopOfReplaced(front, Marking(m, more), t, at);
    } else {
      MarkedTop(front, at, recurse, more);
      TopOfAppend(Marked(front, at, recurse, more), if recurse && at <= m.at then Marking(m, more) else m, at);
    }
  }

  /** Replacing the last mount by one with the same mountpoint. */
  lemma TopOfReplaced(front: Table, m: Mount, t: Table, q: Path)
    requires Rooted(t) && front == t[..|t| - 1] && m.at == t[|t| - 1].at
    ensures Rooted(front + [m])
    ensures Top(front + [m], q) == if m.at <= q then m else Top(t, q)
  {
    assert (front + [m])[..|front|] == front;
  }

  // ----- locked mounts -----

  /** Whether a locked mount sits strictly below a path on the mount visible there; a bind of that
      mount alone would uncover what is under it. */
  predicate LockedBelow(t: Table, src: Path)
    requires Rooted(t)
  {
    var m, front := t[|t| - 1], t[..|t| - 1];
    if m.at <= src then false
    else LockedBelow(front, src) || (m.locked && src < m.at && Top(front, m.at).at <= src)
  }

  /** The `i`-th mount is such a mount: none that came later hides the mount it sits on. */
  predicate SitsBelow(t: Table, src: Path, i: nat)
    requires Rooted(t) && 0 < i < |t|
  {
    && src < t[i].at && Top(t[..i], t[i].at).at <= src
    && forall j :: i < j < |t| ==> !(t[j].at <= src)
  }

  lemma SitsBelowFront(t: Table, src: Path, i: nat)
    requires Rooted(t) && 0 < i < |t| - 1 && !(t[|t| - 1].at <= src)
    ensures Rooted(t[..|t| - 1]) && (SitsBelow(t, src, i) <==> SitsBelow(t[..|t| - 1], src, i))
  {
    assert t[..|t| - 1][..i] == t[..i];
  }

  lemma {:induction false} LockedSits(t: Table, src: Path) returns (i: nat)
    requires Rooted(t) && LockedBelow(t, src)
    ensures 0 < i < |t| && t[i].locked && SitsBelow(t, src, i)
    decreases |t|
  {
    var last := |t| - 1;
    if t[last].locked && src < t[last].at && Top(t[..last], t[last].at).at <= src {
      i := last;
    } else {
      i := LockedSits(t[..last], src);
      SitsBelowFront(t, src, i);
    }
  }

  lemma {:induction false} SittingLocks(t: Table, src: Path, i: nat)
    requires Rooted(t) && 0 < i < |t| && t[i].locked && SitsBelow(t, src, i)
    ensures LockedBelow(t, src)
    decreases |t|
  {
    if i < |t| - 1 {
      SitsBelowFront(t, src, i);
      SittingLocks(t[..|t| - 1], src, i);
    }
  }

  lemma LockedBelowIff(t: Table, src: Path)
    requires Rooted(t)
    ensures LockedBelow(t, src) <==> exists i: nat :: 0 < i < |t| && t[i].locked && SitsBelow(t, src, i)
  {
    if LockedBelow(t, src) {
      var i := LockedSits(t, src);
    }
    if i: nat :| 0 < i < |t| && t[i].locked && SitsBelow(t, src, i) {
      SittingLocks(t, src, i);
    }
  }

  /** What is mounted elsewhere later unlocks nothing. */
  lemma {:induction false} LockedBelowStays(base: Table, block: Table, src: Path)
    requires Rooted(base) && LockedBelow(base, src)
    requires forall m :: m in block ==> !(m.at <= src)
    ensures Rooted(base + block) && LockedBelow(base + block, src)
    decreases |block|
  {
    if block == [] {
      assert base + block == base;
    } else {
      var front, m := block[..|block| - 1], block[|block| - 1];
      LockedBelowStays(base, front, src);
      assert (base + block)[..|base + block| - 1] == base + front;
    }
  }

  lemma {:induction false} LockedBelowMarked(t: Table, at: Path, recurse: bool, more: MountAttrs, src: Path)
    requires Rooted(t)
    ensures LockedBelow(Marked(t, at, recurse, more), src) <==> LockedBelow(t, src)
    decreases |t|
  {
    var m, front := t[|t| - 1], t[..|t| - 1];
    var after := Marked(t, at, recurse, more);
    if m.at <= at {
      assert after[..|after| - 1] == front;
    } else {
      LockedBelowMarked(front, at, recurse, more, src);
      assert after[..|after| - 1] == Marked(front, at, recurse, more);
      MarkedTopAt(front, at, recurse, more, m.at);
    }
  }

  lemma {:induction false} MarkedTopAt(t: Table, at: Path, recurse: bool, more: MountAttrs, q: Path)
    requires Rooted(t)
    ensures Top(Marked(t, at, recurse, more), q).at == Top(t, q).at
    decreases |t|
  {
    var m, front := t[|t| - 1], t[..|t| - 1];
    if m.at <= at {
      TopOfReplaced(front, Marking(m, more), t, q);
    } else {
      MarkedTopAt(front, at, recurse, more, q);
      TopOfAppend(Marked(front, at, recurse, more), if recurse && at <= m.at then Marking(m, more) else m, q);
    }
  }

  /** The mounts of a new mount namespace that a new user namespace owns: copies of those of the
      old one, all locked but the first. */
  function Inherited(t: Table): (r: Table)
    requires Rooted(t)
    ensures |r| == |t| && Rooted(r)
  {
    if |t| == 1 then t else Inherited(t[..|t| - 1]) + [t[|t| - 1].(locked := true)]
  }

  /** They show what the old ones show. */
  lemma {:induction false} InheritedTop(t: Table, q: Path)
    requires Rooted(t)
    ensures var top := Top(Inherited(t), q); top.(locked := false) == Top(t, q).(locked := false)
    decreases |t|
  {
    if |t| > 1 {
      var m, front := t[|t| - 1], t[..|t| - 1];
      InheritedTop(front, q);
      TopOfAppend(Inherited(front), m.(locked := true), q);
    }
  }

  lemma {:induction false} InheritedLocks(t: Table, i: nat)
    requires Rooted(t) && i < |t|
    ensures Inherited(t)[i] == if i == 0 then t[i] else t[i].(locked := true)
    decreases |t|
  {
    if i < |t| - 1 {
      InheritedLocks(t[..|t| - 1], i);
    }
  }

  lemma {:induction false} InheritedFront(t: Table, i: nat)
    requires Rooted(t) && 0 < i <= |t|
    ensures Inherited(t)[..i] == Inherited(t[..i])
    decreases |t|
  {
    if i == |t| {
      assert t[..i] == t && Inherited(t)[..i] == Inherited(t);
    } else {
      InheritedFront(t[..|t| - 1], i);
      assert t[..|t| - 1][..i] == t[..i];
    }
  }

  lemma InheritedSits(t: Table, src: Path, i: nat)
    requires Rooted(t) && 0 < i < |t|
    ensures Inherited(t)[i].locked && (SitsBelow(Inherited(t), src, i) <==> SitsBelow(t, src, i))
  {
    InheritedLocks(t, i);
    InheritedFront(t, i);
    InheritedTop(t[..i], t[i].at);
    forall j | i < j < |t|
      ensures Inherited(t)[j].at == t[j].at
    {
      InheritedLocks(t, j);
    }
  }

  /** There every mount strictly below a path locks it. */
  lemma InheritedLockedBelowIff(t: Table, src: Path)
    requires Rooted(t)
    ensures LockedBelow(Inherited(t), src) <==> exists i: nat :: 0 < i < |t| && SitsBelow(t, src, i)
  {
    LockedBelowIff(Inherited(t), src);
    forall i: nat | 0 < i < |t|
      ensures Inherited(t)[i].locked && (SitsBelow(Inherited(t), src, i) <==> SitsBelow(t, src, i))
    {
      InheritedSits(t, src, i);
    }
  }
}
