/** What masking and read-only binds do to the view of a file tree (`mask_path`,
    `make_readonly`, src/mount.rs): the effect of one call, and of a whole list of paths. */
module Hardening {
  import opened Wrappers
  import opened MountTable

  /** The mounts, the directories and files of every file system, the number of the next file
      system to be made, the file systems in which nothing can be created, and the instances
      of procfs among them that were mounted in this namespace. */
  datatype Space = Space(table: Table, nodes: map<Loc, Kind>, nextFs: nat, fixed: set<nat>, procs: set<nat>)

  /** The file systems are of the same kinds. */
  predicate SameKinds(a: Space, b: Space) {
    a.fixed == b.fixed && a.procs == b.procs
  }

  predicate Sane(sp: Space) {
    && Rooted(sp.table)
    && (forall m :: m in sp.table ==> m.root.fs < sp.nextFs)
    && (forall l :: l in sp.nodes ==> l.fs < sp.nextFs)
    && (forall n :: n in sp.fixed ==> n < sp.nextFs)
    && (forall n :: n in sp.procs ==> n < sp.nextFs)
  }

  function Where(sp: Space, q: Path): Loc
    requires Rooted(sp.table)
  {
    LocAt(sp.table, q)
  }

  function Attrs(sp: Space, q: Path): MountAttrs
    requires Rooted(sp.table)
  {
    AttrsAt(sp.table, q)
  }

  function NodeAt(sp: Space, q: Path): Stat
    requires Rooted(sp.table)
  {
    var l := Where(sp, q);
    if l in sp.nodes then Exists(sp.nodes[l]) else NotFound
  }

  /** stat(2): the first missing or ordinary component on the way decides. */
  function StatAt(sp: Space, q: Path): Stat
    requires Rooted(sp.table)
    decreases |q|
  {
    if q == [] then NodeAt(sp, q)
    else
      match StatAt(sp, q[..|q| - 1])
      case Exists(Dir) => NodeAt(sp, q)
      case Exists(File) => NotDirectory
      case NotFound => NotFound
      case NotDirectory => NotDirectory
  }

  // ----- lookups and prefixes -----

  lemma {:induction false} WayIsDirs(sp: Space, r: Path, q: Path)
    requires Rooted(sp.table) && r < q && StatAt(sp, q).Exists?
    ensures StatAt(sp, r) == Exists(Dir)
    decreases |q|
  {
    var parent := q[..|q| - 1];
    if r != parent {
      assert r <= parent;
      WayIsDirs(sp, r, parent);
    }
  }

  lemma {:induction false} BelowFile(sp: Space, r: Path, q: Path)
    requires Rooted(sp.table) && r < q && StatAt(sp, r) == Exists(File)
    ensures StatAt(sp, q) == NotDirectory
    decreases |q|
  {
    var parent := q[..|q| - 1];
    if r != parent {
      assert r <= parent;
      BelowFile(sp, r, parent);
    }
  }

  lemma {:induction false} BelowMissing(sp: Space, r: Path, q: Path)
    requires Rooted(sp.table) && r <= q && StatAt(sp, r) == NotFound
    ensures StatAt(sp, q) == NotFound
    decreases |q|
  {
    if r != q {
      assert r <= q[..|q| - 1];
      BelowMissing(sp, r, q[..|q| - 1]);
    }
  }

  lemma {:induction false} SameLookup(a: Space, b: Space, q: Path)
    requires Rooted(a.table) && Rooted(b.table) && a.nodes == b.nodes
    requires forall r: Path :: Where(a, r) == Where(b, r)
    ensures StatAt(a, q) == StatAt(b, q)
    decreases |q|
  {
    assert Where(a, q) == Where(b, q);
    if q != [] {
      SameLookup(a, b, q[..|q| - 1]);
    }
  }

  // ----- one masked path -----

  const DEV_NULL: Path := ["dev", "null"]

  /** What masks a directory: nosuid, nodev, noexec and read-only. */
  const MASK_ATTRS := MountAttrs(true, true)

  /** An empty file system mounted on a directory. */
  function WithEmptyDir(sp: Space, p: Path): Space {
    sp.(table := sp.table + [Mount(p, Loc(sp.nextFs, []), MASK_ATTRS)],
        nodes := sp.nodes[Loc(sp.nextFs, []) := Dir],
        nextFs := sp.nextFs + 1)
  }

  /** The null device bound over a file. */
  function WithNull(sp: Space, p: Path): Space
    requires Rooted(sp.table)
  {
    sp.(table := Bound(sp.table, DEV_NULL, p, false))
  }

  lemma EmptyDirSane(sp: Space, p: Path)
    requires Sane(sp)
    ensures Sane(WithEmptyDir(sp, p))
  {
  }

  lemma NullSane(sp: Space, p: Path)
    requires Sane(sp)
    ensures Sane(WithNull(sp, p))
  {
    var m := Top(sp.table, DEV_NULL);
    assert m in sp.table;
  }

  lemma EmptyDirNode(sp: Space, p: Path, q: Path)
    requires Sane(sp)
    ensures var after := WithEmptyDir(sp, p);
      && Rooted(after.table)
      && (!(p <= q) ==> NodeAt(after, q) == NodeAt(sp, q) && Top(after.table, q) == Top(sp.table, q))
      && (p < q ==> NodeAt(after, q) == NotFound)
      && (p == q ==> NodeAt(after, q) == Exists(Dir) && Where(after, q) == Loc(sp.nextFs, []) && Attrs(after, q) == MASK_ATTRS)
  {
    TopOfAppend(sp.table, Mount(p, Loc(sp.nextFs, []), MASK_ATTRS), q);
    if !(p <= q) {
      assert Top(sp.table, q) in sp.table;
    } else if p < q {
      assert q[|p|..] != [];
    } else {
      assert [] + q[|p|..] == [];
    }
  }

  /** The whole effect of masking a directory. */
  lemma {:induction false} EmptyDirEffect(sp: Space, p: Path, q: Path)
    requires Sane(sp) && StatAt(sp, p) == Exists(Dir)
    ensures var after := WithEmptyDir(sp, p);
      && Rooted(after.table)
      && (!(p <= q) ==> StatAt(after, q) == StatAt(sp, q) && Top(after.table, q) == Top(sp.table, q))
      && (p < q ==> StatAt(after, q) == NotFound)
      && (p == q ==> StatAt(after, q) == Exists(Dir) && Where(after, q) == Loc(sp.nextFs, []) && Attrs(after, q) == MASK_ATTRS)
    decreases |q|
  {
    var after := WithEmptyDir(sp, p);
    EmptyDirNode(sp, p, q);
    if q != [] {
      var parent := q[..|q| - 1];
      EmptyDirEffect(sp, p, parent);
      if p < q && p != parent {
        assert p < parent;
      } else if p == q {
        assert !(p <= parent);
        assert StatAt(sp, parent) == Exists(Dir);
      } else if !(p <= q) {
        assert !(p <= parent);
      }
    }
  }

  lemma NullNode(sp: Space, p: Path, q: Path)
    requires Sane(sp) && StatAt(sp, DEV_NULL) == Exists(File)
    ensures var after := WithNull(sp, p);
      && Rooted(after.table)
      && (!(p <= q) ==> NodeAt(after, q) == NodeAt(sp, q) && Top(after.table, q) == Top(sp.table, q))
      && (p == q ==> NodeAt(after, q) == Exists(File) && SameSight(after.table, q, sp.table, DEV_NULL))
  {
    TopOfAppend(sp.table, Mount(p, Where(sp, DEV_NULL), Attrs(sp, DEV_NULL)), q);
    if p == q {
      assert Where(sp, DEV_NULL).path + q[|p|..] == Where(sp, DEV_NULL).path;
      assert NodeAt(sp, DEV_NULL) == Exists(File);
    }
  }

  /** The whole effect of masking a file. */
  lemma {:induction false} NullEffect(sp: Space, p: Path, q: Path)
    requires Sane(sp) && StatAt(sp, p) == Exists(File) && StatAt(sp, DEV_NULL) == Exists(File)
    ensures var after := WithNull(sp, p);
      && Rooted(after.table)
      && (!(p <= q) ==> StatAt(after, q) == StatAt(sp, q) && Top(after.table, q) == Top(sp.table, q))
      && (p < q ==> StatAt(after, q) == NotDirectory)
      && (p == q ==> StatAt(after, q) == Exists(File) && SameSight(after.table, q, sp.table, DEV_NULL))
    decreases |q|
  {
    NullNode(sp, p, q);
    if q != [] {
      var parent := q[..|q| - 1];
      NullEffect(sp, p, parent);
      if p < q && p != parent {
        assert p < parent;
      } else if p == q {
        assert !(p <= parent);
        assert StatAt(sp, parent) == Exists(Dir);
      } else if !(p <= q) {
        assert !(p <= parent);
      }
    }
  }

  // ----- a list of masked paths -----

  /** Under a masked directory. */
  ghost predicate Hidden(before: Space, masked: set<Path>, q: Path)
    requires Rooted(before.table)
  {
    exists p :: p in masked && p < q && StatAt(before, p) == Exists(Dir)
  }

  /** What one path shows after a set of paths was masked. */
  ghost predicate MaskedSight(before: Space, after: Space, masked: set<Path>, q: Path)
    requires Rooted(before.table) && Rooted(after.table)
  {
    if Hidden(before, masked, q) then
      StatAt(after, q) == NotFound
    else if q in masked && StatAt(before, q) == Exists(Dir) then
      // An empty file system made since, and nothing below it: see the first case.
      && StatAt(after, q) == Exists(Dir) && Attrs(after, q) == MASK_ATTRS
      && Where(after, q).path == [] && Where(after, q).fs >= before.nextFs
    else if q in masked && StatAt(before, q) == Exists(File) then
      // The null device as it is, usable as a device where it was.
      StatAt(after, q) == Exists(File) && SameSight(after.table, q, before.table, DEV_NULL)
    else
      && StatAt(after, q) == StatAt(before, q)
      && (StatAt(before, q).Exists? ==> SameSight(after.table, q, before.table, q))
  }

  ghost predicate Masked(before: Space, after: Space, masked: set<Path>) {
    && Sane(before) && Sane(after) && before.nextFs <= after.nextFs && SameKinds(before, after)
    && forall q: Path :: MaskedSight(before, after, masked, q)
  }

  lemma NothingMasked(sp: Space)
    requires Sane(sp)
    ensures Masked(sp, sp, {})
  {
  }

  lemma HiddenMore(before: Space, masked: set<Path>, p: Path, q: Path)
    requires Rooted(before.table)
    ensures Hidden(before, masked + {p}, q)
      <==> Hidden(before, masked, q) || (p < q && StatAt(before, p) == Exists(Dir))
  {
  }

  lemma MaskMissing(before: Space, sp: Space, masked: set<Path>, p: Path)
    requires Masked(before, sp, masked) && StatAt(sp, p) == NotFound
    ensures Masked(before, sp, masked + {p})
  {
    assert MaskedSight(before, sp, masked, p);
    forall q: Path
      ensures MaskedSight(before, sp, masked + {p}, q)
    {
      assert MaskedSight(before, sp, masked, q);
      HiddenMore(before, masked, p, q);
      if p < q && StatAt(before, p) == Exists(Dir) {
        assert Hidden(before, masked, p);
        HiddenFurther(before, masked, p, q);
      }
    }
  }

  lemma HiddenFurther(before: Space, masked: set<Path>, p: Path, q: Path)
    requires Rooted(before.table) && Hidden(before, masked, p) && p <= q
    ensures Hidden(before, masked, q)
  {
    var r :| r in masked && r < p && StatAt(before, r) == Exists(Dir);
    assert r < q;
  }

  lemma MaskDirSight(before: Space, sp: Space, masked: set<Path>, p: Path, q: Path)
    requires Sane(before) && Sane(sp) && before.nextFs <= sp.nextFs
    requires MaskedSight(before, sp, masked, p) && MaskedSight(before, sp, masked, q)
    requires StatAt(sp, p) == Exists(Dir)
    ensures Rooted(WithEmptyDir(sp, p).table)
    ensures MaskedSight(before, WithEmptyDir(sp, p), masked + {p}, q)
  {
    HiddenMore(before, masked, p, q);
    EmptyDirEffect(sp, p, q);
    assert StatAt(before, p) == Exists(Dir);
    if q == p {
      assert !Hidden(before, masked, p);
    }
  }

  lemma MaskDir(before: Space, sp: Space, masked: set<Path>, p: Path)
    requires Masked(before, sp, masked) && StatAt(sp, p) == Exists(Dir)
    ensures Masked(before, WithEmptyDir(sp, p), masked + {p})
  {
    EmptyDirSane(sp, p);
    assert MaskedSight(before, sp, masked, p);
    forall q: Path
      ensures MaskedSight(before, WithEmptyDir(sp, p), masked + {p}, q)
    {
      assert MaskedSight(before, sp, masked, q);
      MaskDirSight(before, sp, masked, p, q);
    }
  }

  /** The null device is still the original one, or cannot be bound at all. */
  lemma NullUnmoved(before: Space, sp: Space, masked: set<Path>)
    requires Masked(before, sp, masked) && StatAt(sp, DEV_NULL) == Exists(File)
    ensures SameSight(sp.table, DEV_NULL, before.table, DEV_NULL)
  {
    assert MaskedSight(before, sp, masked, DEV_NULL);
  }

  lemma MaskFileBelow(before: Space, sp: Space, masked: set<Path>, p: Path, q: Path)
    requires Sane(before) && Sane(sp) && p < q
    requires StatAt(before, p) == Exists(File) && !Hidden(before, masked, p)
    requires StatAt(sp, p) == Exists(File) && StatAt(sp, DEV_NULL) == Exists(File)
    ensures Rooted(WithNull(sp, p).table)
    ensures MaskedSight(before, WithNull(sp, p), masked + {p}, q)
  {
    NullEffect(sp, p, q);
    BelowFile(before, p, q);
    if Hidden(before, masked + {p}, q) {
      HiddenMore(before, masked, p, q);
      HiddenAboveFile(before, masked, p, q);
    }
  }

  lemma MaskFileSight(before: Space, sp: Space, masked: set<Path>, p: Path, q: Path)
    requires Sane(before) && Sane(sp) && !(p < q)
    requires StatAt(before, p) == Exists(File) && !Hidden(before, masked, p)
    requires MaskedSight(before, sp, masked, q)
    requires StatAt(sp, p) == Exists(File) && StatAt(sp, DEV_NULL) == Exists(File)
    requires SameSight(sp.table, DEV_NULL, before.table, DEV_NULL)
    ensures Rooted(WithNull(sp, p).table)
    ensures MaskedSight(before, WithNull(sp, p), masked + {p}, q)
  {
    HiddenMore(before, masked, p, q);
    NullEffect(sp, p, q);
    if p <= q {
      assert p == q;
    }
  }

  lemma MaskFile(before: Space, sp: Space, masked: set<Path>, p: Path)
    requires Masked(before, sp, masked)
    requires StatAt(sp, p) == Exists(File) && StatAt(sp, DEV_NULL) == Exists(File)
    ensures Masked(before, WithNull(sp, p), masked + {p})
  {
    NullSane(sp, p);
    NullUnmoved(before, sp, masked);
    assert MaskedSight(before, sp, masked, p);
    forall q: Path
      ensures MaskedSight(before, WithNull(sp, p), masked + {p}, q)
    {
      assert MaskedSight(before, sp, masked, q);
      if p < q {
        MaskFileBelow(before, sp, masked, p, q);
      } else {
        MaskFileSight(before, sp, masked, p, q);
      }
    }
  }

  lemma NoDirBelowFile(sp: Space, p: Path, r: Path)
    requires Rooted(sp.table) && StatAt(sp, p) == Exists(File) && p <= r
    ensures StatAt(sp, r) != Exists(Dir)
  {
    if |p| < |r| {
      BelowFile(sp, p, r);
    } else {
      assert p == r;
    }
  }

  /** What hides a path below a file hides the file. */
  lemma HiddenAboveFile(before: Space, masked: set<Path>, p: Path, q: Path)
    requires Rooted(before.table) && StatAt(before, p) == Exists(File) && p < q
    requires Hidden(before, masked, q)
    ensures Hidden(before, masked, p)
  {
    var r :| r in masked && r < q && StatAt(before, r) == Exists(Dir);
    PrefixesCompare(r, p, q);
    if p <= r {
      NoDirBelowFile(before, p, r);
    }
  }

  /** Whether the next path of a list can be masked: it is gone or missing, a directory, or a
      file while the null device can still be bound. Only the view before the loop and the
      paths masked so far decide. */
  ghost predicate Maskable(before: Space, masked: set<Path>, p: Path)
    requires Rooted(before.table)
  {
    || Hidden(before, masked, p)
    || StatAt(before, p) == NotFound
    || StatAt(before, p) == Exists(Dir)
    || (&& StatAt(before, p) == Exists(File)
        && !Hidden(before, masked, DEV_NULL)
        && StatAt(before, DEV_NULL) == Exists(File))
  }

  lemma MaskableIff(before: Space, sp: Space, masked: set<Path>, p: Path)
    requires Masked(before, sp, masked)
    ensures Maskable(before, masked, p) <==>
      || StatAt(sp, p) == NotFound
      || StatAt(sp, p) == Exists(Dir)
      || (StatAt(sp, p) == Exists(File) && StatAt(sp, DEV_NULL) == Exists(File))
  {
    assert MaskedSight(before, sp, masked, p);
    assert MaskedSight(before, sp, masked, DEV_NULL);
  }

  // ----- read-only paths -----

  /** The path bound over itself with everything below it, then read-only recursively. */
  function WithReadOnly(sp: Space, p: Path): Space
    requires Rooted(sp.table)
  {
    sp.(table := Marked(Bound(sp.table, p, p, true), p, true, READ_ONLY))
  }

  /** Attributes under a read-only cover, or not. */
  function Covered(cover: bool, attrs: MountAttrs): (r: MountAttrs)
    ensures r.safe == attrs.safe
    ensures r.readOnly <==> cover || attrs.readOnly
  {
    if cover then attrs.With(READ_ONLY) else attrs
  }

  /** The bind over itself shows at every path what was there. */
  lemma SelfBindShows(t: Table, p: Path, q: Path)
    requires Rooted(t)
    ensures var after := Bound(t, p, p, true);
      && Rooted(after)
      && SameSight(after, q, t, q)
  {
    if p <= q {
      CopiesShow(t, t, p, p, q[|p|..]);
      assert p + q[|p|..] == q;
    } else {
      CopiesBelow(t, p, p);
      BlockElsewhere(t, Copies(t, p, p), p, q);
    }
  }

  lemma SelfBindTop(t: Table, p: Path)
    requires Rooted(t)
    ensures Rooted(Bound(t, p, p, true))
    ensures Top(Bound(t, p, p, true), p).at == p && !Top(Bound(t, p, p, true), p).locked
  {
    BlockTop(t, t, p, p);
  }

  lemma ReadOnlyEffect(sp: Space, p: Path, q: Path)
    requires Rooted(sp.table)
    ensures var after := WithReadOnly(sp, p);
      && Rooted(after.table)
      && Where(after, q) == Where(sp, q)
      && Attrs(after, q) == Covered(p <= q, Attrs(sp, q))
  {
    SelfBindShows(sp.table, p, q);
    SelfBindTop(sp.table, p);
    MarkedShows(Bound(sp.table, p, p, true), p, READ_ONLY, q);
  }

  /** What a set of read-only paths does: no path shows anything else than before, and exactly
      the paths at or below an existing listed one become read-only. */
  ghost predicate Sealed(before: Space, after: Space, listed: set<Path>) {
    && Rooted(before.table) && Rooted(after.table)
    && after.nodes == before.nodes && after.nextFs == before.nextFs && SameKinds(before, after)
    && (forall q: Path :: Where(after, q) == Where(before, q))
    && (forall q: Path :: StatAt(after, q) == StatAt(before, q))
    && (forall q: Path :: Attrs(after, q) == Covered(UnderListed(before, listed, q), Attrs(before, q)))
  }

  ghost predicate UnderListed(before: Space, listed: set<Path>, q: Path)
    requires Rooted(before.table)
  {
    exists p :: p in listed && p <= q && StatAt(before, p).Exists?
  }

  lemma NothingSealed(sp: Space)
    requires Rooted(sp.table)
    ensures Sealed(sp, sp, {})
  {
  }

  lemma SealMissing(before: Space, sp: Space, listed: set<Path>, p: Path)
    requires Sealed(before, sp, listed) && !StatAt(sp, p).Exists?
    ensures Sealed(before, sp, listed + {p})
  {
    assert StatAt(before, p) == StatAt(sp, p);
    forall q: Path
      ensures UnderListed(before, listed + {p}, q) <==> UnderListed(before, listed, q)
    {
    }
  }

  lemma UnderListedMore(before: Space, listed: set<Path>, p: Path, q: Path)
    requires Rooted(before.table) && StatAt(before, p).Exists?
    ensures UnderListed(before, listed + {p}, q) <==> UnderListed(before, listed, q) || p <= q
  {
    if p <= q {
      assert p in listed + {p};
    }
  }

  lemma SealExisting(before: Space, sp: Space, listed: set<Path>, p: Path)
    requires Sealed(before, sp, listed) && StatAt(sp, p).Exists?
    ensures Sealed(before, WithReadOnly(sp, p), listed + {p})
  {
    var after := WithReadOnly(sp, p);
    ReadOnlyEffect(sp, p, p);
    assert StatAt(before, p) == StatAt(sp, p);
    forall q: Path
      ensures Where(after, q) == Where(sp, q)
      ensures Attrs(after, q) == Covered(UnderListed(before, listed + {p}, q), Attrs(before, q))
    {
      ReadOnlyEffect(sp, p, q);
      assert Attrs(sp, q) == Covered(UnderListed(before, listed, q), Attrs(before, q));
      UnderListedMore(before, listed, p, q);
    }
    forall q: Path
      ensures StatAt(after, q) == StatAt(before, q)
    {
      SameLookup(after, sp, q);
    }
  }

  // ----- both lists -----

  /** At or below a listed path. */
  ghost predicate ListedAbove(listed: set<Path>, q: Path) {
    exists p :: p in listed && p <= q
  }

  /** A path that exists is under a listed path only together with an existing one. */
  lemma UnderListedIff(sp: Space, listed: set<Path>, q: Path)
    requires Rooted(sp.table) && StatAt(sp, q).Exists?
    ensures UnderListed(sp, listed, q) <==> ListedAbove(listed, q)
  {
    forall p | p in listed && p <= q
      ensures StatAt(sp, p).Exists?
    {
      if p != q {
        assert p < q;
        WayIsDirs(sp, p, q);
      }
    }
  }

  /** The view after masking and then making paths read-only. Masks survive, even below a
      read-only ancestor; what exists at or below a listed path is read-only. */
  lemma SealKeepsMasks(before: Space, middle: Space, after: Space, masked: set<Path>, listed: set<Path>, q: Path)
    requires Masked(before, middle, masked) && Sealed(middle, after, listed)
    ensures if Hidden(before, masked, q) then
        StatAt(after, q) == NotFound
      else if q in masked && StatAt(before, q) == Exists(Dir) then
        && StatAt(after, q) == Exists(Dir) && Attrs(after, q) == MASK_ATTRS
        && Where(after, q).path == [] && Where(after, q).fs >= before.nextFs
      else if q in masked && StatAt(before, q) == Exists(File) then
        && StatAt(after, q) == Exists(File) && Where(after, q) == Where(before, DEV_NULL)
        && Attrs(after, q) == Covered(ListedAbove(listed, q), Attrs(before, DEV_NULL))
      else
        && StatAt(after, q) == StatAt(before, q)
        && (StatAt(before, q).Exists? ==>
            && Where(after, q) == Where(before, q)
            && Attrs(after, q) == Covered(ListedAbove(listed, q), Attrs(before, q)))
  {
    assert MaskedSight(before, middle, masked, q);
    assert StatAt(after, q) == StatAt(middle, q);
    assert Where(after, q) == Where(middle, q);
    assert Attrs(after, q) == Covered(UnderListed(middle, listed, q), Attrs(middle, q));
    if StatAt(middle, q).Exists? {
      UnderListedIff(middle, listed, q);
    }
  }
}
