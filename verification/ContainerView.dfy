/** What the container sees: the hardened tree in the container's own paths, after the pivot
    (`pivot_fs`, src/wrap.rs). */
module ContainerView {
  import opened Wrappers
  import opened Paths
  import opened MountTable
  import opened Hardening
  import opened MountCalls
  import opened PivotFs
  import opened StableNodes

  /** The container paths that a list of texts names. */
  function Named(paths: seq<string>): set<Path> {
    set p | p in paths :: Components(p)
  }

  /** The same below the directory the tree is assembled in. */
  function Below(root: Path, rs: set<Path>): set<Path> {
    set r | r in rs :: root + r
  }

  lemma NamedSnoc(paths: seq<string>, i: nat)
    requires i < |paths|
    ensures Named(paths[..i + 1]) == Named(paths[..i]) + {Components(paths[i])}
  {
    assert paths[..i + 1] == paths[..i] + [paths[i]];
    assert paths[i] in paths[..i + 1];
    forall p | p in paths[..i + 1]
      ensures p in paths[..i] || p == paths[i]
    {
    }
    forall p | p in paths[..i]
      ensures p in paths[..i + 1]
    {
    }
  }

  lemma BelowMore(root: Path, rs: set<Path>, r: Path)
    ensures Below(root, rs + {r}) == Below(root, rs) + {root + r}
  {
    assert r in rs + {r};
    forall x | x in Below(root, rs)
      ensures x in Below(root, rs + {r})
    {
      var y :| y in rs && x == root + y;
      assert y in rs + {r};
    }
  }

  lemma BelowIff(root: Path, rs: set<Path>, r: Path)
    ensures root + r in Below(root, rs) <==> r in rs
  {
    if root + r in Below(root, rs) {
      var x :| x in rs && root + r == root + x;
      assert x == (root + x)[|root|..] == r;
    }
  }

  // ----- pivot -----

  lemma PivotTable(t: Table, root: Path, r: Path)
    requires Rooted(t)
    ensures Rooted(Copies(t, root, [])) && SameSight(Copies(t, root, []), r, t, root + r)
  {
    CopiesBelow(t, root, []);
    CopiesShow(t, t, root, [], r);
    TopPastRoot(t, Copies(t, root, []), r);
    assert [] + r == r;
  }

  lemma ParentBelow(root: Path, r: Path)
    requires r != []
    ensures root + r != [] && (root + r)[..|root + r| - 1] == root + r[..|r| - 1]
  {
  }

  lemma PivotSight(sp: Space, root: Path, r: Path)
    requires Rooted(sp.table)
    ensures var after := sp.(table := Copies(sp.table, root, []));
      && Rooted(after.table)
      && Where(after, r) == Where(sp, root + r)
      && Attrs(after, r) == Attrs(sp, root + r)
      && NodeAt(after, r) == NodeAt(sp, root + r)
  {
    PivotTable(sp.table, root, r);
  }

  /** After the pivot each path shows what it showed below the root. */
  lemma {:induction false} PivotShows(sp: Space, root: Path, r: Path)
    requires Rooted(sp.table) && StatAt(sp, root) == Exists(Dir)
    ensures var after := sp.(table := Copies(sp.table, root, []));
      && Rooted(after.table)
      && Where(after, r) == Where(sp, root + r)
      && Attrs(after, r) == Attrs(sp, root + r)
      && StatAt(after, r) == StatAt(sp, root + r)
    decreases |r|
  {
    PivotSight(sp, root, r);
    if r == [] {
      assert root + r == root;
      assert NodeAt(sp, root) == Exists(Dir);
    } else {
      PivotShows(sp, root, r[..|r| - 1]);
      ParentBelow(root, r);
    }
  }

  lemma PivotSane(sp: Space, root: Path)
    requires Sane(sp)
    ensures Sane(sp.(table := Copies(sp.table, root, [])))
  {
    PivotTable(sp.table, root, []);
    CopiesSane(sp.table, root, [], sp.nextFs);
  }

  // ----- the hardened tree -----

  /** Under a masked directory, in the container's paths. */
  ghost predicate HiddenBelow(before: Space, root: Path, masked: set<Path>, r: Path)
    requires Rooted(before.table)
  {
    exists m :: m in masked && m < r && StatAt(before, root + m) == Exists(Dir)
  }

  lemma HiddenBelowIff(before: Space, root: Path, masked: set<Path>, r: Path)
    requires Rooted(before.table)
    ensures HiddenBelow(before, root, masked, r) <==> Hidden(before, Below(root, masked), root + r)
  {
    if HiddenBelow(before, root, masked, r) {
      var m :| m in masked && m < r && StatAt(before, root + m) == Exists(Dir);
      PrefixExtend(root, m, r);
      assert root + m in Below(root, masked);
    }
    if Hidden(before, Below(root, masked), root + r) {
      var p :| p in Below(root, masked) && p < root + r && StatAt(before, p) == Exists(Dir);
      var m :| m in masked && p == root + m;
      PrefixCancel(root, m, r);
    }
  }

  lemma ListedBelowIff(root: Path, listed: set<Path>, r: Path)
    ensures ListedAbove(Below(root, listed), root + r) <==> ListedAbove(listed, r)
  {
    if m :| m in listed && m <= r {
      PrefixExtend(root, m, r);
      assert root + m in Below(root, listed);
    }
    if p :| p in Below(root, listed) && p <= root + r {
      var m :| m in listed && p == root + m;
      PrefixCancel(root, m, r);
    }
  }

  /** One path of the container, compared with the assembled tree: nothing below a masked
      directory, an empty directory or the null device for a masked path, and else what was
      there; read-only if it was or if it is at or below a listed path. */
  ghost predicate ContainerSight(before: Space, root: Path, after: Space, masked: set<Path>, listed: set<Path>, r: Path)
    requires Rooted(before.table) && Rooted(after.table)
  {
    if HiddenBelow(before, root, masked, r) then
      StatAt(after, r) == NotFound
    else if r in masked && StatAt(before, root + r) == Exists(Dir) then
      && StatAt(after, r) == Exists(Dir) && Attrs(after, r) == MASK_ATTRS
      && Where(after, r).path == [] && Where(after, r).fs >= before.nextFs
    else if r in masked && StatAt(before, root + r) == Exists(File) then
      && StatAt(after, r) == Exists(File) && Where(after, r) == Where(before, DEV_NULL)
      && Attrs(after, r) == Covered(ListedAbove(listed, r), Attrs(before, DEV_NULL))
    else
      && StatAt(after, r) == StatAt(before, root + r)
      && (StatAt(after, r).Exists? ==>
          && Where(after, r) == Where(before, root + r)
          && Attrs(after, r) == Covered(ListedAbove(listed, r), Attrs(before, root + r)))
  }

  ghost predicate ContainerTree(before: Space, after: Space, req: FsRequest) {
    && Rooted(before.table) && Rooted(after.table)
    && forall r: Path :: ContainerSight(before, Components(req.Root()), after, Named(req.maskedPaths.GetOr([])),
                                        Named(req.readonlyPaths.GetOr([])), r)
  }

  lemma HardenedSight(before: Space, middle: Space, sealed: Space, root: Path,
                      masked: set<Path>, listed: set<Path>, r: Path)
    requires Masked(before, middle, Below(root, masked)) && Sealed(middle, sealed, Below(root, listed))
    requires StatAt(sealed, root) == Exists(Dir)
    ensures var after := sealed.(table := Copies(sealed.table, root, []));
      Rooted(after.table) && ContainerSight(before, root, after, masked, listed, r)
  {
    PivotShows(sealed, root, r);
    SealKeepsMasks(before, middle, sealed, Below(root, masked), Below(root, listed), root + r);
    HiddenBelowIff(before, root, masked, r);
    ListedBelowIff(root, listed, r);
    BelowIff(root, masked, r);
  }

  /** Whether every masked path of a list can be masked in turn. */
  ghost predicate AllMaskable(before: Space, root: Path, paths: seq<string>)
    requires Rooted(before.table)
  {
    forall i :: 0 <= i < |paths| ==>
      Maskable(before, Below(root, Named(paths[..i])), root + Components(paths[i]))
  }

  /** Whether no read-only path of a list leads through a file. */
  ghost predicate AllReachable(sp: Space, root: Path, paths: seq<string>)
    requires Rooted(sp.table)
  {
    forall i :: 0 <= i < |paths| ==> StatAt(sp, root + Components(paths[i])) != NotDirectory
  }

  lemma MaskableSnoc(before: Space, root: Path, paths: seq<string>, i: nat)
    requires Rooted(before.table) && i < |paths|
    ensures AllMaskable(before, root, paths[..i + 1]) <==>
      && AllMaskable(before, root, paths[..i])
      && Maskable(before, Below(root, Named(paths[..i])), root + Components(paths[i]))
  {
    assert forall k :: 0 <= k <= i ==> paths[..i + 1][..k] == paths[..k];
    assert forall k :: 0 <= k <= i ==> paths[..i][..k] == paths[..k];
  }

  lemma MaskableFails(before: Space, root: Path, paths: seq<string>, i: nat)
    requires Rooted(before.table) && i <= |paths| && !AllMaskable(before, root, paths[..i])
    ensures !AllMaskable(before, root, paths)
  {
    assert forall k :: 0 <= k < i ==> paths[..i][..k] == paths[..k];
  }

  lemma ReachableSnoc(sp: Space, root: Path, paths: seq<string>, i: nat)
    requires Rooted(sp.table) && i < |paths|
    ensures AllReachable(sp, root, paths[..i + 1]) <==>
      AllReachable(sp, root, paths[..i]) && StatAt(sp, root + Components(paths[i])) != NotDirectory
  {
    assert paths[..i + 1][i] == paths[i];
    assert forall k :: 0 <= k < i ==> paths[..i + 1][k] == paths[..i][k];
  }

  lemma ReachableFails(sp: Space, root: Path, paths: seq<string>, i: nat)
    requires Rooted(sp.table) && i <= |paths| && !AllReachable(sp, root, paths[..i])
    ensures !AllReachable(sp, root, paths)
  {
  }

  /** When hardening an assembled tree and pivoting to it succeed. */
  ghost predicate Hardenable(before: Space, req: FsRequest)
    requires Rooted(before.table)
  {
    var root, masked := Components(req.Root()), req.maskedPaths.GetOr([]);
    && root != []
    && AllMaskable(before, root, masked)
    && forall i :: 0 <= i < |req.readonlyPaths.GetOr([])| ==>
        var r := Components(req.readonlyPaths.GetOr([])[i]);
        StatAt(before, root + r) == NotDirectory ==> HiddenBelow(before, root, Named(masked), r)
  }

  /** Masking turns a way through a file into a missing path, or leaves it alone. */
  lemma ReachableIff(before: Space, middle: Space, root: Path, masked: set<Path>, r: Path)
    requires Masked(before, middle, Below(root, masked))
    ensures StatAt(middle, root + r) != NotDirectory <==>
      (StatAt(before, root + r) == NotDirectory ==> HiddenBelow(before, root, masked, r))
  {
    assert MaskedSight(before, middle, Below(root, masked), root + r);
    HiddenBelowIff(before, root, masked, r);
  }

  lemma Unhidden(before: Space, root: Path, masked: set<Path>, r: Path)
    requires Rooted(before.table) && forall m :: m in masked ==> !(m <= r)
    ensures !HiddenBelow(before, root, masked, r) && r !in masked
  {
  }

  /** A path apart from the masked ones is what it was. */
  lemma UnmaskedSight(before: Space, after: Space, req: FsRequest, r: Path)
    requires ContainerTree(before, after, req) && Apart(Named(req.maskedPaths.GetOr([])), r)
    ensures var q, listed := Components(req.Root()) + r, Named(req.readonlyPaths.GetOr([]));
      && StatAt(after, r) == StatAt(before, q)
      && (StatAt(after, r).Exists? ==>
          && Where(after, r) == Where(before, q)
          && Attrs(after, r) == Covered(ListedAbove(listed, r), Attrs(before, q)))
  {
    Unhidden(before, Components(req.Root()), Named(req.maskedPaths.GetOr([])), r);
    assert ContainerSight(before, Components(req.Root()), after, Named(req.maskedPaths.GetOr([])),
                          Named(req.readonlyPaths.GetOr([])), r);
  }
}
