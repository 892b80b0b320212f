/** Hardening as a function of the assembled tree: the masks, the read-only paths and the pivot
    (src/mount.rs; `pivot_fs`, src/wrap.rs). */
module HardenedTree {
  import opened Wrappers
  import opened Paths
  import opened MountTable
  import opened Hardening
  import opened MountCalls
  import opened PivotFs
  import opened StableNodes
  import opened ContainerView

  /** Masking one path; a path that does not exist is skipped, one that cannot be looked up
      for another reason is an error. */
  function AfterMask(sp: Space, p: Path): Option<Space>
    requires Rooted(sp.table)
  {
    match StatAt(sp, p)
    case NotFound => Some(sp)
    case NotDirectory => None
    case Exists(Dir) => Some(WithEmptyDir(sp, p))
    case Exists(File) => if StatAt(sp, DEV_NULL) == Exists(File) then Some(WithNull(sp, p)) else None
  }

  function AfterReadOnly(sp: Space, p: Path): Option<Space>
    requires Rooted(sp.table)
  {
    match StatAt(sp, p)
    case NotFound => Some(sp)
    case NotDirectory => None
    case Exists(_) => Some(WithReadOnly(sp, p))
  }

  lemma MaskMounted(sb: Superblock, sp: Space, target: string)
    requires Realistic(sb) && Sane(sp)
    ensures match StatAt(sp, Components(target))
      case Exists(Dir) => Mounted(sb, sp, MaskDirSpec(target)) == AfterMask(sp, Components(target))
      case Exists(File) => Mounted(sb, sp, MaskFileSpec(target)) == AfterMask(sp, Components(target))
      case _ => true
  {
    match StatAt(sp, Components(target))
    case Exists(Dir) => MaskDirMounted(sb, sp, target);
    case Exists(File) => MaskFileMounted(sb, sp, target);
    case _ =>
  }

  lemma MaskStep(before: Space, sp: Space, masked: set<Path>, p: Path)
    requires Masked(before, sp, masked)
    ensures AfterMask(sp, p).Some? <==> Maskable(before, masked, p)
    ensures AfterMask(sp, p).Some? ==> Masked(before, AfterMask(sp, p).value, masked + {p})
  {
    MaskableIff(before, sp, masked, p);
    match StatAt(sp, p)
    case NotFound => MaskMissing(before, sp, masked, p);
    case NotDirectory =>
    case Exists(Dir) => MaskDir(before, sp, masked, p);
    case Exists(File) =>
      if StatAt(sp, DEV_NULL) == Exists(File) {
        MaskFile(before, sp, masked, p);
      }
  }

  lemma SealStep(before: Space, sp: Space, listed: set<Path>, p: Path)
    requires Sealed(before, sp, listed)
    ensures AfterReadOnly(sp, p).Some? <==> StatAt(before, p) != NotDirectory
    ensures AfterReadOnly(sp, p).Some? ==> Sealed(before, AfterReadOnly(sp, p).value, listed + {p})
  {
    assert StatAt(sp, p) == StatAt(before, p);
    if StatAt(sp, p).Exists? {
      SealExisting(before, sp, listed, p);
    } else {
      SealMissing(before, sp, listed, p);
    }
  }

  lemma MaskKeepsRoot(sp: Space, p: Path, root: Path)
    requires RootReady(sp, root) && root <= p && AfterMask(sp, p).Some?
    ensures RootReady(AfterMask(sp, p).value, root)
  {
    if StatAt(sp, p) == Exists(Dir) {
      EmptyDirSane(sp, p);
      EmptyDirEffect(sp, p, root);
      TopOfAppend(sp.table, Mount(p, Loc(sp.nextFs, []), MASK_ATTRS), root);
    } else if StatAt(sp, p) == Exists(File) {
      assert p != root && !(p <= root);
      NullSane(sp, p);
      NullEffect(sp, p, root);
    }
  }

  lemma ReadOnlyTop(t: Table, p: Path, root: Path)
    requires Rooted(t) && root <= p && Top(t, root).at == root && !Top(t, root).locked
    ensures var top := Top(Marked(Bound(t, p, p, true), p, true, READ_ONLY), root); top.at == root && !top.locked
  {
    SelfBindTop(t, p);
    if p == root {
      MarkedTop(Bound(t, p, p, true), p, true, READ_ONLY);
    } else {
      assert !(p <= root);
      CopiesBelow(t, p, p);
      BlockElsewhere(t, Copies(t, p, p), p, root);
      MarkedElsewhere(Bound(t, p, p, true), p, true, READ_ONLY, root);
    }
  }

  lemma ReadOnlySane(sp: Space, p: Path)
    requires Sane(sp)
    ensures Sane(WithReadOnly(sp, p))
  {
    BoundSane(sp, p, p, true);
    MarkedSane(Bound(sp.table, p, p, true), p, true, READ_ONLY, sp.nextFs);
  }

  lemma ReadOnlyKeepsRoot(sp: Space, p: Path, root: Path)
    requires RootReady(sp, root) && root <= p && AfterReadOnly(sp, p).Some?
    ensures RootReady(AfterReadOnly(sp, p).value, root)
  {
    ReadOnlySane(sp, p);
    ReadOnlyTop(sp.table, p, root);
    forall r: Path
      ensures Where(WithReadOnly(sp, p), r) == Where(sp, r)
    {
      ReadOnlyEffect(sp, p, r);
    }
    SameLookup(WithReadOnly(sp, p), sp, root);
  }

  /** One turn of the masking loop. */
  lemma MaskTurn(before: Space, sp: Space, root: Path, paths: seq<string>, i: nat)
    requires i < |paths| && RootReady(sp, root)
    requires Masked(before, sp, Below(root, Named(paths[..i])))
    ensures var after := AfterMask(sp, root + Components(paths[i]));
      && (after.Some? <==> Maskable(before, Below(root, Named(paths[..i])), root + Components(paths[i])))
      && (after.Some? ==> RootReady(after.value, root) && Masked(before, after.value, Below(root, Named(paths[..i + 1]))))
  {
    var p := root + Components(paths[i]);
    NamedSnoc(paths, i);
    BelowMore(root, Named(paths[..i]), Components(paths[i]));
    MaskStep(before, sp, Below(root, Named(paths[..i])), p);
    if AfterMask(sp, p).Some? {
      MaskKeepsRoot(sp, p, root);
    }
  }

  /** One turn of the read-only loop. */
  lemma SealTurn(before: Space, sp: Space, root: Path, paths: seq<string>, i: nat)
    requires i < |paths| && RootReady(sp, root)
    requires Sealed(before, sp, Below(root, Named(paths[..i])))
    ensures var after := AfterReadOnly(sp, root + Components(paths[i]));
      && (after.Some? <==> StatAt(before, root + Components(paths[i])) != NotDirectory)
      && (after.Some? ==> RootReady(after.value, root) && Sealed(before, after.value, Below(root, Named(paths[..i + 1]))))
  {
    var p := root + Components(paths[i]);
    NamedSnoc(paths, i);
    BelowMore(root, Named(paths[..i]), Components(paths[i]));
    SealStep(before, sp, Below(root, Named(paths[..i])), p);
    if AfterReadOnly(sp, p).Some? {
      ReadOnlyKeepsRoot(sp, p, root);
    }
  }

  lemma ReachableAll(before: Space, middle: Space, root: Path, masked: set<Path>, paths: seq<string>)
    requires Masked(before, middle, Below(root, masked))
    ensures AllReachable(middle, root, paths) <==>
      forall i :: 0 <= i < |paths| ==>
        var r := Components(paths[i]);
        StatAt(before, root + r) == NotDirectory ==> HiddenBelow(before, root, masked, r)
  {
    forall i | 0 <= i < |paths|
      ensures var r := Components(paths[i]);
        StatAt(middle, root + r) != NotDirectory <==>
          (StatAt(before, root + r) == NotDirectory ==> HiddenBelow(before, root, masked, r))
    {
      ReachableIff(before, middle, root, masked, Components(paths[i]));
    }
  }

  // ----- whole lists -----

  function MaskedBy(sp: Space, root: Path, paths: seq<string>): (r: Option<Space>)
    requires Rooted(sp.table)
    ensures r.Some? ==> Rooted(r.value.table)
  {
    if paths == [] then Some(sp)
    else
      var last := |paths| - 1;
      var done :- MaskedBy(sp, root, paths[..last]);
      AfterMask(done, root + Components(paths[last]))
  }

  function SealedBy(sp: Space, root: Path, paths: seq<string>): (r: Option<Space>)
    requires Rooted(sp.table)
    ensures r.Some? ==> Rooted(r.value.table)
  {
    if paths == [] then Some(sp)
    else
      var last := |paths| - 1;
      var done :- SealedBy(sp, root, paths[..last]);
      AfterReadOnly(done, root + Components(paths[last]))
  }

  /** Masking a list succeeds exactly if each path can be masked in turn, and then masks all of
      them and changes nothing else. */
  lemma {:induction false} MaskedByIs(before: Space, root: Path, paths: seq<string>)
    requires RootReady(before, root)
    ensures var r := MaskedBy(before, root, paths);
      && (r.Some? <==> AllMaskable(before, root, paths))
      && (r.Some? ==> RootReady(r.value, root) && Masked(before, r.value, Below(root, Named(paths))))
    decreases |paths|
  {
    if paths == [] {
      NothingMasked(before);
    } else {
      var last := |paths| - 1;
      MaskedByIs(before, root, paths[..last]);
      MaskableSnoc(before, root, paths, last);
      assert paths[..last + 1] == paths;
      var done := MaskedBy(before, root, paths[..last]);
      if done.Some? {
        MaskTurn(before, done.value, root, paths, last);
      }
    }
  }

  /** Making a list read-only succeeds exactly if no path leads through a file, and then changes
      no contents and makes exactly the listed trees read-only. */
  lemma {:induction false} SealedByIs(before: Space, root: Path, paths: seq<string>)
    requires RootReady(before, root)
    ensures var r := SealedBy(before, root, paths);
      && (r.Some? <==> AllReachable(before, root, paths))
      && (r.Some? ==> RootReady(r.value, root) && Sealed(before, r.value, Below(root, Named(paths))))
    decreases |paths|
  {
    if paths == [] {
      NothingSealed(before);
    } else {
      var last := |paths| - 1;
      SealedByIs(before, root, paths[..last]);
      ReachableSnoc(before, root, paths, last);
      assert paths[..last + 1] == paths;
      var done := SealedBy(before, root, paths[..last]);
      if done.Some? {
        SealTurn(before, done.value, root, paths, last);
      }
    }
  }

  /** The container's tree, made of the assembled one. */
  function Hardened(before: Space, req: FsRequest): (r: Option<Space>)
    requires Rooted(before.table)
    ensures r.Some? ==> Rooted(r.value.table)
  {
    var masked :- MaskedBy(before, Components(req.Root()), req.maskedPaths.GetOr([]));
    var sealed :- SealedBy(masked, Components(req.Root()), req.readonlyPaths.GetOr([]));
    PivotCall(sealed, req.Root())
  }

  function PivotedTree(sb: Superblock, sp: Space, req: FsRequest): (r: Option<Space>)
    requires Rooted(sp.table)
    ensures r.Some? ==> Rooted(r.value.table)
  {
    var before :- Assembled(sb, sp, req);
    Hardened(before, req)
  }

  lemma PivotCallIs(sp: Space, target: string)
    requires RootReady(sp, Components(target))
    ensures PivotCall(sp, target)
      == if Components(target) != [] then Some(sp.(table := Copies(sp.table, Components(target), []))) else None
  {
  }

  /** Exactly when hardening and the pivot succeed, and what every path then shows. */
  lemma HardenedIff(before: Space, req: FsRequest)
    requires RootReady(before, Components(req.Root()))
    ensures Hardened(before, req).Some? <==> Hardenable(before, req)
    ensures Hardened(before, req).Some? ==>
      && ContainerTree(before, Hardened(before, req).value, req)
      && Sane(Hardened(before, req).value) && SameKinds(before, Hardened(before, req).value)
  {
    var root, masked := Components(req.Root()), req.maskedPaths.GetOr([]);
    MaskedByIs(before, root, masked);
    var middle := MaskedBy(before, root, masked);
    if middle.Some? {
      ReachableAll(before, middle.value, root, Named(masked), req.readonlyPaths.GetOr([]));
      SealedByIs(middle.value, root, req.readonlyPaths.GetOr([]));
      var sealed := SealedBy(middle.value, root, req.readonlyPaths.GetOr([]));
      if sealed.Some? {
        PivotCallIs(sealed.value, req.Root());
        if root != [] {
          HardenedTreeIs(before, middle.value, sealed.value, req);
        }
      }
    }
  }

  lemma HardenedTreeIs(before: Space, middle: Space, sealed: Space, req: FsRequest)
    requires var root := Components(req.Root());
      && Masked(before, middle, Below(root, Named(req.maskedPaths.GetOr([]))))
      && Sealed(middle, sealed, Below(root, Named(req.readonlyPaths.GetOr([]))))
      && RootReady(sealed, root)
    ensures var after := sealed.(table := Copies(sealed.table, Components(req.Root()), []));
      ContainerTree(before, after, req) && Sane(after) && SameKinds(before, after)
  {
    var root := Components(req.Root());
    var after := sealed.(table := Copies(sealed.table, root, []));
    PivotSane(sealed, root);
    forall r: Path
      ensures ContainerSight(before, root, after, Named(req.maskedPaths.GetOr([])), Named(req.readonlyPaths.GetOr([])), r)
    {
      HardenedSight(before, middle, sealed, root, Named(req.maskedPaths.GetOr([])), Named(req.readonlyPaths.GetOr([])), r);
    }
  }

  /** Exactly when `pivot_fs` succeeds, and what every path of the container then shows. */
  lemma PivotedTreeIff(sb: Superblock, sp: Space, req: FsRequest)
    requires Realistic(sb) && Sane(sp)
    ensures var before, after := Assembled(sb, sp, req), PivotedTree(sb, sp, req);
      && (after.Some? <==> before.Some? && Hardenable(before.value, req))
      && (after.Some? ==>
          ContainerTree(before.value, after.value, req) && Sane(after.value) && SameKinds(before.value, after.value))
  {
    AssembledRoot(sb, sp, req);
    var before := Assembled(sb, sp, req);
    if before.Some? {
      HardenedIff(before.value, req);
    }
  }
}
