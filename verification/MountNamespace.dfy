/** The mount namespace of the container's first process, and the calls that change it step by
    step (src/mount.rs; `pivot_fs`, src/wrap.rs). */
module MountNamespace {
  import opened Wrappers
  import opened Paths
  import opened MountTable
  import opened Hardening
  import opened MountCalls
  import opened PivotFs
  import opened StableNodes
  import opened ContainerView
  import opened HardenedTree

  lemma UserMountedOneMore(sb: Superblock, sp: Space, rootfs: string, mounts: seq<MountSpec>, i: nat)
    requires Rooted(sp.table) && i < |mounts| && UserMounted(sb, sp, rootfs, mounts[..i]).Some?
    ensures UserMounted(sb, sp, rootfs, mounts[..i + 1])
         == Mounted(sb, UserMounted(sb, sp, rootfs, mounts[..i]).value, Parented(rootfs, mounts[i]))
  {
    assert mounts[..i + 1][..i] == mounts[..i];
  }

  lemma UserMountedStays(sb: Superblock, sp: Space, rootfs: string, mounts: seq<MountSpec>, i: nat)
    requires Rooted(sp.table) && i < |mounts| && UserMounted(sb, sp, rootfs, mounts[..i]).None?
    ensures UserMounted(sb, sp, rootfs, mounts[..i + 1]).None?
  {
    assert mounts[..i + 1][..i] == mounts[..i];
  }

  /** A list of mounts fails with its first failing mount. */
  lemma {:induction false} UserMountedFails(sb: Superblock, sp: Space, rootfs: string, mounts: seq<MountSpec>, i: nat)
    requires Rooted(sp.table) && i <= |mounts| && UserMounted(sb, sp, rootfs, mounts[..i]).None?
    ensures UserMounted(sb, sp, rootfs, mounts).None?
    decreases |mounts| - i
  {
    if i == |mounts| {
      assert mounts[..i] == mounts;
    } else {
      UserMountedStays(sb, sp, rootfs, mounts, i);
      UserMountedFails(sb, sp, rootfs, mounts, i + 1);
    }
  }

  lemma MutatedOneMore(sp: Space, rootfs: string, targets: seq<string>, i: nat)
    requires Rooted(sp.table) && i < |targets| && Mutated(sp, rootfs, targets[..i]).Some?
    ensures Mutated(sp, rootfs, targets[..i + 1])
         == CreateDirAll(Mutated(sp, rootfs, targets[..i]).value, Components(Pushed(rootfs, targets[i])))
  {
    assert targets[..i + 1][..i] == targets[..i];
  }

  lemma MutatedStays(sp: Space, rootfs: string, targets: seq<string>, i: nat)
    requires Rooted(sp.table) && i < |targets| && Mutated(sp, rootfs, targets[..i]).None?
    ensures Mutated(sp, rootfs, targets[..i + 1]).None?
  {
    assert targets[..i + 1][..i] == targets[..i];
  }

  lemma {:induction false} MutatedFails(sp: Space, rootfs: string, targets: seq<string>, i: nat)
    requires Rooted(sp.table) && i <= |targets| && Mutated(sp, rootfs, targets[..i]).None?
    ensures Mutated(sp, rootfs, targets).None?
    decreases |targets| - i
  {
    if i == |targets| {
      assert targets[..i] == targets;
    } else {
      MutatedStays(sp, rootfs, targets, i);
      MutatedFails(sp, rootfs, targets, i + 1);
    }
  }

  class MountNs {
    var space: Space
    const superblock: Superblock

    ghost predicate Valid()
      reads this
    {
      Sane(space) && Realistic(superblock)
    }

    constructor (superblock: Superblock, space: Space)
      requires Sane(space) && Realistic(superblock)
      ensures Valid() && this.space == space && this.superblock == superblock
    {
      this.superblock := superblock;
      this.space := space;
    }

    /** `MountSpec::mount`: true for success. */
    method Mount(spec: MountSpec) returns (ok: bool)
      requires Valid()
      modifies this`space
      ensures Valid() && old(space).nextFs <= space.nextFs
      ensures ok <==> Mounted(superblock, old(space), spec).Some?
      ensures ok ==> space == Mounted(superblock, old(space), spec).value
    {
      ok := MakeMountpoint(spec);
      if !ok {
        return;
      }
      ok := Attach(spec);
      if !ok {
        return;
      }
      ok := SetAttributes(spec);
    }

    method MakeMountpoint(spec: MountSpec) returns (ok: bool)
      requires Valid()
      modifies this`space
      ensures Valid() && old(space).nextFs <= space.nextFs
      ensures ok <==> WithMountpoint(old(space), spec).Some?
      ensures ok ==> space == WithMountpoint(old(space), spec).value
      // Nothing exists any less, no mount changes, and what was asked for is there.
      ensures ok ==> Grows(old(space), space) && space.table == old(space).table
      ensures ok && spec.createMountpoint ==>
        StatAt(space, Components(spec.target))
        == Exists(if spec.bind && spec.source.Some? && StatAt(old(space), Components(spec.source.value)) == Exists(File)
                  then File else Dir)
      ensures !ok ==> space == old(space)
    {
      if WithMountpoint(space, spec).Some? {
        WithMountpointMakes(space, spec);
      }
      if spec.createMountpoint {
        CreateMountpointSane(space, spec);
        var made := CreateMountpoint(space, spec);
        if made.None? {
          return false;
        }
        space := made.value;
      }
      return true;
    }

    method Attach(spec: MountSpec) returns (ok: bool)
      requires Valid()
      modifies this`space
      ensures Valid() && old(space).nextFs <= space.nextFs
      ensures ok <==> Attached(superblock, old(space), spec).Some?
      ensures ok ==> space == Attached(superblock, old(space), spec).value
    {
      var flags := MountFlags(false, false, false);
      if spec.bind {
        flags := flags.(bind := true);
      }
      if spec.unshare {
        flags := flags.(private := true);
      }
      if spec.recurse {
        flags := flags.(rec := true);
      }
      AttachedSane(superblock, space, spec);
      var mounted := MountCall(superblock, space, spec.source, spec.target,
                               if spec.bind then None else spec.fstype, flags, spec.data);
      if mounted.None? {
        return false;
      }
      space := mounted.value;
      return true;
    }

    method SetAttributes(spec: MountSpec) returns (ok: bool)
      requires Valid()
      modifies this`space
      ensures Valid() && old(space).nextFs <= space.nextFs
      ensures ok <==> Attributed(old(space), spec).Some?
      ensures ok ==> space == Attributed(old(space), spec).value
    {
      var attrs := MountAttrs(false, false);
      if spec.safe {
        attrs := attrs.(safe := true);
      }
      if spec.readOnly {
        attrs := attrs.(readOnly := true);
      }
      if attrs != MountAttrs(false, false) {
        SetattrCallSane(space, spec.target, spec.recurse, attrs);
        var changed := SetattrCall(space, spec.target, spec.recurse, attrs);
        if changed.None? {
          return false;
        }
        space := changed.value;
      }
      return true;
    }

    /** `MountSpec::seal`. */
    method Seal(spec: MountSpec) returns (ok: bool)
      requires Valid()
      modifies this`space
      ensures Valid() && old(space).nextFs <= space.nextFs
      ensures ok <==> SealRoot(old(space), spec).Some?
      ensures ok ==> space == SealRoot(old(space), spec).value
      // A mountpoint is sealed; the paths on its own mount become read-only and nothing moves.
      ensures ok <==>
        && spec.source.Some? && StatAt(old(space), Components(spec.source.value)).Exists?
        && Top(old(space).table, Components(spec.source.value)).at == Components(spec.source.value)
      ensures ok ==> var root := Components(spec.source.value); forall q: Path ::
        && Where(space, q) == Where(old(space), q)
        && Attrs(space, q) == Covered(root <= q && Top(old(space).table, q).at <= root, Attrs(old(space), q))
      ensures !ok ==> space == old(space)
    {
      if spec.source.None? {
        return false;
      }
      if SealRoot(space, spec).Some? {
        forall q: Path
          ensures Where(SealRoot(space, spec).value, q) == Where(space, q)
          ensures Attrs(SealRoot(space, spec).value, q)
               == Covered(Components(spec.source.value) <= q && Top(space.table, q).at <= Components(spec.source.value),
                          Attrs(space, q))
        {
          MarkedShallow(space.table, Components(spec.source.value), READ_ONLY, q);
        }
      }
      SetattrCallSane(space, spec.source.value, false, READ_ONLY);
      var changed := SetattrCall(space, spec.source.value, false, READ_ONLY);
      if changed.None? {
        return false;
      }
      space := changed.value;
      return true;
    }

    /** `MountSpec::pivot`. */
    method Pivot(spec: MountSpec) returns (ok: bool)
      requires Valid()
      modifies this`space
      ensures Valid()
      ensures ok <==> PivotCall(old(space), spec.target).Some?
      ensures ok <==> var root := Components(spec.target);
        root != [] && StatAt(old(space), root) == Exists(Dir)
        && Top(old(space).table, root).at == root && !Top(old(space).table, root).locked
      ensures ok ==> space == PivotCall(old(space), spec.target).value
      // What was below the target is the whole tree, and nothing else is.
      ensures ok ==> var root := Components(spec.target); forall r: Path ::
        && SameSight(space.table, r, old(space).table, root + r)
        && StatAt(space, r) == StatAt(old(space), root + r)
      ensures !ok ==> space == old(space)
    {
      PivotSane(space, Components(spec.target));
      if PivotCall(space, spec.target).Some? {
        forall r: Path
          ensures SameSight(PivotCall(space, spec.target).value.table, r, space.table, Components(spec.target) + r)
          ensures StatAt(PivotCall(space, spec.target).value, r) == StatAt(space, Components(spec.target) + r)
        {
          PivotShows(space, Components(spec.target), r);
        }
      }
      var pivoted := PivotCall(space, spec.target);
      if pivoted.None? {
        return false;
      }
      space := pivoted.value;
      return true;
    }

    method MakeDirs(path: string) returns (ok: bool)
      requires Valid()
      modifies this`space
      ensures Valid() && old(space).nextFs <= space.nextFs
      ensures ok <==> CreateDirAll(old(space), Components(path)).Some?
      ensures ok ==> space == CreateDirAll(old(space), Components(path)).value
    {
      CreateDirAllSane(space, Components(path));
      var made := CreateDirAll(space, Components(path));
      if made.None? {
        return false;
      }
      space := made.value;
      return true;
    }

    // ----- hardening -----

    /** `mask_path`. */
    method MaskPath(rootfs: string, path: string) returns (ok: bool)
      requires Valid()
      modifies this`space
      ensures Valid()
      ensures ok <==> AfterMask(old(space), Components(rootfs) + Components(path)).Some?
      ensures ok ==> space == AfterMask(old(space), Components(rootfs) + Components(path)).value
    {
      JoinNamesTheSamePlace(rootfs, path);
      var target := JoinRootfs(rootfs, path);
      MaskMounted(superblock, space, target);
      match StatAt(space, Components(target)) {
        case NotFound =>
          return true;
        case NotDirectory =>
          return false;
        case Exists(kind) =>
          ok := Mount(if kind == Dir then MaskDirSpec(target) else MaskFileSpec(target));
      }
    }

    /** `make_readonly`. */
    method MakeReadonly(rootfs: string, path: string) returns (ok: bool)
      requires Valid()
      modifies this`space
      ensures Valid()
      ensures ok <==> AfterReadOnly(old(space), Components(rootfs) + Components(path)).Some?
      ensures ok ==> space == AfterReadOnly(old(space), Components(rootfs) + Components(path)).value
    {
      JoinNamesTheSamePlace(rootfs, path);
      var target := JoinRootfs(rootfs, path);
      var stat := StatAt(space, Components(target));
      if stat == NotFound {
        return true;
      }
      if stat == NotDirectory {
        return false;
      }
      ReadOnlyMounted(superblock, space, target);
      ok := Mount(ReadOnlySpec(target));
    }

    /** The masking loop. */
    method MaskAll(rootfs: string, paths: seq<string>) returns (ok: bool)
      requires Valid() && RootReady(space, Components(rootfs))
      modifies this`space
      ensures Valid()
      ensures ok <==> AllMaskable(old(space), Components(rootfs), paths)
      ensures ok ==> MaskedBy(old(space), Components(rootfs), paths) == Some(space)
      ensures ok ==> Masked(old(space), space, Below(Components(rootfs), Named(paths)))
      ensures ok ==> RootReady(space, Components(rootfs))
    {
      ghost var before, root := space, Components(rootfs);
      MaskedByIs(before, root, paths);
      var i := 0;
      while i < |paths|
        invariant 0 <= i <= |paths|
        invariant Valid()
        invariant MaskedBy(before, root, paths[..i]) == Some(space)
      {
        assert paths[..i + 1][..i] == paths[..i];
        MaskedByIs(before, root, paths[..i + 1]);
        ok := MaskPath(rootfs, paths[i]);
        if !ok {
          MaskableFails(before, root, paths, i + 1);
          return;
        }
        i := i + 1;
      }
      assert paths[..|paths|] == paths;
      return true;
    }

    /** The read-only loop. */
    method ReadOnlyAll(rootfs: string, paths: seq<string>) returns (ok: bool)
      requires Valid() && RootReady(space, Components(rootfs))
      modifies this`space
      ensures Valid()
      ensures ok <==> AllReachable(old(space), Components(rootfs), paths)
      ensures ok ==> SealedBy(old(space), Components(rootfs), paths) == Some(space)
      ensures ok ==> Sealed(old(space), space, Below(Components(rootfs), Named(paths)))
      ensures ok ==> RootReady(space, Components(rootfs))
    {
      ghost var before, root := space, Components(rootfs);
      SealedByIs(before, root, paths);
      var i := 0;
      while i < |paths|
        invariant 0 <= i <= |paths|
        invariant Valid()
        invariant SealedBy(before, root, paths[..i]) == Some(space)
      {
        assert paths[..i + 1][..i] == paths[..i];
        SealedByIs(before, root, paths[..i + 1]);
        ok := MakeReadonly(rootfs, paths[i]);
        if !ok {
          ReachableFails(before, root, paths, i + 1);
          return;
        }
        i := i + 1;
      }
      assert paths[..|paths|] == paths;
      return true;
    }

    // ----- the tree -----

    /** The first part of `pivot_fs`: a private "/", the staging area if the host's own root is
        to be copied, the root bound over itself and sealed. */
    method BindRoot(req: FsRequest) returns (ok: bool, newroot: MountSpec)
      requires Valid() && req.rootfs.Some?
      modifies this`space
      ensures Valid()
      ensures newroot == TreeBind(req.Root(), req.Root())
      ensures ok <==> RootBound(superblock, old(space), req).Some?
      ensures ok ==> space == RootBound(superblock, old(space), req).value
    {
      var rootfs := req.rootfs.value;
      newroot := TreeBind(req.Root(), req.Root());
      ok := Mount(PRIVATE_ROOT);
      if !ok {
        return;
      }
      if rootfs == "/" {
        ok := Stage(req);
        if !ok {
          return;
        }
        rootfs := req.StageRoot();
      }
      newroot := TreeBind(rootfs, rootfs);
      ok := Mount(newroot);
      if ok && req.rootfsReadonly.GetOr(false) {
        ok := Seal(newroot);
      }
    }

    method Stage(req: FsRequest) returns (ok: bool)
      requires Valid()
      modifies this`space
      ensures Valid()
      ensures ok <==> Staged(superblock, old(space), req).Some?
      ensures ok ==> space == Staged(superblock, old(space), req).value
    {
      ok := Mount(StageTmpfs(req.StageBase()));
      if !ok {
        return;
      }
      ok := MakeDirs(req.StageRoot());
      if !ok {
        return;
      }
      ok := MakeDirs(req.StageOld());
      if !ok {
        return;
      }
      ok := Mount(TreeBind("/", req.StageRoot()));
    }

    method MountAll(rootfs: string, mounts: seq<MountSpec>) returns (ok: bool)
      requires Valid()
      modifies this`space
      ensures Valid()
      ensures ok <==> UserMounted(superblock, old(space), rootfs, mounts).Some?
      ensures ok ==> space == UserMounted(superblock, old(space), rootfs, mounts).value
    {
      ghost var start := space;
      var i := 0;
      while i < |mounts|
        invariant 0 <= i <= |mounts|
        invariant Valid()
        invariant UserMounted(superblock, start, rootfs, mounts[..i]) == Some(space)
      {
        UserMountedOneMore(superblock, start, rootfs, mounts, i);
        ok := Mount(Parented(rootfs, mounts[i]));
        if !ok {
          UserMountedFails(superblock, start, rootfs, mounts, i + 1);
          return;
        }
        i := i + 1;
      }
      assert mounts[..|mounts|] == mounts;
      return true;
    }

    method MutateAll(rootfs: string, targets: seq<string>) returns (ok: bool)
      requires Valid()
      modifies this`space
      ensures Valid()
      ensures ok <==> Mutated(old(space), rootfs, targets).Some?
      ensures ok ==> space == Mutated(old(space), rootfs, targets).value
    {
      ghost var start := space;
      var i := 0;
      while i < |targets|
        invariant 0 <= i <= |targets|
        invariant Valid()
        invariant Mutated(start, rootfs, targets[..i]) == Some(space)
      {
        MutatedOneMore(start, rootfs, targets, i);
        ok := MakeDirs(Pushed(rootfs, targets[i]));
        if !ok {
          MutatedFails(start, rootfs, targets, i + 1);
          return;
        }
        i := i + 1;
      }
      assert targets[..|targets|] == targets;
      return true;
    }

    /** Everything of `pivot_fs` before hardening. */
    method Assemble(req: FsRequest) returns (ok: bool, newroot: MountSpec)
      requires Valid() && req.rootfs.Some?
      modifies this`space
      ensures Valid()
      ensures newroot == TreeBind(req.Root(), req.Root())
      ensures ok <==> Assembled(superblock, old(space), req).Some?
      ensures ok ==> space == Assembled(superblock, old(space), req).value
    {
      ok, newroot := BindRoot(req);
      if !ok {
        return;
      }
      ok := Mount(ProcMount(newroot.target));
      if !ok {
        return;
      }
      ok := MountAll(newroot.target, req.mounts.GetOr([]));
      if !ok {
        return;
      }
      ok := MutateAll(newroot.target, req.mutations.GetOr([]));
    }

    /** `pivot_fs`: when it succeeds, and what the container then sees. */
    method PivotFs(req: FsRequest) returns (ok: bool)
      requires Valid()
      modifies this`space
      ensures Valid()
      ensures ok <==>
        var before := Assembled(superblock, old(space), req);
        before.Some? && Hardenable(before.value, req)
      ensures ok ==> ContainerTree(Assembled(superblock, old(space), req).value, space, req)
      ensures ok <==> PivotedTree(superblock, old(space), req).Some?
      ensures ok ==> PivotedTree(superblock, old(space), req) == Some(space)
    {
      if req.rootfs.None? {
        return false;
      }
      var newroot;
      AssembledRoot(superblock, space, req);
      ok, newroot := Assemble(req);
      if !ok {
        return;
      }
      ok := Harden(newroot, req);
    }

    /** The hardening loops and the pivot. */
    method Harden(newroot: MountSpec, req: FsRequest) returns (ok: bool)
      requires Valid() && newroot == TreeBind(req.Root(), req.Root())
      requires RootReady(space, Components(req.Root()))
      modifies this`space
      ensures Valid()
      ensures ok <==> Hardenable(old(space), req)
      ensures ok ==> ContainerTree(old(space), space, req)
      ensures ok <==> Hardened(old(space), req).Some?
      ensures ok ==> Hardened(old(space), req) == Some(space)
    {
      HardenedIff(space, req);
      MaskedByIs(space, Components(req.Root()), req.maskedPaths.GetOr([]));
      ok := MaskAll(newroot.target, req.maskedPaths.GetOr([]));
      if !ok {
        return;
      }
      SealedByIs(space, Components(req.Root()), req.readonlyPaths.GetOr([]));
      ok := ReadOnlyAll(newroot.target, req.readonlyPaths.GetOr([]));
      if !ok {
        return;
      }
      ok := Pivot(newroot);
    }
  }
}
