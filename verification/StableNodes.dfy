/** What exists stays what it is: no step of `pivot_fs` (src/wrap.rs) removes a directory or a
    file or turns one into the other, so the root stays a mounted directory until it is
    pivoted to. */
module StableNodes {
  import opened Wrappers
  import opened Paths
  import opened MountTable
  import opened Hardening
  import opened MountCalls
  import opened PivotFs

  predicate KindsKept(a: Space, b: Space) {
    forall l :: l in a.nodes ==> l in b.nodes && b.nodes[l] == a.nodes[l]
  }

  /** A later state of the same file systems, with more of them. */
  predicate Grows(a: Space, b: Space) {
    && Sane(a) && Sane(b) && a.nextFs <= b.nextFs && KindsKept(a, b)
    && a.procs <= b.procs && (forall n :: n in b.procs ==> n in a.procs || a.nextFs <= n)
  }

  lemma GrowsOn(a: Space, b: Space, c: Space)
    requires Grows(a, b) && Grows(b, c)
    ensures Grows(a, c)
  {
    forall l | l in a.nodes
      ensures l in c.nodes && c.nodes[l] == a.nodes[l]
    {
      assert l in b.nodes;
    }
  }

  /** What exists at `q + r` in `a` exists at `p + r` in `b`, if that shows the same places. */
  lemma {:induction false} CarriedOver(a: Space, q: Path, b: Space, p: Path, r: Path)
    requires Rooted(a.table) && Rooted(b.table) && KindsKept(a, b)
    requires StatAt(b, p).Exists? && StatAt(a, q + r).Exists?
    requires forall t: Path :: t <= r ==> Where(b, p + t) == Where(a, q + t)
    ensures StatAt(b, p + r) == StatAt(a, q + r)
    decreases |r|
  {
    assert Where(b, p + r) == Where(a, q + r);
    if r == [] {
      assert p + r == p && q + r == q;
      assert NodeAt(a, q) == StatAt(a, q) && NodeAt(b, p) == StatAt(b, p);
    } else {
      var parent := r[..|r| - 1];
      assert (p + r)[..|p + r| - 1] == p + parent && (q + r)[..|q + r| - 1] == q + parent;
      CarriedOver(a, q, b, p, parent);
    }
  }

  /** A lookup among nodes given path by path. */
  function StatOf(node: Path -> Stat, r: Path): Stat
    decreases |r|
  {
    if r == [] then node(r)
    else
      match StatOf(node, r[..|r| - 1])
      case Exists(Dir) => node(r)
      case Exists(File) => NotDirectory
      case NotFound => NotFound
      case NotDirectory => NotDirectory
  }

  /** Nodes that are there below an existing path are found there. */
  lemma {:induction false} HeldBelow(b: Space, p: Path, node: Path -> Stat, r: Path)
    requires Rooted(b.table) && StatAt(b, p).Exists? && StatOf(node, r).Exists?
    requires forall t: Path :: t <= r && node(t).Exists? ==> NodeAt(b, p + t) == node(t)
    ensures StatAt(b, p + r) == StatOf(node, r)
    decreases |r|
  {
    if r == [] {
      assert p + r == p;
      assert NodeAt(b, p) == StatAt(b, p);
      assert node(r).Exists?;
    } else {
      var parent := r[..|r| - 1];
      assert (p + r)[..|p + r| - 1] == p + parent;
      HeldBelow(b, p, node, parent);
      assert node(r).Exists?;
    }
  }

  lemma {:induction false} KindStays(a: Space, b: Space, q: Path)
    requires Rooted(a.table) && Rooted(b.table) && KindsKept(a, b)
    requires forall p: Path :: p <= q ==> Where(b, p) == Where(a, p)
    requires StatAt(a, q).Exists?
    ensures StatAt(b, q) == StatAt(a, q)
    decreases |q|
  {
    assert Where(b, q) == Where(a, q);
    if q != [] {
      KindStays(a, b, q[..|q| - 1]);
    }
  }

  // ----- making mountpoints -----

  lemma MakeNodeGrows(sp: Space, q: Path, kind: Kind)
    requires Sane(sp) && StatAt(sp, q) == NotFound && (q != [] ==> StatAt(sp, q[..|q| - 1]) == Exists(Dir))
    requires MakeNode(sp, q, kind).Some?
    ensures var r := MakeNode(sp, q, kind).value; Grows(sp, r) && SameKinds(sp, r) && StatAt(r, q) == Exists(kind)
  {
    var r := MakeNode(sp, q, kind).value;
    MakeNodeSane(sp, q, kind);
    assert Where(sp, q) !in sp.nodes;
    if q != [] {
      KindStays(sp, r, q[..|q| - 1]);
    }
  }

  lemma {:induction false} CreateDirAllMakes(sp: Space, q: Path)
    requires Sane(sp) && CreateDirAll(sp, q).Some?
    ensures var r := CreateDirAll(sp, q).value; Grows(sp, r) && SameKinds(sp, r) && StatAt(r, q) == Exists(Dir)
    decreases |q|
  {
    if StatAt(sp, q) != Exists(Dir) {
      var parent := q[..|q| - 1];
      var made := CreateDirAll(sp, parent).value;
      CreateDirAllMakes(sp, parent);
      if StatAt(made, q) == NotFound {
        MakeNodeGrows(made, q, Dir);
        GrowsOn(sp, made, CreateDirAll(sp, q).value);
      }
    }
  }

  lemma CreateFileGrows(sp: Space, q: Path)
    requires Sane(sp) && CreateFile(sp, q).Some?
    requires q != [] ==> StatAt(sp, q[..|q| - 1]) == Exists(Dir)
    ensures var r := CreateFile(sp, q).value; Grows(sp, r) && SameKinds(sp, r) && StatAt(r, q) == Exists(File)
  {
    if StatAt(sp, q) == NotFound {
      MakeNodeGrows(sp, q, File);
    }
  }

  /** What a mount goes on: a file for a bound file, a directory for everything else. */
  function MountpointKind(sp: Space, spec: MountSpec): Kind
    requires Rooted(sp.table)
  {
    if spec.bind && spec.source.Some? && StatAt(sp, Components(spec.source.value)) == Exists(File) then File else Dir
  }

  /** What a specification asks to be made is there, a file for a bound file and a directory
      otherwise, and nothing is lost. */
  lemma WithMountpointMakes(sp: Space, spec: MountSpec)
    requires Sane(sp) && WithMountpoint(sp, spec).Some?
    ensures var r := WithMountpoint(sp, spec).value;
      && Grows(sp, r) && SameKinds(sp, r)
      && (spec.createMountpoint ==>
          StatAt(r, Components(spec.target)) == Exists(MountpointKind(sp, spec)))
  {
    if spec.createMountpoint {
      var at := Components(spec.target);
      if SourceIsFile(sp, spec) {
        var made := ParentMade(sp, at).value;
        if at != [] {
          CreateDirAllMakes(sp, at[..|at| - 1]);
        }
        CreateFileGrows(made, at);
        GrowsOn(sp, made, WithMountpoint(sp, spec).value);
      } else {
        CreateDirAllMakes(sp, at);
      }
    }
  }

  lemma {:induction false} MutatedGrows(sp: Space, rootfs: string, targets: seq<string>, after: Space)
    requires Sane(sp) && Mutated(sp, rootfs, targets) == Some(after)
    ensures Grows(sp, after) && SameKinds(sp, after)
    decreases |targets|
  {
    if targets != [] {
      var last := |targets| - 1;
      var done := Mutated(sp, rootfs, targets[..last]);
      assert done.Some?;
      MutatedGrows(sp, rootfs, targets[..last], done.value);
      CreateDirAllMakes(done.value, Components(Pushed(rootfs, targets[last])));
      GrowsOn(sp, done.value, after);
    }
  }

  // ----- mounting -----

  lemma AttachedGrows(sb: Superblock, sp: Space, spec: MountSpec)
    requires Sane(sp) && Attached(sb, sp, spec).Some?
    ensures Grows(sp, Attached(sb, sp, spec).value)
  {
    AttachedSane(sb, sp, spec);
  }

  lemma MountedGrows(sb: Superblock, sp: Space, spec: MountSpec)
    requires Sane(sp) && Mounted(sb, sp, spec).Some?
    ensures Grows(sp, Mounted(sb, sp, spec).value)
  {
    var ready := WithMountpoint(sp, spec).value;
    WithMountpointMakes(sp, spec);
    AttachedGrows(sb, ready, spec);
    GrowsOn(sp, ready, Attached(sb, ready, spec).value);
    MountedSane(sb, sp, spec);
  }

  /** What is attached to a path is of the kind that was there. */
  lemma AttachedNode(sb: Superblock, sp: Space, spec: MountSpec)
    requires Sane(sp) && Realistic(sb) && Attached(sb, sp, spec).Some?
    ensures NodeAt(Attached(sb, sp, spec).value, Components(spec.target)) == StatAt(sp, Components(spec.target))
  {
    var at := Components(spec.target);
    assert at + [] == at;
    if spec.bind {
      var src := Components(spec.source.value);
      assert src + [] == src;
      assert NodeAt(sp, src) == StatAt(sp, src);
      if spec.recurse {
        CopiesShow(sp.table, sp.table, src, at, []);
      } else {
        TopOfAppend(sp.table, Mount(at, LocAt(sp.table, src), AttrsAt(sp.table, src)), at);
        assert at[|at|..] == [] && LocAt(sp.table, src).path + [] == LocAt(sp.table, src).path;
      }
    } else if !spec.unshare {
      NewMountShows(sb, sp, spec, []);
      assert WithRoot(sb(spec.source, spec.fstype.value, spec.data).value.tree);
    }
  }

  lemma AttributedWhere(sp: Space, spec: MountSpec, q: Path)
    requires Rooted(sp.table) && Attributed(sp, spec).Some?
    ensures Where(Attributed(sp, spec).value, q) == Where(sp, q)
  {
    if spec.safe || spec.readOnly {
      if spec.recurse {
        MarkedShows(sp.table, Components(spec.target), Added(spec), q);
      } else {
        MarkedShallow(sp.table, Components(spec.target), Added(spec), q);
      }
    }
  }

  lemma AttributedStat(sp: Space, spec: MountSpec, q: Path)
    requires Rooted(sp.table) && Attributed(sp, spec).Some?
    ensures StatAt(Attributed(sp, spec).value, q) == StatAt(sp, q)
  {
    forall r: Path
      ensures Where(Attributed(sp, spec).value, r) == Where(sp, r)
    {
      AttributedWhere(sp, spec, r);
    }
    SameLookup(Attributed(sp, spec).value, sp, q);
  }

  /** What is not strictly below the target stays what it is. */
  lemma AttachedStat(sb: Superblock, sp: Space, spec: MountSpec, q: Path)
    requires Sane(sp) && Realistic(sb) && Attached(sb, sp, spec).Some?
    requires !(Components(spec.target) < q) && StatAt(sp, q).Exists?
    ensures StatAt(Attached(sb, sp, spec).value, q) == StatAt(sp, q)
  {
    if q == Components(spec.target) {
      AttachedNode(sb, sp, spec);
      if q != [] {
        AttachedWay(sb, sp, spec, q[..|q| - 1]);
      }
    } else {
      AttachedWay(sb, sp, spec, q);
    }
  }

  lemma AttachedWay(sb: Superblock, sp: Space, spec: MountSpec, q: Path)
    requires Sane(sp) && Attached(sb, sp, spec).Some?
    requires !(Components(spec.target) <= q) && StatAt(sp, q).Exists?
    ensures StatAt(Attached(sb, sp, spec).value, q) == StatAt(sp, q)
  {
    var after := Attached(sb, sp, spec).value;
    AttachedGrows(sb, sp, spec);
    forall p: Path | p <= q
      ensures Where(after, p) == Where(sp, p)
    {
      AttachedKeeps(sb, sp, spec, p);
    }
    KindStays(sp, after, q);
  }

  lemma MountedStat(sb: Superblock, sp: Space, spec: MountSpec, q: Path)
    requires Sane(sp) && Realistic(sb) && Mounted(sb, sp, spec).Some?
    requires !(Components(spec.target) < q) && StatAt(sp, q).Exists?
    ensures StatAt(Mounted(sb, sp, spec).value, q) == StatAt(sp, q)
  {
    var ready := WithMountpoint(sp, spec).value;
    WithMountpointMakes(sp, spec);
    KindStays(sp, ready, q);
    AttachedStat(sb, ready, spec, q);
    AttributedStat(Attached(sb, ready, spec).value, spec, q);
  }

  /** The target of a mount exists. */
  lemma MountedExists(sb: Superblock, sp: Space, spec: MountSpec)
    requires Sane(sp) && Realistic(sb) && Mounted(sb, sp, spec).Some?
    ensures StatAt(Mounted(sb, sp, spec).value, Components(spec.target)).Exists?
  {
    var ready := WithMountpoint(sp, spec).value;
    WithMountpointMakes(sp, spec);
    AttachedStat(sb, ready, spec, Components(spec.target));
    AttributedStat(Attached(sb, ready, spec).value, spec, Components(spec.target));
  }

  // ----- the root -----

  /** The root is a mounted directory, and the mount is not locked. */
  predicate RootReady(sp: Space, root: Path) {
    Sane(sp) && StatAt(sp, root) == Exists(Dir) && Top(sp.table, root).at == root && !Top(sp.table, root).locked
  }

  /** A mount at or below the root keeps it one. */
  lemma MountedKeepsRoot(sb: Superblock, sp: Space, spec: MountSpec, root: Path)
    requires Realistic(sb) && RootReady(sp, root) && root <= Components(spec.target)
    requires Mounted(sb, sp, spec).Some?
    ensures RootReady(Mounted(sb, sp, spec).value, root)
  {
    var at := Components(spec.target);
    MountedSane(sb, sp, spec);
    MountedStat(sb, sp, spec, root);
    if at == root {
      MountedTop(sb, sp, spec);
    } else {
      assert !(at <= root);
      MountedKeeps(sb, sp, spec, root);
    }
  }

  lemma {:induction false} UserMountedKeepsRoot(sb: Superblock, sp: Space, rootfs: string, mounts: seq<MountSpec>, after: Space)
    requires Realistic(sb) && RootReady(sp, Components(rootfs))
    ensures UserMounted(sb, sp, rootfs, mounts) == Some(after) ==>
      RootReady(after, Components(rootfs)) && sp.nextFs <= after.nextFs
    decreases |mounts|
  {
    if mounts == [] {
      assert UserMounted(sb, sp, rootfs, mounts) == Some(sp);
    } else if UserMounted(sb, sp, rootfs, mounts) == Some(after) {
      var last := |mounts| - 1;
      UserMountedStep(sb, sp, rootfs, mounts, last);
      var done := UserMounted(sb, sp, rootfs, mounts[..last]).value;
      UserMountedKeepsRoot(sb, sp, rootfs, mounts[..last], done);
      ComponentsAppend(rootfs, mounts[last].target);
      MountedKeepsRoot(sb, done, Parented(rootfs, mounts[last]), Components(rootfs));
      MountedSane(sb, done, Parented(rootfs, mounts[last]));
    }
  }

  lemma StageMadeSane(sb: Superblock, sp: Space, req: FsRequest)
    requires Sane(sp)
    ensures var r := StageMade(sb, sp, req); r.Some? ==> Sane(r.value) && sp.nextFs <= r.value.nextFs
  {
    if StageMade(sb, sp, req).Some? {
      MountedSane(sb, sp, StageTmpfs(req.StageBase()));
      var mounted := Mounted(sb, sp, StageTmpfs(req.StageBase())).value;
      CreateDirAllSane(mounted, Components(req.StageRoot()));
      CreateDirAllSane(CreateDirAll(mounted, Components(req.StageRoot())).value, Components(req.StageOld()));
    }
  }

  lemma TreeBoundRoot(sb: Superblock, sp: Space, req: FsRequest)
    requires Sane(sp) && TreeBound(sb, sp, req).Some?
    ensures var r, root := TreeBound(sb, sp, req).value, Components(req.Root());
      Sane(r) && sp.nextFs <= r.nextFs && Top(r.table, root).at == root && !Top(r.table, root).locked
  {
    PrivateRootKeeps(sb, sp);
    var staged := sp;
    if req.CopiesHostRoot() {
      StageMadeSane(sb, sp, req);
      MountedSane(sb, StageMade(sb, sp, req).value, TreeBind("/", req.StageRoot()));
      staged := Staged(sb, sp, req).value;
    }
    MountedSane(sb, staged, TreeBind(req.Root(), req.Root()));
    MountedTop(sb, staged, TreeBind(req.Root(), req.Root()));
  }

  lemma RootBoundRoot(sb: Superblock, sp: Space, req: FsRequest)
    requires Sane(sp)
    ensures var r, root := RootBound(sb, sp, req), Components(req.Root());
      r.Some? ==>
      && Sane(r.value) && sp.nextFs <= r.value.nextFs
      && Top(r.value.table, root).at == root && !Top(r.value.table, root).locked
  {
    if RootBound(sb, sp, req).Some? {
      TreeBoundRoot(sb, sp, req);
      var bound := TreeBound(sb, sp, req).value;
      SetattrCallSane(bound, req.Root(), false, READ_ONLY);
      MarkedTop(bound.table, Components(req.Root()), false, READ_ONLY);
    }
  }

  /** The mount of /proc needs a directory, and so a root that is one. */
  lemma ProcNeedsRoot(sb: Superblock, sp: Space, rootfs: string)
    requires Sane(sp) && Mounted(sb, sp, ProcMount(rootfs)).Some?
    ensures StatAt(sp, Components(rootfs)) == Exists(Dir)
  {
    ProcTarget(rootfs);
    assert Components(rootfs) < Components(rootfs) + PROC;
    WayIsDirs(sp, Components(rootfs), Components(rootfs) + PROC);
  }

  lemma FurnishedRoot(sb: Superblock, sp: Space, req: FsRequest)
    requires Realistic(sb) && Sane(sp) && Top(sp.table, Components(req.Root())).at == Components(req.Root())
    requires !Top(sp.table, Components(req.Root())).locked
    ensures var before := Furnished(sb, sp, req);
      before.Some? ==> RootReady(before.value, Components(req.Root())) && sp.nextFs <= before.value.nextFs
  {
    if Furnished(sb, sp, req).Some? {
      var root := req.Root();
      ProcNeedsRoot(sb, sp, root);
      ProcTarget(root);
      MountedKeepsRoot(sb, sp, ProcMount(root), Components(root));
      MountedSane(sb, sp, ProcMount(root));
      var withProc := Mounted(sb, sp, ProcMount(root)).value;
      var withMounts := UserMounted(sb, withProc, root, req.mounts.GetOr([])).value;
      UserMountedKeepsRoot(sb, withProc, root, req.mounts.GetOr([]), withMounts);
      var before := Furnished(sb, sp, req).value;
      MutatedGrows(withMounts, root, req.mutations.GetOr([]), before);
      KindStays(withMounts, before, Components(root));
    }
  }

  /** Whatever is mounted and made, the assembled tree has a root to pivot to. */
  lemma AssembledRoot(sb: Superblock, sp: Space, req: FsRequest)
    requires Realistic(sb) && Sane(sp)
    ensures var before := Assembled(sb, sp, req);
      before.Some? ==> RootReady(before.value, Components(req.Root())) && sp.nextFs <= before.value.nextFs
  {
    if Assembled(sb, sp, req).Some? {
      RootBoundRoot(sb, sp, req);
      FurnishedRoot(sb, RootBound(sb, sp, req).value, req);
    }
  }
}
