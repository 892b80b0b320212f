/** The assembled tree of `pivot_fs` (src/wrap.rs), compared with the host: the root file system
    is still all there, the host outside the tree is untouched, and each requested mount shows
    its source. */
module TreeView {
  import opened Wrappers
  import opened Paths
  import opened MountTable
  import opened Hardening
  import opened MountCalls
  import opened PivotFs
  import opened StableNodes

  // ----- nothing is lost on the way -----

  lemma {:induction false} UserMountedGrows(sb: Superblock, sp: Space, rootfs: string, mounts: seq<MountSpec>, after: Space)
    requires Sane(sp)
    ensures UserMounted(sb, sp, rootfs, mounts) == Some(after) ==> Grows(sp, after)
    decreases |mounts|
  {
    if mounts == [] {
      assert UserMounted(sb, sp, rootfs, mounts) == Some(sp);
    } else if UserMounted(sb, sp, rootfs, mounts) == Some(after) {
      var last := |mounts| - 1;
      UserMountedStep(sb, sp, rootfs, mounts, last);
      var done := UserMounted(sb, sp, rootfs, mounts[..last]).value;
      UserMountedGrows(sb, sp, rootfs, mounts[..last], done);
      MountedGrows(sb, done, Parented(rootfs, mounts[last]));
      GrowsOn(sp, done, after);
    }
  }

  lemma StageMadeGrows(sb: Superblock, sp: Space, req: FsRequest)
    requires Sane(sp)
    ensures var r := StageMade(sb, sp, req); r.Some? ==> Grows(sp, r.value)
  {
    if StageMade(sb, sp, req).Some? {
      var mounted := Mounted(sb, sp, StageTmpfs(req.StageBase())).value;
      var made := CreateDirAll(mounted, Components(req.StageRoot())).value;
      MountedGrows(sb, sp, StageTmpfs(req.StageBase()));
      CreateDirAllMakes(mounted, Components(req.StageRoot()));
      CreateDirAllMakes(made, Components(req.StageOld()));
      GrowsOn(sp, mounted, made);
      GrowsOn(sp, made, StageMade(sb, sp, req).value);
    }
  }

  lemma StagedGrows(sb: Superblock, sp: Space, req: FsRequest)
    requires Sane(sp)
    ensures var r := Staged(sb, sp, req); r.Some? ==> Grows(sp, r.value)
  {
    if Staged(sb, sp, req).Some? {
      var made := StageMade(sb, sp, req).value;
      StageMadeGrows(sb, sp, req);
      MountedGrows(sb, made, TreeBind("/", req.StageRoot()));
      GrowsOn(sp, made, Staged(sb, sp, req).value);
    }
  }

  lemma TreeBoundGrows(sb: Superblock, sp: Space, req: FsRequest)
    requires Sane(sp)
    ensures var r := TreeBound(sb, sp, req); r.Some? ==> Grows(sp, r.value)
  {
    if TreeBound(sb, sp, req).Some? {
      PrivateRootKeeps(sb, sp);
      StagedGrows(sb, sp, req);
      var staged := if req.CopiesHostRoot() then Staged(sb, sp, req).value else sp;
      MountedGrows(sb, staged, TreeBind(req.Root(), req.Root()));
      GrowsOn(sp, staged, TreeBound(sb, sp, req).value);
    }
  }

  lemma RootBoundGrows(sb: Superblock, sp: Space, req: FsRequest)
    requires Sane(sp)
    ensures var r := RootBound(sb, sp, req); r.Some? ==> Grows(sp, r.value)
  {
    TreeBoundGrows(sb, sp, req);
    RootBoundRoot(sb, sp, req);
  }

  lemma FurnishedGrows(sb: Superblock, sp: Space, req: FsRequest)
    requires Sane(sp)
    ensures var r := Furnished(sb, sp, req); r.Some? ==> Grows(sp, r.value)
  {
    if Furnished(sb, sp, req).Some? {
      var withProc := Mounted(sb, sp, ProcMount(req.Root())).value;
      var withMounts := UserMounted(sb, withProc, req.Root(), req.mounts.GetOr([])).value;
      var after := Furnished(sb, sp, req).value;
      MountedGrows(sb, sp, ProcMount(req.Root()));
      UserMountedGrows(sb, withProc, req.Root(), req.mounts.GetOr([]), withMounts);
      MutatedGrows(withMounts, req.Root(), req.mutations.GetOr([]), after);
      GrowsOn(sp, withProc, withMounts);
      GrowsOn(sp, withMounts, after);
    }
  }

  lemma AssembledGrows(sb: Superblock, sp: Space, req: FsRequest)
    requires Sane(sp)
    ensures var r := Assembled(sb, sp, req); r.Some? ==> Grows(sp, r.value)
  {
    if Assembled(sb, sp, req).Some? {
      RootBoundGrows(sb, sp, req);
      FurnishedGrows(sb, RootBound(sb, sp, req).value, req);
      GrowsOn(sp, RootBound(sb, sp, req).value, Assembled(sb, sp, req).value);
    }
  }

  // ----- the root file system -----

  lemma ApartAbove(covers: set<Path>, t: Path, r: Path)
    requires Apart(covers, r) && t <= r
    ensures Apart(covers, t)
  {
    forall c | c in covers
      ensures !(c <= t)
    {
      assert c <= t ==> c <= r;
    }
  }

  /** What the root file system holds is there in the assembled tree, away from /proc and the
      targets of the requested mounts. */
  lemma AssembledHolds(sb: Superblock, sp: Space, req: FsRequest, r: Path)
    requires Realistic(sb) && Sane(sp) && Apart(Covers(req), r)
    ensures var before := Assembled(sb, sp, req);
      before.Some? && StatAt(sp, Source(req) + r).Exists? ==>
      StatAt(before.value, Components(req.Root()) + r) == StatAt(sp, Source(req) + r)
  {
    if Assembled(sb, sp, req).Some? && StatAt(sp, Source(req) + r).Exists? {
      var before := Assembled(sb, sp, req).value;
      AssembledRoot(sb, sp, req);
      AssembledGrows(sb, sp, req);
      forall t: Path | t <= r
        ensures Where(before, Components(req.Root()) + t) == Where(sp, Source(req) + t)
      {
        ApartAbove(Covers(req), t, r);
        AssembledShows(sb, sp, req, t);
      }
      CarriedOver(sp, Source(req), before, Components(req.Root()), r);
    }
  }

  // ----- the host outside the tree -----

  /** Neither in the tree nor in the staging area. */
  predicate Outside(req: FsRequest, q: Path) {
    && !(Components(req.Root()) <= q)
    && (req.CopiesHostRoot() ==> !(Components(req.StageBase()) <= q))
  }

  lemma TreeBoundOutside(sb: Superblock, sp: Space, req: FsRequest, q: Path)
    requires Rooted(sp.table) && Outside(req, q)
    ensures var r := TreeBound(sb, sp, req); r.Some? ==> Top(r.value.table, q) == Top(sp.table, q)
  {
    if TreeBound(sb, sp, req).Some? {
      PrivateRootKeeps(sb, sp);
      if req.CopiesHostRoot() {
        MountedKeeps(sb, sp, StageTmpfs(req.StageBase()), q);
        MountedKeeps(sb, StageMade(sb, sp, req).value, TreeBind("/", req.StageRoot()), q);
        MountedKeeps(sb, Staged(sb, sp, req).value, TreeBind(req.Root(), req.Root()), q);
      } else {
        MountedKeeps(sb, sp, TreeBind(req.Root(), req.Root()), q);
      }
    }
  }

  lemma RootBoundOutside(sb: Superblock, sp: Space, req: FsRequest, q: Path)
    requires Sane(sp) && Outside(req, q)
    ensures var r := RootBound(sb, sp, req); r.Some? ==> Top(r.value.table, q) == Top(sp.table, q)
  {
    TreeBoundOutside(sb, sp, req, q);
    if RootBound(sb, sp, req).Some? && req.rootfsReadonly.GetOr(false) {
      MarkedElsewhere(TreeBound(sb, sp, req).value.table, Components(req.Root()), false, READ_ONLY, q);
    }
  }

  lemma {:induction false} UserMountedOutside(sb: Superblock, sp: Space, rootfs: string, mounts: seq<MountSpec>,
                                              after: Space, q: Path)
    requires Rooted(sp.table) && !(Components(rootfs) <= q)
    ensures UserMounted(sb, sp, rootfs, mounts) == Some(after) ==> Top(after.table, q) == Top(sp.table, q)
    decreases |mounts|
  {
    if mounts == [] {
      assert UserMounted(sb, sp, rootfs, mounts) == Some(sp);
    } else if UserMounted(sb, sp, rootfs, mounts) == Some(after) {
      var last := |mounts| - 1;
      UserMountedStep(sb, sp, rootfs, mounts, last);
      var done := UserMounted(sb, sp, rootfs, mounts[..last]).value;
      UserMountedOutside(sb, sp, rootfs, mounts[..last], done, q);
      ParentedOutside(sb, done, rootfs, mounts[last], q);
    }
  }

  lemma ParentedOutside(sb: Superblock, sp: Space, rootfs: string, m: MountSpec, q: Path)
    requires Rooted(sp.table) && !(Components(rootfs) <= q)
    ensures var r := Mounted(sb, sp, Parented(rootfs, m)); r.Some? ==> Top(r.value.table, q) == Top(sp.table, q)
  {
    ComponentsAppend(rootfs, m.target);
    assert Components(rootfs) + Components(m.target) <= q ==> Components(rootfs) <= q;
    MountedKeeps(sb, sp, Parented(rootfs, m), q);
  }

  lemma ProcOutside(sb: Superblock, sp: Space, rootfs: string, q: Path)
    requires Rooted(sp.table) && !(Components(rootfs) <= q)
    ensures var r := Mounted(sb, sp, ProcMount(rootfs)); r.Some? ==> Top(r.value.table, q) == Top(sp.table, q)
  {
    ProcTarget(rootfs);
    assert Components(rootfs) + PROC <= q ==> Components(rootfs) <= q;
    MountedKeeps(sb, sp, ProcMount(rootfs), q);
  }

  // ----- the new instance of procfs -----

  function ProcNode(sb: Superblock, p: Path): Stat {
    match sb(Some("proc"), "proc", None)
    case None => NotFound
    case Some(fs) => if p in fs.tree then Exists(fs.tree[p]) else NotFound
  }

  /** What a lookup finds in a new instance of procfs. */
  function ProcStat(sb: Superblock, p: Path): Stat {
    StatOf(x => ProcNode(sb, x), p)
  }

  lemma ProcMounted(sb: Superblock, bound: Space, rootfs: string, p: Path)
    requires Realistic(sb) && Sane(bound) && Mounted(sb, bound, ProcMount(rootfs)).Some?
    ensures var withProc := Mounted(sb, bound, ProcMount(rootfs)).value;
      && bound.nextFs in withProc.procs
      && (ProcNode(sb, p).Exists? ==>
          Loc(bound.nextFs, p) in withProc.nodes && Exists(withProc.nodes[Loc(bound.nextFs, p)]) == ProcNode(sb, p))
      && StatAt(withProc, Components(rootfs) + PROC).Exists?
  {
    ProcTarget(rootfs);
    MountedExists(sb, bound, ProcMount(rootfs));
  }

  /** Where no requested mount covers it, /proc holds what a new instance of procfs holds. */
  lemma ProcHolds(sb: Superblock, sp: Space, req: FsRequest, p: Path)
    requires Realistic(sb) && Sane(sp) && Apart(Targets(req.mounts.GetOr([])), PROC + p)
    ensures var before, bound := Assembled(sb, sp, req), RootBound(sb, sp, req);
      before.Some? ==>
      && bound.Some? && bound.value.nextFs in before.value.procs
      && (ProcStat(sb, p).Exists? ==> StatAt(before.value, Components(req.Root()) + (PROC + p)) == ProcStat(sb, p))
  {
    if Assembled(sb, sp, req).Some? {
      var root, bound, before := req.Root(), RootBound(sb, sp, req).value, Assembled(sb, sp, req).value;
      var withProc := Mounted(sb, bound, ProcMount(root)).value;
      var withMounts := UserMounted(sb, withProc, root, req.mounts.GetOr([])).value;
      RootBoundGrows(sb, sp, req);
      MountedSane(sb, bound, ProcMount(root));
      ProcMounted(sb, bound, root, []);
      NodesAfter(sb, withProc, req, req.mounts.GetOr([]), withMounts, before);
      ApartAbove(Targets(req.mounts.GetOr([])), PROC, PROC + p);
      TargetStays(sb, withProc, req, req.mounts.GetOr([]), withMounts, before, PROC);
      if ProcStat(sb, p).Exists? {
        ProcContents(sb, sp, req, p, bound, withProc, before);
      }
    }
  }

  lemma ProcContents(sb: Superblock, sp: Space, req: FsRequest, p: Path, bound: Space, withProc: Space, before: Space)
    requires Realistic(sb) && Sane(sp) && Sane(bound) && Apart(Targets(req.mounts.GetOr([])), PROC + p)
    requires Assembled(sb, sp, req) == Some(before) && RootBound(sb, sp, req) == Some(bound)
    requires Mounted(sb, bound, ProcMount(req.Root())) == Some(withProc) && Grows(withProc, before)
    requires StatAt(before, Components(req.Root()) + PROC).Exists? && ProcStat(sb, p).Exists?
    ensures StatAt(before, Components(req.Root()) + (PROC + p)) == ProcStat(sb, p)
  {
    var at, node := Components(req.Root()) + PROC, x => ProcNode(sb, x);
    forall x: Path | x <= p && node(x).Exists?
      ensures NodeAt(before, at + x) == node(x)
    {
      LongerTarget(PROC, x, p);
      ApartAbove(Targets(req.mounts.GetOr([])), PROC + x, PROC + p);
      ProcOfContainer(sb, sp, req, x);
      ProcMounted(sb, bound, req.Root(), x);
      PathAssociates(Components(req.Root()), PROC, x);
      assert Loc(bound.nextFs, x) in withProc.nodes;
    }
    HeldBelow(before, at, node, p);
    PathAssociates(Components(req.Root()), PROC, p);
  }

  // ----- a requested mount -----

  /** The state in which the `i`-th requested mount is made. */
  function BeforeMount(sb: Superblock, sp: Space, req: FsRequest, i: nat): (r: Option<Space>)
    requires Rooted(sp.table) && i <= |req.mounts.GetOr([])|
    ensures r.Some? ==> Rooted(r.value.table)
  {
    var bound :- RootBound(sb, sp, req);
    var withProc :- Mounted(sb, bound, ProcMount(req.Root()));
    UserMounted(sb, withProc, req.Root(), req.mounts.GetOr([])[..i])
  }

  /** Until then the host outside the tree is as it was. */
  lemma BeforeMountOutside(sb: Superblock, sp: Space, req: FsRequest, i: nat, q: Path)
    requires Sane(sp) && i <= |req.mounts.GetOr([])| && Outside(req, q)
    ensures var r := BeforeMount(sb, sp, req, i); r.Some? ==> Top(r.value.table, q) == Top(sp.table, q)
  {
    if BeforeMount(sb, sp, req, i).Some? {
      var bound := RootBound(sb, sp, req).value;
      var withProc := Mounted(sb, bound, ProcMount(req.Root())).value;
      RootBoundOutside(sb, sp, req, q);
      ProcOutside(sb, bound, req.Root(), q);
      UserMountedOutside(sb, withProc, req.Root(), req.mounts.GetOr([])[..i], BeforeMount(sb, sp, req, i).value, q);
    }
  }

  /** The whole of it leaves the host outside the tree alone. */
  lemma AssembledOutside(sb: Superblock, sp: Space, req: FsRequest, q: Path)
    requires Sane(sp) && Outside(req, q)
    ensures var before := Assembled(sb, sp, req); before.Some? ==> Top(before.value.table, q) == Top(sp.table, q)
  {
    var mounts := req.mounts.GetOr([]);
    BeforeMountOutside(sb, sp, req, |mounts|, q);
    assert mounts[..|mounts|] == mounts;
  }

  lemma BeforeMountGrows(sb: Superblock, sp: Space, req: FsRequest, i: nat)
    requires Sane(sp) && i <= |req.mounts.GetOr([])|
    ensures var r := BeforeMount(sb, sp, req, i); r.Some? ==> Grows(sp, r.value)
  {
    if BeforeMount(sb, sp, req, i).Some? {
      var bound := RootBound(sb, sp, req).value;
      var withProc := Mounted(sb, bound, ProcMount(req.Root())).value;
      var done := BeforeMount(sb, sp, req, i).value;
      RootBoundGrows(sb, sp, req);
      MountedGrows(sb, bound, ProcMount(req.Root()));
      UserMountedGrows(sb, withProc, req.Root(), req.mounts.GetOr([])[..i], done);
      GrowsOn(sp, bound, withProc);
      GrowsOn(sp, withProc, done);
    }
  }

  /** The last mount that covers a path decides what the assembled tree shows there. */
  lemma RequestedMountSight(sb: Superblock, sp: Space, req: FsRequest, i: nat, t: Path)
    requires Rooted(sp.table) && i < |req.mounts.GetOr([])|
    requires var mounts := req.mounts.GetOr([]);
      && (mounts[i].bind || !mounts[i].unshare)
      && Apart(Targets(mounts[i + 1..]), Components(mounts[i].target) + t)
    ensures var m, made, before := req.mounts.GetOr([])[i], BeforeMount(sb, sp, req, i), Assembled(sb, sp, req);
            var q := Components(req.Root()) + (Components(m.target) + t);
      before.Some? ==>
      && made.Some? && (m.bind ==> m.source.Some?)
      && Where(before.value, q) == SourceSight(made.value, m, t).0
      && Attrs(before.value, q) == SourceSight(made.value, m, t).1.With(Added(m))
  {
    var mounts, root := req.mounts.GetOr([]), req.Root();
    if Assembled(sb, sp, req).Some? {
      var bound := RootBound(sb, sp, req).value;
      var withProc := Mounted(sb, bound, ProcMount(root)).value;
      var withMounts := UserMounted(sb, withProc, root, mounts).value;
      var with := MountsSplit(sb, withProc, root, mounts, i, withMounts);
      OneMountSight(sb, UserMounted(sb, withProc, root, mounts[..i]).value, root, mounts[i], t);
      UserMountedKeeps(sb, with, root, mounts[i + 1..], withMounts);
    }
  }

  /** The list of mounts, with the state after the `i`-th. */
  lemma MountsSplit(sb: Superblock, sp: Space, rootfs: string, mounts: seq<MountSpec>, i: nat, after: Space)
    returns (with: Space)
    requires Rooted(sp.table) && i < |mounts| && UserMounted(sb, sp, rootfs, mounts) == Some(after)
    ensures UserMounted(sb, sp, rootfs, mounts[..i]).Some?
    ensures Mounted(sb, UserMounted(sb, sp, rootfs, mounts[..i]).value, Parented(rootfs, mounts[i])) == Some(with)
    ensures Rooted(with.table) && UserMounted(sb, with, rootfs, mounts[i + 1..]) == Some(after)
  {
    CutAt(mounts, i);
    UserMountedAppend(sb, sp, rootfs, mounts[..i + 1], mounts[i + 1..], after);
    with := UserMounted(sb, sp, rootfs, mounts[..i + 1]).value;
    UserMountedStep(sb, sp, rootfs, mounts[..i + 1], i);
  }

  lemma CutAt<T>(s: seq<T>, i: nat)
    requires i < |s|
    ensures s[..i + 1] + s[i + 1..] == s && s[..i + 1][..i] == s[..i] && s[..i + 1][i] == s[i]
  {
  }

  lemma OneMountSight(sb: Superblock, sp: Space, rootfs: string, m: MountSpec, t: Path)
    requires Rooted(sp.table) && (m.bind || !m.unshare)
    ensures var after, q := Mounted(sb, sp, Parented(rootfs, m)), Components(rootfs) + (Components(m.target) + t);
      after.Some? ==>
      && (m.bind ==> m.source.Some?)
      && Where(after.value, q) == SourceSight(sp, m, t).0
      && Attrs(after.value, q) == SourceSight(sp, m, t).1.With(Added(m))
  {
    TargetPath(rootfs, m, t);
    if Mounted(sb, sp, Parented(rootfs, m)).Some? {
      MountedShows(sb, sp, Parented(rootfs, m), t);
    }
  }

  lemma TargetPath(rootfs: string, m: MountSpec, t: Path)
    ensures Components(rootfs) + (Components(m.target) + t) == Components(Parented(rootfs, m).target) + t
  {
    ComponentsAppend(rootfs, m.target);
  }

  /** What a requested mount brings along at a path of its own. */
  function SourceNode(sb: Superblock, sp: Space, m: MountSpec, t: Path): Stat
    requires Rooted(sp.table) && (m.bind ==> m.source.Some?)
    requires !m.bind ==> m.fstype.Some? && sb(m.source, m.fstype.value, None).Some?
  {
    if m.bind then
      var l := SourceSight(sp, m, t).0;
      if l in sp.nodes then Exists(sp.nodes[l]) else NotFound
    else
      var tree := sb(m.source, m.fstype.value, None).value.tree;
      if t in tree then Exists(tree[t]) else NotFound
  }

  predicate Mountable(sb: Superblock, m: MountSpec) {
    && (m.bind || !m.unshare)
    && (m.bind ==> m.source.Some?)
    && (!m.bind ==> m.fstype.Some? && sb(m.source, m.fstype.value, None).Some?)
  }

  lemma MountedMountable(sb: Superblock, sp: Space, rootfs: string, m: MountSpec)
    requires Rooted(sp.table) && Mounted(sb, sp, Parented(rootfs, m)).Some? && (m.bind || !m.unshare)
    ensures Mountable(sb, m)
  {
  }

  /** A type, source or data that the kernel refuses is refused wherever it is to be mounted. */
  lemma UnknownRefused(sb: Superblock, sp: Space, rootfs: string, m: MountSpec)
    requires Rooted(sp.table) && !m.bind && !m.unshare && m.fstype.Some? && sb(m.source, m.fstype.value, None) == None
    ensures Mounted(sb, sp, Parented(rootfs, m)).None?
  {
  }

  /** A mount carries its contents along: they stay where it is mounted. */
  lemma MountedHolds(sb: Superblock, sp: Space, rootfs: string, m: MountSpec, t: Path)
    requires Realistic(sb) && Sane(sp) && Mountable(sb, m) && Mounted(sb, sp, Parented(rootfs, m)).Some?
    ensures var after := Mounted(sb, sp, Parented(rootfs, m)).value;
      SourceNode(sb, sp, m, t).Exists? ==>
      && SourceSight(sp, m, t).0 in after.nodes
      && Exists(after.nodes[SourceSight(sp, m, t).0]) == SourceNode(sb, sp, m, t)
  {
    var ready := WithMountpoint(sp, Parented(rootfs, m)).value;
    WithMountpointMakes(sp, Parented(rootfs, m));
    if m.bind {
      MountedGrows(sb, sp, Parented(rootfs, m));
    } else {
      WithMountpointSight(sp, Parented(rootfs, m), t);
      assert ready.nextFs == sp.nextFs;
    }
  }

  /** The target of a requested mount is still there at the end. */
  lemma {:induction false} UserMountedStat(sb: Superblock, sp: Space, rootfs: string, mounts: seq<MountSpec>,
                                           after: Space, r: Path)
    requires Realistic(sb) && Sane(sp) && Apart(Targets(mounts), r)
    ensures var q := Components(rootfs) + r;
      UserMounted(sb, sp, rootfs, mounts) == Some(after) && StatAt(sp, q).Exists? ==> StatAt(after, q) == StatAt(sp, q)
    decreases |mounts|
  {
    if mounts == [] {
      assert UserMounted(sb, sp, rootfs, mounts) == Some(sp);
    } else if UserMounted(sb, sp, rootfs, mounts) == Some(after) && StatAt(sp, Components(rootfs) + r).Exists? {
      var last := |mounts| - 1;
      UserMountedStep(sb, sp, rootfs, mounts, last);
      var done := UserMounted(sb, sp, rootfs, mounts[..last]).value;
      ApartFront(mounts, last, r);
      UserMountedStat(sb, sp, rootfs, mounts[..last], done, r);
      UserMountedGrows(sb, sp, rootfs, mounts[..last], done);
      ParentedStat(sb, done, rootfs, mounts[last], r);
    }
  }

  lemma ApartFront(mounts: seq<MountSpec>, last: nat, r: Path)
    requires |mounts| == last + 1 && Apart(Targets(mounts), r)
    ensures Apart(Targets(mounts[..last]), r) && !(Components(mounts[last].target) <= r)
  {
    TargetsSnoc(mounts[..last], mounts[last]);
    assert mounts == mounts[..last] + [mounts[last]];
  }

  lemma ParentedStat(sb: Superblock, sp: Space, rootfs: string, m: MountSpec, r: Path)
    requires Realistic(sb) && Sane(sp) && Mounted(sb, sp, Parented(rootfs, m)).Some?
    requires !(Components(m.target) <= r) && StatAt(sp, Components(rootfs) + r).Exists?
    ensures StatAt(Mounted(sb, sp, Parented(rootfs, m)).value, Components(rootfs) + r) == StatAt(sp, Components(rootfs) + r)
  {
    ComponentsAppend(rootfs, m.target);
    if Components(rootfs) + Components(m.target) <= Components(rootfs) + r {
      PrefixCancel(Components(rootfs), Components(m.target), r);
      assert false;
    }
    MountedStat(sb, sp, Parented(rootfs, m), Components(rootfs) + r);
  }

  lemma NodesAfter(sb: Superblock, with: Space, req: FsRequest, later: seq<MountSpec>, withMounts: Space, before: Space)
    requires Sane(with) && UserMounted(sb, with, req.Root(), later) == Some(withMounts)
    requires Mutated(withMounts, req.Root(), req.mutations.GetOr([])) == Some(before)
    ensures Grows(with, before)
  {
    UserMountedGrows(sb, with, req.Root(), later, withMounts);
    MutatedGrows(withMounts, req.Root(), req.mutations.GetOr([]), before);
    GrowsOn(with, withMounts, before);
  }

  lemma TargetStays(sb: Superblock, with: Space, req: FsRequest, later: seq<MountSpec>, withMounts: Space, before: Space,
                    c: Path)
    requires Realistic(sb) && Sane(with) && UserMounted(sb, with, req.Root(), later) == Some(withMounts)
    requires Mutated(withMounts, req.Root(), req.mutations.GetOr([])) == Some(before)
    requires Apart(Targets(later), c) && StatAt(with, Components(req.Root()) + c).Exists?
    ensures StatAt(before, Components(req.Root()) + c).Exists?
  {
    UserMountedStat(sb, with, req.Root(), later, withMounts, c);
    UserMountedGrows(sb, with, req.Root(), later, withMounts);
    MutatedGrows(withMounts, req.Root(), req.mutations.GetOr([]), before);
    KindStays(withMounts, before, Components(req.Root()) + c);
  }

  /** What a lookup finds in the source of a requested mount. */
  function SourceStat(sb: Superblock, sp: Space, m: MountSpec, t: Path): Stat
    requires Rooted(sp.table) && Mountable(sb, m)
  {
    StatOf(p => SourceNode(sb, sp, m, p), t)
  }

  /** The source of the mount `m` of the state `made`, held by the nodes of `with`. */
  ghost predicate Holds(sb: Superblock, made: Space, m: MountSpec, with: Space, t: Path)
    requires Rooted(made.table) && Mountable(sb, m)
  {
    SourceNode(sb, made, m, t).Exists? ==>
      && SourceSight(made, m, t).0 in with.nodes
      && Exists(with.nodes[SourceSight(made, m, t).0]) == SourceNode(sb, made, m, t)
  }

  lemma ContentsAt(sb: Superblock, made: Space, m: MountSpec, with: Space, before: Space, at: Path, t: Path)
    requires Rooted(made.table) && Rooted(before.table) && Mountable(sb, m) && KindsKept(with, before)
    requires StatAt(before, at).Exists? && SourceStat(sb, made, m, t).Exists?
    requires forall p: Path :: p <= t ==> Where(before, at + p) == SourceSight(made, m, p).0
    requires forall p: Path :: p <= t ==> Holds(sb, made, m, with, p)
    ensures StatAt(before, at + t) == SourceStat(sb, made, m, t)
  {
    var node := p => SourceNode(sb, made, m, p);
    forall p: Path | p <= t && node(p).Exists?
      ensures NodeAt(before, at + p) == node(p)
    {
      assert Holds(sb, made, m, with, p);
      assert SourceSight(made, m, p).0 in before.nodes;
    }
    HeldBelow(before, at, node, t);
  }

  lemma TargetFound(sb: Superblock, req: FsRequest, i: nat, t: Path, made: Space, with: Space, withMounts: Space, before: Space)
    requires Realistic(sb) && Sane(made) && i < |req.mounts.GetOr([])|
    requires var mounts := req.mounts.GetOr([]);
      && Apart(Targets(mounts[i + 1..]), Components(mounts[i].target) + t)
      && Mounted(sb, made, Parented(req.Root(), mounts[i])) == Some(with)
      && UserMounted(sb, with, req.Root(), mounts[i + 1..]) == Some(withMounts)
      && Mutated(withMounts, req.Root(), req.mutations.GetOr([])) == Some(before)
    ensures Grows(with, before)
    ensures StatAt(before, Components(req.Root()) + Components(req.mounts.GetOr([])[i].target)).Exists?
  {
    var m, later := req.mounts.GetOr([])[i], req.mounts.GetOr([])[i + 1..];
    MountedSane(sb, made, Parented(req.Root(), m));
    NodesAfter(sb, with, req, later, withMounts, before);
    ApartAbove(Targets(later), Components(m.target), Components(m.target) + t);
    ComponentsAppend(req.Root(), m.target);
    MountedExists(sb, made, Parented(req.Root(), m));
    TargetStays(sb, with, req, later, withMounts, before, Components(m.target));
  }

  /** What the source of a requested mount holds is there in the assembled tree, wherever no
      later mount covers it. */
  lemma RequestedMountHolds(sb: Superblock, sp: Space, req: FsRequest, i: nat, t: Path)
    requires Realistic(sb) && Sane(sp) && i < |req.mounts.GetOr([])|
    requires var mounts := req.mounts.GetOr([]);
      && (mounts[i].bind || !mounts[i].unshare)
      && Apart(Targets(mounts[i + 1..]), Components(mounts[i].target) + t)
    ensures var m, made, before := req.mounts.GetOr([])[i], BeforeMount(sb, sp, req, i), Assembled(sb, sp, req);
            var q := Components(req.Root()) + (Components(m.target) + t);
      before.Some? ==>
      && made.Some? && Mountable(sb, m)
      && (SourceStat(sb, made.value, m, t).Exists? ==> StatAt(before.value, q) == SourceStat(sb, made.value, m, t))
  {
    if Assembled(sb, sp, req).Some? {
      RequestedMountSight(sb, sp, req, i, t);
      var mounts, root := req.mounts.GetOr([]), req.Root();
      var withProc := Mounted(sb, RootBound(sb, sp, req).value, ProcMount(root)).value;
      var withMounts := UserMounted(sb, withProc, root, mounts).value;
      var with := MountsSplit(sb, withProc, root, mounts, i, withMounts);
      var made := BeforeMount(sb, sp, req, i).value;
      BeforeMountGrows(sb, sp, req, i);
      MountedMountable(sb, made, root, mounts[i]);
      if SourceStat(sb, made, mounts[i], t).Exists? {
        var before := Assembled(sb, sp, req).value;
        TargetFound(sb, req, i, t, made, with, withMounts, before);
        MountContents(sb, sp, req, i, t, made, with, before);
      }
    }
  }

  lemma MountContents(sb: Superblock, sp: Space, req: FsRequest, i: nat, t: Path, made: Space, with: Space, before: Space)
    requires Realistic(sb) && Sane(sp) && Sane(made) && Rooted(before.table) && i < |req.mounts.GetOr([])|
    requires Assembled(sb, sp, req) == Some(before) && BeforeMount(sb, sp, req, i) == Some(made)
    requires var m := req.mounts.GetOr([])[i];
      && Mountable(sb, m)
      && Apart(Targets(req.mounts.GetOr([])[i + 1..]), Components(m.target) + t)
      && Mounted(sb, made, Parented(req.Root(), m)) == Some(with)
      && SourceStat(sb, made, m, t).Exists?
      && Grows(with, before)
      && StatAt(before, Components(req.Root()) + Components(m.target)).Exists?
    ensures var m := req.mounts.GetOr([])[i];
      StatAt(before, Components(req.Root()) + (Components(m.target) + t)) == SourceStat(sb, made, m, t)
  {
    var m, later := req.mounts.GetOr([])[i], req.mounts.GetOr([])[i + 1..];
    var at := Components(req.Root()) + Components(m.target);
    forall p: Path | p <= t
      ensures Where(before, at + p) == SourceSight(made, m, p).0
    {
      LongerTarget(Components(m.target), p, t);
      ApartAbove(Targets(later), Components(m.target) + p, Components(m.target) + t);
      RequestedMountSight(sb, sp, req, i, p);
      PathAssociates(Components(req.Root()), Components(m.target), p);
    }
    forall p: Path | p <= t
      ensures Holds(sb, made, m, with, p)
    {
      MountedHolds(sb, made, req.Root(), m, p);
    }
    ContentsAt(sb, made, m, with, before, at, t);
    PathAssociates(Components(req.Root()), Components(m.target), t);
  }

  lemma LongerTarget(c: Path, p: Path, t: Path)
    requires p <= t
    ensures c + p <= c + t
  {
  }

  lemma PathAssociates(a: Path, b: Path, c: Path)
    ensures a + (b + c) == (a + b) + c
  {
  }

  // ----- plain binds of locked mounts -----

  lemma AttachedLocked(sb: Superblock, sp: Space, spec: MountSpec, src: Path)
    requires Rooted(sp.table) && LockedBelow(sp.table, src) && !(Components(spec.target) <= src)
    ensures var r := Attached(sb, sp, spec); r.Some? ==> LockedBelow(r.value.table, src)
  {
    var at := Components(spec.target);
    if spec.bind && spec.source.Some? {
      var from := Components(spec.source.value);
      CopiesBelow(sp.table, from, at);
      LockedBelowStays(sp.table, if spec.recurse then Copies(sp.table, from, at)
                                 else [Mount(at, LocAt(sp.table, from), AttrsAt(sp.table, from))], src);
    } else {
      LockedBelowStays(sp.table, [Mount(at, Loc(sp.nextFs, []), NO_ATTRS)], src);
    }
  }

  /** Mounting elsewhere unlocks nothing. */
  lemma MountedLocked(sb: Superblock, sp: Space, spec: MountSpec, src: Path)
    requires Rooted(sp.table) && LockedBelow(sp.table, src) && !(Components(spec.target) <= src)
    ensures var r := Mounted(sb, sp, spec); r.Some? ==> LockedBelow(r.value.table, src)
  {
    var ready := WithMountpoint(sp, spec);
    if ready.Some? {
      AttachedLocked(sb, ready.value, spec, src);
      var mounted := Attached(sb, ready.value, spec);
      if mounted.Some? {
        LockedBelowMarked(mounted.value.table, Components(spec.target), spec.recurse, Added(spec), src);
      }
    }
  }

  lemma TreeBoundLocked(sb: Superblock, sp: Space, req: FsRequest, src: Path)
    requires Rooted(sp.table) && LockedBelow(sp.table, src) && Outside(req, src)
    ensures var r := TreeBound(sb, sp, req); r.Some? ==> LockedBelow(r.value.table, src)
  {
    if TreeBound(sb, sp, req).Some? {
      PrivateRootKeeps(sb, sp);
      if req.CopiesHostRoot() {
        MountedLocked(sb, sp, StageTmpfs(req.StageBase()), src);
        MountedLocked(sb, StageMade(sb, sp, req).value, TreeBind("/", req.StageRoot()), src);
        MountedLocked(sb, Staged(sb, sp, req).value, TreeBind(req.Root(), req.Root()), src);
      } else {
        MountedLocked(sb, sp, TreeBind(req.Root(), req.Root()), src);
      }
    }
  }

  lemma RootBoundLocked(sb: Superblock, sp: Space, req: FsRequest, src: Path)
    requires Rooted(sp.table) && LockedBelow(sp.table, src) && Outside(req, src)
    ensures var r := RootBound(sb, sp, req); r.Some? ==> LockedBelow(r.value.table, src)
  {
    TreeBoundLocked(sb, sp, req, src);
    if RootBound(sb, sp, req).Some? && req.rootfsReadonly.GetOr(false) {
      LockedBelowMarked(TreeBound(sb, sp, req).value.table, Components(req.Root()), false, READ_ONLY, src);
    }
  }

  lemma {:induction false} UserMountedLocked(sb: Superblock, sp: Space, rootfs: string, mounts: seq<MountSpec>,
                                             after: Space, src: Path)
    requires Rooted(sp.table) && LockedBelow(sp.table, src) && !(Components(rootfs) <= src)
    ensures UserMounted(sb, sp, rootfs, mounts) == Some(after) ==> LockedBelow(after.table, src)
    decreases |mounts|
  {
    if mounts == [] {
      assert UserMounted(sb, sp, rootfs, mounts) == Some(sp);
    } else if UserMounted(sb, sp, rootfs, mounts) == Some(after) {
      var last := |mounts| - 1;
      UserMountedStep(sb, sp, rootfs, mounts, last);
      var done := UserMounted(sb, sp, rootfs, mounts[..last]).value;
      UserMountedLocked(sb, sp, rootfs, mounts[..last], done, src);
      BelowRoot(rootfs, mounts[last], src);
      MountedLocked(sb, done, Parented(rootfs, mounts[last]), src);
    }
  }

  lemma BelowRoot(rootfs: string, m: MountSpec, q: Path)
    requires !(Components(rootfs) <= q)
    ensures !(Components(Parented(rootfs, m).target) <= q)
  {
    ComponentsAppend(rootfs, m.target);
    assert Components(rootfs) + Components(m.target) <= q ==> Components(rootfs) <= q;
  }

  lemma BeforeMountLocked(sb: Superblock, sp: Space, req: FsRequest, i: nat, src: Path)
    requires Rooted(sp.table) && i <= |req.mounts.GetOr([])| && LockedBelow(sp.table, src) && Outside(req, src)
    ensures var r := BeforeMount(sb, sp, req, i); r.Some? ==> LockedBelow(r.value.table, src)
  {
    if BeforeMount(sb, sp, req, i).Some? {
      var bound := RootBound(sb, sp, req).value;
      var withProc := Mounted(sb, bound, ProcMount(req.Root())).value;
      RootBoundLocked(sb, sp, req, src);
      ProcTarget(req.Root());
      assert Components(req.Root()) + PROC <= src ==> Components(req.Root()) <= src;
      MountedLocked(sb, bound, ProcMount(req.Root()), src);
      UserMountedLocked(sb, withProc, req.Root(), req.mounts.GetOr([])[..i], BeforeMount(sb, sp, req, i).value, src);
    }
  }

  lemma BeforeMountStat(sb: Superblock, sp: Space, req: FsRequest, i: nat, q: Path)
    requires Sane(sp) && i <= |req.mounts.GetOr([])| && Outside(req, q) && StatAt(sp, q).Exists?
    ensures var r := BeforeMount(sb, sp, req, i); r.Some? ==> StatAt(r.value, q) == StatAt(sp, q)
  {
    var made := BeforeMount(sb, sp, req, i);
    if made.Some? {
      BeforeMountGrows(sb, sp, req, i);
      forall p: Path | p <= q
        ensures Where(made.value, p) == Where(sp, p)
      {
        assert Outside(req, p);
        BeforeMountOutside(sb, sp, req, i, p);
      }
      KindStays(sp, made.value, q);
    }
  }

  lemma LockedSourceRefused(sb: Superblock, made: Space, spec: MountSpec)
    requires Sane(made) && spec.bind && !spec.recurse && spec.source.Some?
    requires StatAt(made, Components(spec.source.value)) == Exists(Dir) && LockedBelow(made.table, Components(spec.source.value))
    ensures Mounted(sb, made, spec).None?
  {
    var ready := WithMountpoint(made, spec);
    if ready.Some? {
      WithMountpointMakes(made, spec);
      KindStays(made, ready.value, Components(spec.source.value));
    }
  }

  /** A plain bind of a directory of the host with a locked mount below it is refused, whatever else
      the request mounts. */
  lemma LockedBindRefused(sb: Superblock, sp: Space, req: FsRequest, i: nat)
    requires Sane(sp) && i < |req.mounts.GetOr([])|
    requires var m := req.mounts.GetOr([])[i];
      && m.bind && !m.recurse && m.source.Some?
      && Outside(req, Components(m.source.value))
      && StatAt(sp, Components(m.source.value)) == Exists(Dir)
      && LockedBelow(sp.table, Components(m.source.value))
    ensures Assembled(sb, sp, req).None?
  {
    if Assembled(sb, sp, req).Some? {
      var mounts, root := req.mounts.GetOr([]), req.Root();
      var withProc := Mounted(sb, RootBound(sb, sp, req).value, ProcMount(root)).value;
      var with := MountsSplit(sb, withProc, root, mounts, i, UserMounted(sb, withProc, root, mounts).value);
      var made, src := BeforeMount(sb, sp, req, i).value, Components(mounts[i].source.value);
      BeforeMountGrows(sb, sp, req, i);
      BeforeMountLocked(sb, sp, req, i, src);
      BeforeMountStat(sb, sp, req, i, src);
      LockedSourceRefused(sb, made, Parented(root, mounts[i]));
    }
  }
}
