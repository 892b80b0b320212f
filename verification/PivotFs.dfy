/** How `pivot_fs` (src/wrap.rs) assembles a container's file tree, and what the tree shows.

    Paths of the container are written `r`; the tree is assembled below a directory `root` of
    the host, so that `r` is `root + r` until the pivot. */
module PivotFs {
  import opened Wrappers
  import opened Paths
  import opened MountTable
  import opened Hardening
  import opened MountCalls

  /** The parts of a request that concern the file tree; a mutation is the target of a
      directory to create. */
  datatype FsRequest = FsRequest(
    identity: string,
    rootfs: Option<string>,
    rootfsReadonly: Option<bool>,
    mounts: Option<seq<MountSpec>>,
    mutations: Option<seq<string>>,
    maskedPaths: Option<seq<string>>,
    readonlyPaths: Option<seq<string>>)
  {
    predicate CopiesHostRoot() {
      rootfs == Some("/")
    }

    function StageBase(): string {
      "/tmp/styrolite-stage-" + identity
    }

    function StageRoot(): string {
      StageBase() + "/root"
    }

    function StageOld(): string {
      StageBase() + "/old"
    }

    /** Where the tree is assembled. */
    function Root(): string {
      if CopiesHostRoot() then StageRoot() else rootfs.GetOr("")
    }
  }

  const PRIVATE_ROOT := MountSpec(None, "/", None, false, true, true, false, false, false, None)

  function StageTmpfs(target: string): MountSpec {
    MountSpec(Some("tmpfs"), target, Some("tmpfs"), false, false, false, true, true, false, None)
  }

  function TreeBind(source: string, target: string): MountSpec {
    MountSpec(Some(source), target, Some("none"), true, true, false, false, false, false, None)
  }

  function ProcMount(rootfs: string): MountSpec {
    MountSpec(Some("proc"), rootfs + "/proc", Some("proc"), false, true, false, true, false, false, None)
  }

  /** A mount of the request, moved below the root; its mount data is dropped. */
  function Parented(rootfs: string, m: MountSpec): MountSpec {
    m.(target := rootfs + "/" + m.target, data := None)
  }

  /** PathBuf::push: an absolute target replaces the base. */
  function Pushed(rootfs: string, target: string): string {
    if target != [] && target[0] == '/' then target else rootfs + "/" + target
  }

  /** The root mount itself made read-only, without recursion. */
  function SealRoot(sp: Space, spec: MountSpec): (r: Option<Space>)
    requires Rooted(sp.table)
    ensures r.Some? ==> Rooted(r.value.table)
  {
    var source :- spec.source; SetattrCall(sp, source, false, READ_ONLY)
  }

  function StageMade(sb: Superblock, sp: Space, req: FsRequest): (r: Option<Space>)
    requires Rooted(sp.table)
    ensures r.Some? ==> Rooted(r.value.table)
  {
    var mounted :- Mounted(sb, sp, StageTmpfs(req.StageBase()));
    var made :- CreateDirAll(mounted, Components(req.StageRoot()));
    CreateDirAll(made, Components(req.StageOld()))
  }

  function Staged(sb: Superblock, sp: Space, req: FsRequest): (r: Option<Space>)
    requires Rooted(sp.table)
    ensures r.Some? ==> Rooted(r.value.table)
  {
    var made :- StageMade(sb, sp, req);
    Mounted(sb, made, TreeBind("/", req.StageRoot()))
  }

  function UserMounted(sb: Superblock, sp: Space, rootfs: string, mounts: seq<MountSpec>): (r: Option<Space>)
    requires Rooted(sp.table)
    ensures r.Some? ==> Rooted(r.value.table)
  {
    if mounts == [] then Some(sp)
    else
      var last := |mounts| - 1;
      var done :- UserMounted(sb, sp, rootfs, mounts[..last]);
      Mounted(sb, done, Parented(rootfs, mounts[last]))
  }

  function Mutated(sp: Space, rootfs: string, targets: seq<string>): (r: Option<Space>)
    requires Rooted(sp.table)
    ensures r.Some? ==> r.value.table == sp.table
  {
    if targets == [] then Some(sp)
    else
      var last := |targets| - 1;
      var done :- Mutated(sp, rootfs, targets[..last]);
      CreateDirAll(done, Components(Pushed(rootfs, targets[last])))
  }

  /** The root bound over itself, after a copy of the host's tree if that is the root. */
  function TreeBound(sb: Superblock, sp: Space, req: FsRequest): (r: Option<Space>)
    requires Rooted(sp.table)
    ensures r.Some? ==> Rooted(r.value.table)
  {
    var private :- Mounted(sb, sp, PRIVATE_ROOT);
    var staged :- if req.CopiesHostRoot() then Staged(sb, private, req) else Some(private);
    Mounted(sb, staged, TreeBind(req.Root(), req.Root()))
  }

  /** The root, sealed if the request says so. */
  function RootBound(sb: Superblock, sp: Space, req: FsRequest): (r: Option<Space>)
    requires Rooted(sp.table)
    ensures r.Some? ==> Rooted(r.value.table)
  {
    var bound :- TreeBound(sb, sp, req);
    if req.rootfsReadonly.GetOr(false) then SealRoot(bound, TreeBind(req.Root(), req.Root())) else Some(bound)
  }

  /** Everything on top of the root: /proc, the mounts of the request, its directories. */
  function Furnished(sb: Superblock, sp: Space, req: FsRequest): (r: Option<Space>)
    requires Rooted(sp.table)
    ensures r.Some? ==> Rooted(r.value.table)
  {
    var withProc :- Mounted(sb, sp, ProcMount(req.Root()));
    var withMounts :- UserMounted(sb, withProc, req.Root(), req.mounts.GetOr([]));
    Mutated(withMounts, req.Root(), req.mutations.GetOr([]))
  }

  /** The tree before hardening. */
  function Assembled(sb: Superblock, sp: Space, req: FsRequest): (r: Option<Space>)
    requires Rooted(sp.table)
    ensures r.Some? ==> Rooted(r.value.table)
  {
    if req.rootfs.None? then None
    else
      var bound :- RootBound(sb, sp, req);
      Furnished(sb, bound, req)
  }

  // ----- what the assembled tree shows -----

  /** Neither at nor below any of a set of paths. */
  ghost predicate Apart(covers: set<Path>, r: Path) {
    forall c :: c in covers ==> !(c <= r)
  }

  /** Below `root` and apart from the covered paths, every path is on the mount it was on. */
  ghost predicate KeepsBelow(a: Space, b: Space, root: Path, covers: set<Path>) {
    && Rooted(a.table) && Rooted(b.table)
    && forall r: Path :: Apart(covers, r) ==> Top(b.table, root + r) == Top(a.table, root + r)
  }

  lemma KeepsMore(a: Space, b: Space, c: Space, root: Path, x: set<Path>, y: set<Path>)
    requires KeepsBelow(a, b, root, x) && KeepsBelow(b, c, root, y)
    ensures KeepsBelow(a, c, root, x + y)
  {
    forall r: Path | Apart(x + y, r)
      ensures Top(c.table, root + r) == Top(a.table, root + r)
    {
      assert Apart(x, r) && Apart(y, r);
    }
  }

  lemma MountedKeepsBelow(sb: Superblock, sp: Space, spec: MountSpec, root: Path, cover: Path)
    requires Rooted(sp.table) && Mounted(sb, sp, spec).Some? && Components(spec.target) == root + cover
    ensures KeepsBelow(sp, Mounted(sb, sp, spec).value, root, {cover})
  {
    var after := Mounted(sb, sp, spec).value;
    forall r: Path | Apart({cover}, r)
      ensures Top(after.table, root + r) == Top(sp.table, root + r)
    {
      if root + cover <= root + r {
        PrefixCancel(root, cover, r);
      }
      MountedKeeps(sb, sp, spec, root + r);
    }
  }

  function Targets(mounts: seq<MountSpec>): set<Path> {
    set m | m in mounts :: Components(m.target)
  }

  lemma ParentedKeeps(sb: Superblock, sp: Space, rootfs: string, m: MountSpec)
    requires Rooted(sp.table) && Mounted(sb, sp, Parented(rootfs, m)).Some?
    ensures KeepsBelow(sp, Mounted(sb, sp, Parented(rootfs, m)).value, Components(rootfs), {Components(m.target)})
  {
    ComponentsAppend(rootfs, m.target);
    MountedKeepsBelow(sb, sp, Parented(rootfs, m), Components(rootfs), Components(m.target));
  }

  lemma KeepsOneMore(a: Space, b: Space, c: Space, root: Path, mounts: seq<MountSpec>, last: nat)
    requires |mounts| == last + 1
    requires KeepsBelow(a, b, root, Targets(mounts[..last]))
    requires KeepsBelow(b, c, root, {Components(mounts[last].target)})
    ensures KeepsBelow(a, c, root, Targets(mounts))
  {
    TargetsSnoc(mounts[..last], mounts[last]);
    assert mounts == mounts[..last] + [mounts[last]];
    KeepsMore(a, b, c, root, Targets(mounts[..last]), {Components(mounts[last].target)});
  }

  lemma UserMountedStep(sb: Superblock, sp: Space, rootfs: string, mounts: seq<MountSpec>, last: nat)
    requires Rooted(sp.table) && |mounts| == last + 1 && UserMounted(sb, sp, rootfs, mounts).Some?
    ensures UserMounted(sb, sp, rootfs, mounts[..last]).Some?
    ensures UserMounted(sb, sp, rootfs, mounts)
         == Mounted(sb, UserMounted(sb, sp, rootfs, mounts[..last]).value, Parented(rootfs, mounts[last]))
  {
  }

  lemma UserMountedSnoc(sb: Superblock, sp: Space, rootfs: string, mounts: seq<MountSpec>, last: nat)
    requires Rooted(sp.table) && |mounts| == last + 1 && UserMounted(sb, sp, rootfs, mounts[..last]).Some?
    ensures UserMounted(sb, sp, rootfs, mounts)
         == Mounted(sb, UserMounted(sb, sp, rootfs, mounts[..last]).value, Parented(rootfs, mounts[last]))
  {
  }

  lemma AppendedParts<T>(a: seq<T>, b: seq<T>)
    requires b != []
    ensures (a + b)[..|a + b| - 1] == a + b[..|b| - 1] && (a + b)[|a + b| - 1] == b[|b| - 1]
  {
  }

  lemma NothingAppended<T>(a: seq<T>)
    ensures a + [] == a
  {
  }

  lemma UserMountedOneLess(sb: Superblock, sp: Space, rootfs: string, a: seq<MountSpec>, b: seq<MountSpec>, after: Space)
    requires Rooted(sp.table) && b != [] && UserMounted(sb, sp, rootfs, a + b) == Some(after)
    ensures var done := UserMounted(sb, sp, rootfs, a + b[..|b| - 1]);
      done.Some? && Mounted(sb, done.value, Parented(rootfs, b[|b| - 1])) == Some(after)
  {
    AppendedParts(a, b);
    UserMountedStep(sb, sp, rootfs, a + b, |a + b| - 1);
  }

  /** A list of mounts is made in two parts. */
  lemma {:induction false} UserMountedAppend(sb: Superblock, sp: Space, rootfs: string, a: seq<MountSpec>,
                                             b: seq<MountSpec>, after: Space)
    requires Rooted(sp.table)
    ensures UserMounted(sb, sp, rootfs, a + b) == Some(after) ==>
      && UserMounted(sb, sp, rootfs, a).Some?
      && UserMounted(sb, UserMounted(sb, sp, rootfs, a).value, rootfs, b) == Some(after)
    decreases |b|
  {
    if UserMounted(sb, sp, rootfs, a + b) == Some(after) {
      if b == [] {
        NothingAppended(a);
      } else {
        UserMountedOneLess(sb, sp, rootfs, a, b, after);
        var done := UserMounted(sb, sp, rootfs, a + b[..|b| - 1]).value;
        UserMountedAppend(sb, sp, rootfs, a, b[..|b| - 1], done);
        UserMountedSnoc(sb, UserMounted(sb, sp, rootfs, a).value, rootfs, b, |b| - 1);
      }
    }
  }

  lemma {:induction false} UserMountedKeeps(sb: Superblock, sp: Space, rootfs: string, mounts: seq<MountSpec>, after: Space)
    requires Rooted(sp.table) && UserMounted(sb, sp, rootfs, mounts) == Some(after)
    ensures KeepsBelow(sp, after, Components(rootfs), Targets(mounts))
    decreases |mounts|
  {
    if mounts == [] {
      assert after == sp;
    } else {
      var last := |mounts| - 1;
      UserMountedStep(sb, sp, rootfs, mounts, last);
      var done := UserMounted(sb, sp, rootfs, mounts[..last]).value;
      UserMountedKeeps(sb, sp, rootfs, mounts[..last], done);
      ParentedKeeps(sb, done, rootfs, mounts[last]);
      KeepsOneMore(sp, done, after, Components(rootfs), mounts, last);
    }
  }

  lemma TargetsSnoc(front: seq<MountSpec>, m: MountSpec)
    ensures Targets(front + [m]) == Targets(front) + {Components(m.target)}
  {
    forall c | c in Targets(front + [m])
      ensures c in Targets(front) + {Components(m.target)}
    {
    }
    forall c | c in Targets(front) + {Components(m.target)}
      ensures c in Targets(front + [m])
    {
      if c == Components(m.target) {
        assert m in front + [m];
      } else {
        var n :| n in front && c == Components(n.target);
        assert n in front + [m];
      }
    }
  }

  const PROC: Path := ["proc"]

  lemma ProcTarget(rootfs: string)
    ensures Components(rootfs + "/proc") == Components(rootfs) + PROC
  {
    assert rootfs + "/proc" == rootfs + "/" + "proc";
    ComponentsAppend(rootfs, "proc");
    OneSegment("proc");
  }

  lemma FurnishedKeeps(sb: Superblock, sp: Space, req: FsRequest)
    requires Rooted(sp.table)
    ensures var r := Furnished(sb, sp, req);
      r.Some? ==> KeepsBelow(sp, r.value, Components(req.Root()), {PROC} + Targets(req.mounts.GetOr([])))
  {
    if Furnished(sb, sp, req).Some? {
      var root := req.Root();
      ProcTarget(root);
      MountedKeepsBelow(sb, sp, ProcMount(root), Components(root), PROC);
      var withProc := Mounted(sb, sp, ProcMount(root)).value;
      var withMounts := UserMounted(sb, withProc, root, req.mounts.GetOr([])).value;
      UserMountedKeeps(sb, withProc, root, req.mounts.GetOr([]), withMounts);
      KeepsMore(sp, withProc, withMounts, Components(root), {PROC}, Targets(req.mounts.GetOr([])));
    }
  }

  /** Where a path of one tree is a path of the other, on the same side of its submounts. */
  ghost predicate CopyAt(a: Space, src: Path, b: Space, dst: Path, r: Path)
    requires Rooted(a.table) && Rooted(b.table)
  {
    && SameSight(b.table, dst + r, a.table, src + r)
    && (OnOwnMount(b.table, dst, r) <==> OnOwnMount(a.table, src, r))
  }

  lemma TreeBindCopies(sb: Superblock, sp: Space, source: string, target: string, r: Path)
    requires Rooted(sp.table) && Mounted(sb, sp, TreeBind(source, target)).Some?
    ensures CopyAt(sp, Components(source), Mounted(sb, sp, TreeBind(source, target)).value, Components(target), r)
  {
    CopiesShow(sp.table, sp.table, Components(source), Components(target), r);
    CopiesOwn(sp.table, sp.table, Components(source), Components(target), r);
  }

  /** The seal reaches the paths on the root's own mount, not those on its submounts. */
  ghost predicate SealedAt(a: Space, b: Space, root: Path, seal: bool, r: Path)
    requires Rooted(a.table) && Rooted(b.table)
  {
    && Where(b, root + r) == Where(a, root + r)
    && Attrs(b, root + r) == Covered(seal && OnOwnMount(a.table, root, r), Attrs(a, root + r))
  }

  lemma SealRootEffect(sp: Space, spec: MountSpec, r: Path)
    requires Rooted(sp.table) && SealRoot(sp, spec).Some?
    ensures SealedAt(sp, SealRoot(sp, spec).value, Components(spec.source.value), true, r)
  {
    var root := Components(spec.source.value);
    MarkedShallow(sp.table, root, READ_ONLY, root + r);
  }

  lemma PrivateRootKeeps(sb: Superblock, sp: Space)
    requires Rooted(sp.table)
    ensures var r := Mounted(sb, sp, PRIVATE_ROOT); r.Some? ==> r.value == sp
  {
  }

  lemma StageMadeKeeps(sb: Superblock, sp: Space, req: FsRequest)
    requires Rooted(sp.table)
    ensures var r := StageMade(sb, sp, req);
      r.Some? ==> KeepsBelow(sp, r.value, [], {Components(req.StageBase())})
  {
    if StageMade(sb, sp, req).Some? {
      assert [] + Components(req.StageBase()) == Components(req.StageBase());
      MountedKeepsBelow(sb, sp, StageTmpfs(req.StageBase()), [], Components(req.StageBase()));
    }
  }

  /** The copy of the host's tree shows it, except for the staging area itself. */
  lemma StagedCopies(sb: Superblock, sp: Space, req: FsRequest, r: Path)
    requires Rooted(sp.table) && !(Components(req.StageBase()) <= r)
    ensures var staged := Staged(sb, sp, req);
      staged.Some? ==> CopyAt(sp, [], staged.value, Components(req.StageRoot()), r)
  {
    if Staged(sb, sp, req).Some? {
      var made := StageMade(sb, sp, req).value;
      StageMadeKeeps(sb, sp, req);
      assert Apart({Components(req.StageBase())}, r);
      assert Components("/") == [];
      TreeBindCopies(sb, made, "/", req.StageRoot(), r);
    }
  }

  lemma CopyTwice(a: Space, src: Path, b: Space, mid: Path, c: Space, dst: Path, r: Path)
    requires Rooted(a.table) && Rooted(b.table) && Rooted(c.table)
    requires CopyAt(a, src, b, mid, r) && CopyAt(b, mid, c, dst, r)
    ensures CopyAt(a, src, c, dst, r)
  {
  }

  /** The place of the host that the container's root shows. */
  function Source(req: FsRequest): Path {
    Components(req.rootfs.GetOr(""))
  }

  /** The container paths that show something else than the root file system. */
  function Covers(req: FsRequest): set<Path> {
    {PROC} + Targets(req.mounts.GetOr([]))
    + (if req.CopiesHostRoot() then {Components(req.StageBase())} else {})
  }

  /** A read-only root covers the paths on the root file system's own mount. */
  predicate RootCovers(sp: Space, req: FsRequest, r: Path)
    requires Rooted(sp.table)
  {
    req.rootfsReadonly.GetOr(false) && OnOwnMount(sp.table, Source(req), r)
  }

  lemma TreeBoundCopies(sb: Superblock, sp: Space, req: FsRequest, r: Path)
    requires Rooted(sp.table) && req.rootfs.Some? && TreeBound(sb, sp, req).Some?
    requires req.CopiesHostRoot() ==> !(Components(req.StageBase()) <= r)
    ensures CopyAt(sp, Source(req), TreeBound(sb, sp, req).value, Components(req.Root()), r)
  {
    var root := Components(req.Root());
    PrivateRootKeeps(sb, sp);
    if req.CopiesHostRoot() {
      StagedCopies(sb, sp, req, r);
      assert Components("/") == [];
      var staged := Staged(sb, sp, req).value;
      TreeBindCopies(sb, staged, req.Root(), req.Root(), r);
      CopyTwice(sp, [], staged, root, TreeBound(sb, sp, req).value, root, r);
    } else {
      TreeBindCopies(sb, sp, req.Root(), req.Root(), r);
    }
  }

  lemma RootBoundShows(sb: Superblock, sp: Space, req: FsRequest, r: Path)
    requires Rooted(sp.table) && req.rootfs.Some? && RootBound(sb, sp, req).Some?
    requires req.CopiesHostRoot() ==> !(Components(req.StageBase()) <= r)
    ensures var bound, root, src := RootBound(sb, sp, req).value, Components(req.Root()), Source(req);
      && Where(bound, root + r) == Where(sp, src + r)
      && Attrs(bound, root + r) == Covered(RootCovers(sp, req, r), Attrs(sp, src + r))
  {
    TreeBoundCopies(sb, sp, req, r);
    if req.rootfsReadonly.GetOr(false) {
      SealRootEffect(TreeBound(sb, sp, req).value, TreeBind(req.Root(), req.Root()), r);
    }
  }

  /** The assembled tree shows, away from /proc and the targets of the requested mounts, the
      root file system of the request, place by place; a read-only root covers the paths on
      the root's own mount and no submount. */
  lemma AssembledShows(sb: Superblock, sp: Space, req: FsRequest, r: Path)
    requires Rooted(sp.table) && Apart(Covers(req), r)
    ensures var before, root, src := Assembled(sb, sp, req), Components(req.Root()), Source(req);
      before.Some? ==>
      && Where(before.value, root + r) == Where(sp, src + r)
      && Attrs(before.value, root + r) == Covered(RootCovers(sp, req, r), Attrs(sp, src + r))
  {
    if Assembled(sb, sp, req).Some? {
      if req.CopiesHostRoot() {
        assert Components(req.StageBase()) in Covers(req);
      }
      RootBoundShows(sb, sp, req, r);
      FurnishedKeeps(sb, RootBound(sb, sp, req).value, req);
      assert Apart({PROC} + Targets(req.mounts.GetOr([])), r);
    }
  }

  lemma ProcMountShows(sb: Superblock, sp: Space, rootfs: string, r: Path)
    requires Rooted(sp.table)
    ensures var after, at := Mounted(sb, sp, ProcMount(rootfs)), Components(rootfs + "/proc");
      after.Some? ==> Where(after.value, at + r) == Loc(sp.nextFs, r) && Attrs(after.value, at + r) == MountAttrs(true, false)
  {
    if Mounted(sb, sp, ProcMount(rootfs)).Some? {
      MountedShows(sb, sp, ProcMount(rootfs), r);
    }
  }

  lemma ProcPath(rootfs: string, r: Path)
    ensures Components(rootfs) + (PROC + r) == Components(rootfs + "/proc") + r
  {
    ProcTarget(rootfs);
  }

  lemma FurnishedProc(sb: Superblock, sp: Space, req: FsRequest, r: Path)
    requires Rooted(sp.table) && Apart(Targets(req.mounts.GetOr([])), PROC + r)
    ensures var after, q := Furnished(sb, sp, req), Components(req.Root()) + (PROC + r);
      after.Some? ==> Where(after.value, q) == Loc(sp.nextFs, r) && Attrs(after.value, q) == MountAttrs(true, false)
  {
    var root := req.Root();
    var withProc := Mounted(sb, sp, ProcMount(root));
    ProcPath(root, r);
    ProcMountShows(sb, sp, root, r);
    if withProc.Some? {
      var withMounts := UserMounted(sb, withProc.value, root, req.mounts.GetOr([]));
      if withMounts.Some? {
        UserMountedKeeps(sb, withProc.value, root, req.mounts.GetOr([]), withMounts.value);
      }
    }
  }

  /** The container's /proc is a file system of its own, mounted nosuid, nodev and noexec, and
      shows at each path apart from the requested mounts its own place of that name. */
  lemma ProcOfContainer(sb: Superblock, sp: Space, req: FsRequest, r: Path)
    requires Rooted(sp.table) && Apart(Targets(req.mounts.GetOr([])), PROC + r)
    ensures var before, bound := Assembled(sb, sp, req), RootBound(sb, sp, req);
            var q := Components(req.Root()) + (PROC + r);
      before.Some? ==>
      && bound.Some?
      && Where(before.value, q) == Loc(bound.value.nextFs, r)
      && Attrs(before.value, q) == MountAttrs(true, false)
  {
    if Assembled(sb, sp, req).Some? {
      FurnishedProc(sb, RootBound(sb, sp, req).value, req, r);
    }
  }

  // ----- staging, and what becomes of mount data -----

  /** A root of "/" could not be pivoted to as it is; the staging area it is copied to can. */
  lemma StagingIsNeeded(sp: Space, req: FsRequest)
    requires Rooted(sp.table) && req.CopiesHostRoot()
    ensures PivotCall(sp, "/").None?
    ensures Components(req.Root()) != [] && Components(req.StageBase()) < Components(req.Root())
  {
    assert Components("/") == [];
    assert req.StageRoot() == req.StageBase() + "/" + "root";
    ComponentsAppend(req.StageBase(), "root");
    OneSegment("root");
  }

  /** The mount data of a request has no effect, although a `MountSpec` is meant to carry it:
      lists that differ in their data alone mount the same. */
  lemma {:induction false} MountDataIsLost(sb: Superblock, sp: Space, rootfs: string, a: seq<MountSpec>, b: seq<MountSpec>)
    requires Rooted(sp.table) && |a| == |b|
    requires forall i :: 0 <= i < |a| ==> a[i].(data := None) == b[i].(data := None)
    ensures UserMounted(sb, sp, rootfs, a) == UserMounted(sb, sp, rootfs, b)
    decreases |a|
  {
    if a != [] {
      var last := |a| - 1;
      MountDataIsLost(sb, sp, rootfs, a[..last], b[..last]);
      SameParented(rootfs, a[last], b[last]);
    }
  }

  lemma SameParented(rootfs: string, m: MountSpec, n: MountSpec)
    requires m.(data := None) == n.(data := None)
    ensures Parented(rootfs, m) == Parented(rootfs, n)
  {
  }

  /** A directory of the request is made inside the container's tree exactly if its target is
      not absolute; an absolute one replaces the root and names a place of the host. */
  lemma MutationInsideIff(rootfs: string, target: string)
    ensures Components(Pushed(rootfs, target)) == Components(rootfs) + Components(target)
      <==> target == [] || target[0] != '/' || Components(rootfs) == []
  {
    ComponentsAppend(rootfs, target);
    if target != [] && target[0] == '/' && Components(Pushed(rootfs, target)) == Components(rootfs) + Components(target) {
      assert |Components(target)| == |Components(rootfs) + Components(target)|;
    }
  }
}
