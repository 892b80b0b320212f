/** When `pivot_fs` (src/wrap.rs) can assemble a tree to which the request adds no mounts and
    no directories. */
module PlainTrees {
  import opened Wrappers
  import opened Paths
  import opened MountTable
  import opened Hardening
  import opened MountCalls
  import opened PivotFs
  import opened StableNodes

  /** Whether the kernel mounts procfs for this process at all: in a new user namespace only
      together with a new pid namespace. */
  predicate ProcMountable(sb: Superblock) {
    sb(Some("proc"), "proc", None).Some?
  }

  /** Whether directories can be made in a new tmpfs: not by a process whose own ids its user
      namespace does not map. */
  predicate TmpfsUsable(sb: Superblock)
    requires Realistic(sb)
  {
    !sb(Some("tmpfs"), "tmpfs", None).value.fixed
  }

  /** A mount of procfs on a directory is refused for no other reason. */
  lemma ProcAccepted(sb: Superblock, sp: Space, rootfs: string)
    requires Realistic(sb) && Sane(sp)
    ensures Mounted(sb, sp, ProcMount(rootfs)).Some? <==>
      StatAt(sp, Components(rootfs) + PROC) == Exists(Dir) && ProcMountable(sb)
  {
    ProcTarget(rootfs);
    if StatAt(sp, Components(rootfs) + PROC) == Exists(Dir) && ProcMountable(sb) {
      AttachedStat(sb, sp, ProcMount(rootfs), Components(rootfs) + PROC);
      AttachedTop(sb, sp, ProcMount(rootfs));
    }
  }

  lemma SelfBindAccepted(sb: Superblock, sp: Space, root: string, q: Path)
    requires Rooted(sp.table)
    ensures var r := Mounted(sb, sp, TreeBind(root, root));
      && (r.Some? <==> StatAt(sp, Components(root)).Exists?)
      && (r.Some? ==> StatAt(r.value, q) == StatAt(sp, q) && Top(r.value.table, Components(root)).at == Components(root))
  {
    var p := Components(root);
    if StatAt(sp, p).Exists? {
      var bound := Mounted(sb, sp, TreeBind(root, root)).value;
      forall r: Path
        ensures Where(bound, r) == Where(sp, r)
      {
        SelfBindShows(sp.table, p, r);
      }
      SameLookup(bound, sp, q);
      SelfBindTop(sp.table, p);
    }
  }

  lemma SealRootAccepted(sp: Space, root: string, q: Path)
    requires Rooted(sp.table) && Top(sp.table, Components(root)).at == Components(root)
    requires StatAt(sp, Components(root)).Exists?
    ensures var r := SealRoot(sp, TreeBind(root, root)); r.Some? && StatAt(r.value, q) == StatAt(sp, q)
  {
    var sealed := SealRoot(sp, TreeBind(root, root)).value;
    forall r: Path
      ensures Where(sealed, r) == Where(sp, r)
    {
      MarkedShallow(sp.table, Components(root), READ_ONLY, r);
    }
    SameLookup(sealed, sp, q);
  }

  lemma RootBoundAccepted(sb: Superblock, sp: Space, req: FsRequest, q: Path)
    requires Rooted(sp.table) && !req.CopiesHostRoot()
    ensures var r := RootBound(sb, sp, req);
      && (r.Some? <==> StatAt(sp, []).Exists? && StatAt(sp, Components(req.Root())).Exists?)
      && (r.Some? ==> StatAt(r.value, q) == StatAt(sp, q))
  {
    var root := req.Root();
    PrivateRootAccepted(sb, sp);
    SelfBindAccepted(sb, sp, root, q);
    SelfBindAccepted(sb, sp, root, Components(root));
    var bound := Mounted(sb, sp, TreeBind(root, root));
    if bound.Some? && req.rootfsReadonly.GetOr(false) {
      SealRootAccepted(bound.value, root, q);
    }
  }

  lemma PrivateRootAccepted(sb: Superblock, sp: Space)
    requires Rooted(sp.table)
    ensures Mounted(sb, sp, PRIVATE_ROOT) == if StatAt(sp, []).Exists? then Some(sp) else None
  {
    assert Components("/") == [];
  }

  /** A root file system other than the host's, without further mounts and directories, can be
      assembled exactly if it has a directory for /proc, read-only or not, and procfs can be
      mounted. */
  lemma PlainTreeIff(sb: Superblock, sp: Space, req: FsRequest)
    requires Realistic(sb) && Sane(sp) && req.rootfs.Some? && !req.CopiesHostRoot()
    requires req.mounts.GetOr([]) == [] && req.mutations.GetOr([]) == []
    ensures Assembled(sb, sp, req).Some? <==>
      StatAt(sp, Source(req) + PROC) == Exists(Dir) && ProcMountable(sb)
  {
    var root := Components(req.Root());
    RootBoundAccepted(sb, sp, req, root + PROC);
    if StatAt(sp, root + PROC) == Exists(Dir) {
      assert root < root + PROC && [] < root + PROC;
      WayIsDirs(sp, root, root + PROC);
      WayIsDirs(sp, [], root + PROC);
    }
    var bound := RootBound(sb, sp, req);
    if bound.Some? {
      RootBoundRoot(sb, sp, req);
      ProcAccepted(sb, bound.value, req.Root());
    }
  }

  // ----- the host's own root -----

  lemma {:induction false} CreateDirAllNeedsRoot(sp: Space, q: Path)
    requires Rooted(sp.table) && CreateDirAll(sp, q).Some?
    ensures StatAt(sp, []) == Exists(Dir)
    decreases |q|
  {
    if q != [] {
      if StatAt(sp, q) == Exists(Dir) {
        WayIsDirs(sp, [], q);
      } else {
        CreateDirAllNeedsRoot(sp, q[..|q| - 1]);
      }
    }
  }

  lemma StageBaseIs(req: FsRequest)
    ensures Components(req.StageBase()) != [] && Components(req.StageBase())[0] == "tmp"
  {
    var tail := "styrolite-stage-" + req.identity;
    assert req.StageBase() == "/tmp" + "/" + tail;
    ComponentsAppend("/tmp", tail);
    TmpPath();
  }

  lemma TmpPath()
    ensures Components("/tmp") == ["tmp"]
  {
    OneSegment("tmp");
    assert "/tmp"[1..] == "tmp";
  }

  lemma StageDirsAre(req: FsRequest)
    ensures Components(req.StageRoot()) == Components(req.StageBase()) + ["root"]
    ensures Components(req.StageOld()) == Components(req.StageBase()) + ["old"]
  {
    assert req.StageRoot() == req.StageBase() + "/" + "root" && req.StageOld() == req.StageBase() + "/" + "old";
    ComponentsAppend(req.StageBase(), "root");
    ComponentsAppend(req.StageBase(), "old");
    OneSegment("root");
    OneSegment("old");
  }

  /** The two states have the same nodes in the file systems numbered below `n`. */
  ghost predicate SameBelow(a: Space, b: Space, n: nat) {
    forall l: Loc :: l.fs < n ==> (l in b.nodes <==> l in a.nodes) && (l in a.nodes ==> b.nodes[l] == a.nodes[l])
  }

  lemma {:induction false} SameStatBelow(a: Space, b: Space, n: nat, q: Path)
    requires Rooted(a.table) && Rooted(b.table) && SameBelow(a, b, n)
    requires forall p: Path :: p <= q ==> Where(b, p) == Where(a, p) && Where(a, p).fs < n
    ensures StatAt(b, q) == StatAt(a, q)
    decreases |q|
  {
    assert Where(b, q) == Where(a, q);
    if q != [] {
      SameStatBelow(a, b, n, q[..|q| - 1]);
    }
  }

  /** A fresh tmpfs on `base`, in which everything can be made or nothing. */
  ghost predicate FreshAt(made: Space, sp: Space, base: Path, fixed: bool) {
    && Sane(made) && Sane(sp) && made.nextFs < sp.nextFs && (made.nextFs in sp.fixed <==> fixed)
    && StatAt(sp, base) == Exists(Dir)
    && SameBelow(made, sp, made.nextFs)
  }

  ghost predicate FreshBelow(made: Space, sp: Space, base: Path, r: Path)
    requires Rooted(sp.table)
  {
    Where(sp, base + r) == Loc(made.nextFs, r) && Attrs(sp, base + r) == MountAttrs(true, false)
  }

  lemma EmptyMountFresh(made: Space, base: Path, fixed: bool)
    requires Sane(made)
    ensures var r := NewMount(made, base, Filesystem(EMPTY_TREE, fixed), false);
      && r.nodes.Keys == made.nodes.Keys + {Loc(made.nextFs, [])}
      && made.nextFs < r.nextFs && (made.nextFs in r.fixed <==> fixed)
      && SameBelow(made, r, made.nextFs)
  {
    EmptyTree(made, EMPTY_TREE);
  }

  lemma StageTmpfsAttached(sb: Superblock, made: Space, req: FsRequest)
    requires Realistic(sb) && Sane(made) && StatAt(made, Components(req.StageBase())) == Exists(Dir)
    ensures var base, attached := Components(req.StageBase()), Attached(sb, made, StageTmpfs(req.StageBase()));
      && attached.Some? && FreshAt(made, attached.value, base, !TmpfsUsable(sb))
      && attached.value.nodes.Keys == made.nodes.Keys + {Loc(made.nextFs, [])}
      && Top(attached.value.table, base).at == base
  {
    var base, spec := Components(req.StageBase()), StageTmpfs(req.StageBase());
    var fixed := !TmpfsUsable(sb);
    assert sb(Some("tmpfs"), "tmpfs", None) == Some(Filesystem(EMPTY_TREE, fixed));
    assert Attached(sb, made, spec) == Some(NewMount(made, base, Filesystem(EMPTY_TREE, fixed), false));
    EmptyMountFresh(made, base, fixed);
    AttachedStat(sb, made, spec, base);
    AttachedTop(sb, made, spec);
    AttachedSane(sb, made, spec);
  }

  lemma StageTmpfsAccepted(sb: Superblock, sp: Space, req: FsRequest, made: Space)
    requires Realistic(sb) && Sane(sp) && CreateDirAll(sp, Components(req.StageBase())) == Some(made)
    ensures var r := Mounted(sb, sp, StageTmpfs(req.StageBase()));
      && r.Some? && FreshAt(made, r.value, Components(req.StageBase()), !TmpfsUsable(sb))
      && r.value.nodes.Keys == made.nodes.Keys + {Loc(made.nextFs, [])}
  {
    var base, spec := Components(req.StageBase()), StageTmpfs(req.StageBase());
    CreateDirAllMakes(sp, base);
    assert WithMountpoint(sp, spec) == Some(made);
    StageTmpfsAttached(sb, made, req);
    var attached := Attached(sb, made, spec).value;
    SetattrCallSane(attached, req.StageBase(), false, MountAttrs(true, false));
    AttributedStat(attached, spec, base);
  }

  lemma StageTmpfsShows(sb: Superblock, sp: Space, req: FsRequest, made: Space, r: Path)
    requires Realistic(sb) && Sane(sp) && CreateDirAll(sp, Components(req.StageBase())) == Some(made)
    ensures var mounted := Mounted(sb, sp, StageTmpfs(req.StageBase()));
      mounted.Some? ==> FreshBelow(made, mounted.value, Components(req.StageBase()), r)
  {
    CreateDirAllMakes(sp, Components(req.StageBase()));
    CreateDirAllNumber(sp, Components(req.StageBase()));
    if Mounted(sb, sp, StageTmpfs(req.StageBase())).Some? {
      MountedShows(sb, sp, StageTmpfs(req.StageBase()), r);
    }
  }

  /** A directory of a fresh file system can be made unless its name is taken by a file. */
  lemma ChildMade(made: Space, sp: Space, base: Path, name: string)
    requires FreshAt(made, sp, base, false) && FreshBelow(made, sp, base, [name])
    requires Loc(made.nextFs, [name]) !in sp.nodes
    ensures var r := CreateDirAll(sp, base + [name]);
      && r.Some? && FreshAt(made, r.value, base, false) && r.value.table == sp.table
      && r.value.nodes.Keys == sp.nodes.Keys + {Loc(made.nextFs, [name])}
      && StatAt(r.value, base + [name]) == Exists(Dir)
  {
    var q := base + [name];
    assert q[..|q| - 1] == base;
    assert StatAt(sp, q) == NotFound;
    assert CreateDirAll(sp, base) == Some(sp);
    MakeNodeGrows(sp, q, Dir);
    KindStays(sp, MakeNode(sp, q, Dir).value, base);
  }

  lemma ChildRefused(made: Space, sp: Space, base: Path, name: string)
    requires FreshAt(made, sp, base, true) && FreshBelow(made, sp, base, [name])
    requires Loc(made.nextFs, [name]) !in sp.nodes
    ensures CreateDirAll(sp, base + [name]).None?
  {
    var q := base + [name];
    assert q[..|q| - 1] == base;
    assert StatAt(sp, q) == NotFound;
    assert CreateDirAll(sp, base) == Some(sp);
  }

  /** Both directories of the staging area can be made in it. */
  lemma StageDirsMade(made: Space, mounted: Space, base: Path)
    requires FreshAt(made, mounted, base, false) && FreshBelow(made, mounted, base, ["root"]) && FreshBelow(made, mounted, base, ["old"])
    requires Loc(made.nextFs, ["root"]) !in mounted.nodes && Loc(made.nextFs, ["old"]) !in mounted.nodes
    ensures var rooted := CreateDirAll(mounted, base + ["root"]);
      && rooted.Some? && Rooted(rooted.value.table)
      && var olded := CreateDirAll(rooted.value, base + ["old"]);
         && olded.Some? && FreshAt(made, olded.value, base, false)
         && StatAt(olded.value, base + ["root"]).Exists?
  {
    ChildMade(made, mounted, base, "root");
    var rooted := CreateDirAll(mounted, base + ["root"]).value;
    ChildMade(made, rooted, base, "old");
    CreateDirAllMakes(rooted, base + ["old"]);
    KindStays(rooted, CreateDirAll(rooted, base + ["old"]).value, base + ["root"]);
  }

  lemma StageMadeAccepted(sb: Superblock, sp: Space, req: FsRequest, made: Space)
    requires Realistic(sb) && Sane(sp) && CreateDirAll(sp, Components(req.StageBase())) == Some(made) && TmpfsUsable(sb)
    ensures var r := StageMade(sb, sp, req);
      && r.Some? && FreshAt(made, r.value, Components(req.StageBase()), false)
      && StatAt(r.value, Components(req.StageRoot())).Exists?
  {
    StageDirsAre(req);
    StageTmpfsAccepted(sb, sp, req, made);
    StageTmpfsShows(sb, sp, req, made, ["root"]);
    StageTmpfsShows(sb, sp, req, made, ["old"]);
    CreateDirAllMakes(sp, Components(req.StageBase()));
    StageDirsMade(made, Mounted(sb, sp, StageTmpfs(req.StageBase())).value, Components(req.StageBase()));
  }

  lemma StageMadeRefused(sb: Superblock, sp: Space, req: FsRequest, made: Space)
    requires Realistic(sb) && Sane(sp) && CreateDirAll(sp, Components(req.StageBase())) == Some(made) && !TmpfsUsable(sb)
    ensures StageMade(sb, sp, req).None?
  {
    StageDirsAre(req);
    StageTmpfsAccepted(sb, sp, req, made);
    StageTmpfsShows(sb, sp, req, made, ["root"]);
    CreateDirAllMakes(sp, Components(req.StageBase()));
    ChildRefused(made, Mounted(sb, sp, StageTmpfs(req.StageBase())).value, Components(req.StageBase()), "root");
  }

  /** The staging area can be made exactly if its directory can and directories can be made in a
      new tmpfs. */
  lemma StageMadeIff(sb: Superblock, sp: Space, req: FsRequest)
    requires Realistic(sb) && Sane(sp)
    ensures StageMade(sb, sp, req).Some? <==>
      CreateDirAll(sp, Components(req.StageBase())).Some? && TmpfsUsable(sb)
  {
    var made := CreateDirAll(sp, Components(req.StageBase()));
    if made.Some? {
      if TmpfsUsable(sb) {
        StageMadeAccepted(sb, sp, req, made.value);
      } else {
        StageMadeRefused(sb, sp, req, made.value);
      }
    }
  }

  /** Outside the staging area nothing is added or lost with it. */
  lemma StageMadeStat(sb: Superblock, sp: Space, req: FsRequest, made: Space, q: Path)
    requires Realistic(sb) && Sane(sp) && CreateDirAll(sp, Components(req.StageBase())) == Some(made) && TmpfsUsable(sb)
    requires !(Components(req.StageBase()) <= q)
    ensures var r := StageMade(sb, sp, req); r.Some? && StatAt(r.value, q) == StatAt(made, q)
  {
    StageMadeAccepted(sb, sp, req, made);
    CreateDirAllMakes(sp, Components(req.StageBase()));
    var staged := StageMade(sb, sp, req).value;
    forall p: Path | p <= q
      ensures Where(staged, p) == Where(made, p) && Where(made, p).fs < made.nextFs
    {
      StageMadeTop(sb, sp, req, p, q);
      assert Top(made.table, p) in made.table;
    }
    SameStatBelow(made, staged, made.nextFs, q);
  }

  lemma StageMadeTop(sb: Superblock, sp: Space, req: FsRequest, p: Path, q: Path)
    requires Rooted(sp.table) && p <= q && !(Components(req.StageBase()) <= q)
    ensures var r := StageMade(sb, sp, req); r.Some? ==> Top(r.value.table, p) == Top(sp.table, p)
  {
    assert Components(req.StageBase()) <= p ==> Components(req.StageBase()) <= q;
    MountedKeeps(sb, sp, StageTmpfs(req.StageBase()), p);
  }

  lemma StagedAccepted(sb: Superblock, sp: Space, req: FsRequest)
    requires Realistic(sb) && Sane(sp) && StatAt(sp, []) == Exists(Dir)
    ensures Staged(sb, sp, req).Some? <==> CreateDirAll(sp, Components(req.StageBase())).Some? && TmpfsUsable(sb)
    ensures Staged(sb, sp, req).Some? ==>
      StatAt(Staged(sb, sp, req).value, Components(req.StageRoot())) == Exists(Dir)
  {
    var made := CreateDirAll(sp, Components(req.StageBase()));
    StageMadeIff(sb, sp, req);
    if made.Some? && TmpfsUsable(sb) {
      var area := StageMade(sb, sp, req).value;
      StageMadeAccepted(sb, sp, req, made.value);
      StageBaseIs(req);
      CreateDirAllMakes(sp, Components(req.StageBase()));
      KindStays(sp, made.value, []);
      StageMadeStat(sb, sp, req, made.value, []);
      assert Components("/") == [];
      StageRootIsDir(sb, sp, req, made.value);
      AttachedStat(sb, area, TreeBind("/", req.StageRoot()), Components(req.StageRoot()));
    }
  }

  lemma StageRootIsDir(sb: Superblock, sp: Space, req: FsRequest, made: Space)
    requires Realistic(sb) && Sane(sp) && CreateDirAll(sp, Components(req.StageBase())) == Some(made) && TmpfsUsable(sb)
    ensures var r := StageMade(sb, sp, req);
      r.Some? ==> Sane(r.value) && StatAt(r.value, Components(req.StageRoot())) == Exists(Dir)
  {
    StageMadeAccepted(sb, sp, req, made);
    var mounted := Mounted(sb, sp, StageTmpfs(req.StageBase())).value;
    MountedSane(sb, sp, StageTmpfs(req.StageBase()));
    CreateDirAllMakes(mounted, Components(req.StageRoot()));
    var rooted := CreateDirAll(mounted, Components(req.StageRoot())).value;
    CreateDirAllMakes(rooted, Components(req.StageOld()));
    KindStays(rooted, StageMade(sb, sp, req).value, Components(req.StageRoot()));
  }

  /** The copy of the host's tree has a directory where the host has one. */
  lemma StagedProc(sb: Superblock, sp: Space, req: FsRequest, made: Space)
    requires Realistic(sb) && Sane(sp) && CreateDirAll(sp, Components(req.StageBase())) == Some(made) && TmpfsUsable(sb)
    requires Staged(sb, sp, req).Some?
    requires StatAt(Staged(sb, sp, req).value, Components(req.StageRoot())) == Exists(Dir)
    ensures StatAt(Staged(sb, sp, req).value, Components(req.StageRoot()) + PROC) == Exists(Dir)
      <==> StatAt(made, PROC) == Exists(Dir)
  {
    var area, staged, root := StageMade(sb, sp, req).value, Staged(sb, sp, req).value, Components(req.StageRoot());
    StageBaseIs(req);
    assert !(Components(req.StageBase()) <= PROC);
    StageMadeStat(sb, sp, req, made, PROC);
    StageMadeStat(sb, sp, req, made, []);
    assert Components("/") == [];
    forall t: Path
      ensures Where(staged, root + t) == Where(area, [] + t)
    {
      TreeBindCopies(sb, area, "/", req.StageRoot(), t);
    }
    assert [] + PROC == PROC;
    if StatAt(area, PROC) == Exists(Dir) {
      CarriedOver(area, [], staged, root, PROC);
    }
    if StatAt(staged, root + PROC) == Exists(Dir) {
      CarriedOver(staged, root, area, [], PROC);
    }
  }

  lemma StagedSane(sb: Superblock, sp: Space, req: FsRequest)
    requires Sane(sp)
    ensures var r := Staged(sb, sp, req); r.Some? ==> Sane(r.value)
  {
    StageMadeSane(sb, sp, req);
    if StageMade(sb, sp, req).Some? {
      MountedSane(sb, StageMade(sb, sp, req).value, TreeBind("/", req.StageRoot()));
    }
  }

  /** The host's own tree, without further mounts and directories, can be assembled exactly if
      the directory of the staging area can be made, directories can be made in a new tmpfs,
      there is a directory for /proc then, and procfs can be mounted. */
  lemma PlainHostTreeIff(sb: Superblock, sp: Space, req: FsRequest)
    requires Realistic(sb) && Sane(sp) && req.CopiesHostRoot()
    requires req.mounts.GetOr([]) == [] && req.mutations.GetOr([]) == []
    ensures var made := CreateDirAll(sp, Components(req.StageBase()));
      Assembled(sb, sp, req).Some? <==>
      made.Some? && TmpfsUsable(sb) && StatAt(made.value, PROC) == Exists(Dir) && ProcMountable(sb)
  {
    var made, staged := CreateDirAll(sp, Components(req.StageBase())), Staged(sb, sp, req);
    PrivateRootAccepted(sb, sp);
    if made.Some? && TmpfsUsable(sb) {
      CreateDirAllNeedsRoot(sp, Components(req.StageBase()));
      StagedAccepted(sb, sp, req);
      StagedProc(sb, sp, req, made.value);
      StagedSane(sb, sp, req);
      BoundOnward(sb, staged.value, req);
      assert TreeBound(sb, sp, req) == Mounted(sb, staged.value, TreeBind(req.Root(), req.Root()));
    } else {
      StageMadeIff(sb, sp, req);
      assert StageMade(sb, sp, req).None?;
    }
  }

  /** From a root that is a directory the rest depends on the directory for /proc and on procfs. */
  lemma BoundOnward(sb: Superblock, staged: Space, req: FsRequest)
    requires Realistic(sb) && Sane(staged) && StatAt(staged, Components(req.Root())) == Exists(Dir)
    requires req.mounts.GetOr([]) == [] && req.mutations.GetOr([]) == []
    ensures var bound := Mounted(sb, staged, TreeBind(req.Root(), req.Root()));
      && bound.Some?
      && var sealed := if req.rootfsReadonly.GetOr(false)
                       then SealRoot(bound.value, TreeBind(req.Root(), req.Root())) else bound;
         && sealed.Some?
         && (Furnished(sb, sealed.value, req).Some? <==>
             StatAt(staged, Components(req.Root()) + PROC) == Exists(Dir) && ProcMountable(sb))
  {
    var root := Components(req.Root());
    SelfBindAccepted(sb, staged, req.Root(), root + PROC);
    SelfBindAccepted(sb, staged, req.Root(), root);
    MountedSane(sb, staged, TreeBind(req.Root(), req.Root()));
    var bound := Mounted(sb, staged, TreeBind(req.Root(), req.Root())).value;
    if req.rootfsReadonly.GetOr(false) {
      SealRootAccepted(bound, req.Root(), root + PROC);
      SetattrCallSane(bound, req.Root(), false, READ_ONLY);
      ProcAccepted(sb, SealRoot(bound, TreeBind(req.Root(), req.Root())).value, req.Root());
    } else {
      ProcAccepted(sb, bound, req.Root());
    }
  }
}
