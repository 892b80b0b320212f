/** When a mount succeeds (`MountSpec::mount`, src/mount.rs; the mounts of a request in `pivot_fs`,
    src/wrap.rs), in terms of what is at its source and its target before. */
module MountAcceptance {
  import opened Wrappers
  import opened Paths
  import opened MountTable
  import opened Hardening
  import opened MountCalls
  import opened PivotFs
  import opened StableNodes
  import opened TreeView

  /** A directory or file can be made at a path of an existing directory. */
  predicate Creatable(sp: Space, q: Path)
    requires Rooted(sp.table)
  {
    !Attrs(sp, q).readOnly && Where(sp, q).fs !in sp.fixed
  }

  // ----- directories with their parents -----

  /** There is a root; what is missing on the way to a path is nowhere in the file systems, and no
      two missing directories are the same place. */
  ghost predicate NoStrays(sp: Space, q: Path)
    requires Rooted(sp.table)
  {
    && StatAt(sp, []).Exists?
    && (forall p: Path :: p <= q && StatAt(sp, p) == NotFound ==> Where(sp, p) !in sp.nodes)
    && (forall p: Path, r: Path :: p < r && r <= q && StatAt(sp, p) == NotFound ==> Where(sp, p) != Where(sp, r))
  }

  predicate Free(sp: Space, p: Path)
    requires Rooted(sp.table)
  {
    StatAt(sp, p) == Exists(Dir) || (StatAt(sp, p) == NotFound && Creatable(sp, p))
  }

  ghost predicate WayFree(sp: Space, q: Path)
    requires Rooted(sp.table)
  {
    forall p: Path :: p <= q ==> Free(sp, p)
  }

  lemma ParentBelow(q: Path)
    requires q != []
    ensures q[..|q| - 1] < q
  {
  }

  lemma NoStraysAbove(sp: Space, q: Path)
    requires Rooted(sp.table) && q != [] && NoStrays(sp, q)
    ensures NoStrays(sp, q[..|q| - 1])
  {
  }

  lemma WayFreeAbove(sp: Space, q: Path)
    requires Rooted(sp.table) && q != []
    ensures WayFree(sp, q) <==> WayFree(sp, q[..|q| - 1]) && Free(sp, q)
  {
    assert q <= q;
    if WayFree(sp, q[..|q| - 1]) && Free(sp, q) {
      forall p: Path | p <= q
        ensures Free(sp, p)
      {
        assert p == q || p <= q[..|q| - 1];
      }
    }
  }

  /** What a chain of new directories adds. */
  ghost predicate AddsWay(sp: Space, made: Space, q: Path)
    requires Rooted(sp.table)
  {
    && made == sp.(nodes := made.nodes)
    && forall l :: l in made.nodes && l !in sp.nodes ==> exists p: Path :: p <= q && StatAt(sp, p) == NotFound && l == Where(sp, p)
  }

  lemma ExistingWay(sp: Space, q: Path)
    requires Rooted(sp.table) && StatAt(sp, q) == Exists(Dir)
    ensures WayFree(sp, q)
  {
    forall p: Path | p <= q
      ensures Free(sp, p)
    {
      if p != q {
        WayIsDirs(sp, p, q);
      }
    }
  }

  /** With its parent made, a missing path is still missing. */
  lemma StillMissing(sp: Space, made: Space, q: Path)
    requires Rooted(sp.table) && q != [] && NoStrays(sp, q) && AddsWay(sp, made, q[..|q| - 1])
    requires StatAt(made, q[..|q| - 1]) == Exists(Dir) && StatAt(sp, q) == NotFound
    ensures StatAt(made, q) == NotFound
  {
    ParentBelow(q);
    assert forall p: Path :: p <= q[..|q| - 1] && StatAt(sp, p) == NotFound ==> p < q;
    assert Where(sp, q) !in made.nodes;
  }

  /** A directory is there afterwards, with its parents, exactly if everything on the way is a
      directory already or missing where one can be made. */
  lemma {:induction false} CreateDirAllIff(sp: Space, q: Path)
    requires Sane(sp) && NoStrays(sp, q)
    ensures CreateDirAll(sp, q).Some? <==> WayFree(sp, q)
    ensures CreateDirAll(sp, q).Some? ==> AddsWay(sp, CreateDirAll(sp, q).value, q)
    decreases |q|
  {
    if StatAt(sp, q) == Exists(Dir) {
      ExistingWay(sp, q);
    } else if q != [] {
      var parent := q[..|q| - 1];
      NoStraysAbove(sp, q);
      CreateDirAllIff(sp, parent);
      WayFreeAbove(sp, q);
      var made := CreateDirAll(sp, parent);
      if made.Some? && StatAt(sp, q) == NotFound {
        CreateDirAllMakes(sp, parent);
        StillMissing(sp, made.value, q);
        OneMoreDir(sp, made.value, q);
      } else if StatAt(sp, q) == NotDirectory {
        NotDirectoryBlocks(sp, q);
      }
    } else {
      assert q <= q && !Free(sp, q);
    }
  }

  lemma NotDirectoryBlocks(sp: Space, q: Path)
    requires Rooted(sp.table) && q != [] && StatAt(sp, q) == NotDirectory
    ensures !WayFree(sp, q[..|q| - 1])
  {
    assert q[..|q| - 1] <= q[..|q| - 1] && !Free(sp, q[..|q| - 1]);
  }

  lemma OneMoreDir(sp: Space, made: Space, q: Path)
    requires Rooted(sp.table) && q != [] && AddsWay(sp, made, q[..|q| - 1]) && StatAt(sp, q) == NotFound
    requires StatAt(made, q) == NotFound
    ensures MakeNode(made, q, Dir).Some? <==> Creatable(sp, q)
    ensures MakeNode(made, q, Dir).Some? ==> AddsWay(sp, MakeNode(made, q, Dir).value, q)
  {
    var r := MakeNode(made, q, Dir);
    if r.Some? {
      forall l | l in r.value.nodes && l !in sp.nodes
        ensures exists p: Path :: p <= q && StatAt(sp, p) == NotFound && l == Where(sp, p)
      {
        if l == Where(sp, q) {
          assert q <= q;
        } else {
          var p: Path :| p <= q[..|q| - 1] && StatAt(sp, p) == NotFound && l == Where(sp, p);
          assert p <= q;
        }
      }
    }
  }

  // ----- one mount -----

  /** A node of a kind can be mounted on at a path of an existing directory: it is there, or it may
      be made and can be. An existing file is opened for writing first, if it may be made. */
  predicate Receives(sp: Space, at: Path, kind: Kind, make: bool)
    requires Rooted(sp.table)
  {
    || (StatAt(sp, at) == Exists(kind) && (make && kind == File ==> !Attrs(sp, at).readOnly))
    || (make && StatAt(sp, at) == NotFound && Creatable(sp, at))
  }

  lemma ReadyIff(sp: Space, spec: MountSpec, kind: Kind)
    requires Sane(sp) && Components(spec.target) != []
    requires var at := Components(spec.target); StatAt(sp, at[..|at| - 1]) == Exists(Dir)
    requires kind == MountpointKind(sp, spec)
    ensures var at, ready := Components(spec.target), WithMountpoint(sp, spec);
      Receives(sp, at, kind, spec.createMountpoint) <==> ready.Some? && StatAt(ready.value, at) == Exists(kind)
  {
    var at := Components(spec.target);
    var parent := at[..|at| - 1];
    assert CreateDirAll(sp, parent) == Some(sp);
    if WithMountpoint(sp, spec).Some? {
      WithMountpointMakes(sp, spec);
    }
  }

  /** Attributes are never refused on what was just attached. */
  lemma AttachedMounted(sb: Superblock, sp: Space, spec: MountSpec)
    requires Sane(sp) && Realistic(sb) && WithMountpoint(sp, spec).Some?
    ensures Mounted(sb, sp, spec).Some? <==> Attached(sb, WithMountpoint(sp, spec).value, spec).Some?
  {
    var ready := WithMountpoint(sp, spec).value;
    WithMountpointMakes(sp, spec);
    if Attached(sb, ready, spec).Some? {
      AttachedTop(sb, ready, spec);
      AttachedStat(sb, ready, spec, Components(spec.target));
    }
  }

  /** The source of a bind is what it was when the mountpoint has been made. */
  lemma SourceStays(sp: Space, spec: MountSpec)
    requires Sane(sp) && spec.source.Some? && StatAt(sp, Components(spec.source.value)).Exists? && WithMountpoint(sp, spec).Some?
    ensures var ready := WithMountpoint(sp, spec).value;
      && Sane(ready) && ready.table == sp.table
      && StatAt(ready, Components(spec.source.value)) == StatAt(sp, Components(spec.source.value))
  {
    WithMountpointMakes(sp, spec);
    KindStays(sp, WithMountpoint(sp, spec).value, Components(spec.source.value));
  }

  /** A bind of something that exists, onto a path of an existing directory, succeeds exactly if the
      path receives a node of its kind and no locked mount is left behind; then the path shows the
      source. */
  lemma BindIff(sb: Superblock, sp: Space, spec: MountSpec)
    requires Sane(sp) && Realistic(sb) && spec.bind && spec.source.Some?
    requires StatAt(sp, Components(spec.source.value)).Exists? && Components(spec.target) != []
    requires var at := Components(spec.target); StatAt(sp, at[..|at| - 1]) == Exists(Dir)
    ensures var at, src, after := Components(spec.target), Components(spec.source.value), Mounted(sb, sp, spec);
            var kind := StatAt(sp, src).kind;
      && (after.Some? <==>
          && Receives(sp, at, kind, spec.createMountpoint)
          && (kind == File || spec.recurse || !LockedBelow(sp.table, src)))
      && (after.Some? ==> StatAt(after.value, at) == Exists(kind) && Where(after.value, at) == Where(sp, src))
  {
    var at, src := Components(spec.target), Components(spec.source.value);
    var kind := StatAt(sp, src).kind;
    ReadyIff(sp, spec, kind);
    if WithMountpoint(sp, spec).Some? {
      SourceStays(sp, spec);
      AttachedMounted(sb, sp, spec);
      if Mounted(sb, sp, spec).Some? {
        BindShows(sb, sp, spec);
      }
    }
  }

  lemma BindShows(sb: Superblock, sp: Space, spec: MountSpec)
    requires Sane(sp) && Realistic(sb) && spec.bind && Mounted(sb, sp, spec).Some? && spec.source.Some?
    requires StatAt(sp, Components(spec.source.value)).Exists?
    ensures var at, src, after := Components(spec.target), Components(spec.source.value), Mounted(sb, sp, spec).value;
      StatAt(after, at) == StatAt(sp, src) && Where(after, at) == Where(sp, src)
  {
    var at, src := Components(spec.target), Components(spec.source.value);
    var ready := WithMountpoint(sp, spec).value;
    SourceStays(sp, spec);
    assert StatAt(ready, at) == StatAt(sp, src);
    AttachedStat(sb, ready, spec, at);
    AttributedStat(Attached(sb, ready, spec).value, spec, at);
    MountedShows(sb, sp, spec, []);
    assert at + [] == at && src + [] == src && Where(sp, src).path + [] == Where(sp, src).path;
  }

  /** A new file system is mounted exactly if the kernel makes one and the path receives a directory. */
  lemma NewMountIff(sb: Superblock, sp: Space, spec: MountSpec)
    requires Sane(sp) && Realistic(sb) && !spec.bind && !spec.unshare && Components(spec.target) != []
    requires var at := Components(spec.target); StatAt(sp, at[..|at| - 1]) == Exists(Dir)
    ensures Mounted(sb, sp, spec).Some? <==>
      && Receives(sp, Components(spec.target), Dir, spec.createMountpoint)
      && spec.fstype.Some? && sb(spec.source, spec.fstype.value, spec.data).Some?
  {
    ReadyIff(sp, spec, Dir);
    if WithMountpoint(sp, spec).Some? {
      AttachedMounted(sb, sp, spec);
    }
  }

  /** A change of propagation is accepted exactly on a mountpoint. */
  lemma PropagationIff(sb: Superblock, sp: Space, spec: MountSpec)
    requires Sane(sp) && Realistic(sb) && !spec.bind && spec.unshare && Components(spec.target) != []
    requires var at := Components(spec.target); StatAt(sp, at[..|at| - 1]) == Exists(Dir)
    ensures var at := Components(spec.target);
      Mounted(sb, sp, spec).Some? <==>
      && Top(sp.table, at).at == at
      && (Receives(sp, at, Dir, spec.createMountpoint) || (!spec.createMountpoint && StatAt(sp, at) == Exists(File)))
  {
    ReadyIff(sp, spec, Dir);
    if WithMountpoint(sp, spec).Some? {
      AttachedMounted(sb, sp, spec);
      WithMountpointMakes(sp, spec);
    }
  }

  // ----- the mounts of a request -----

  /** What decides about a requested mount at a path of an existing directory: its own fields and
      what is at its source and its target. */
  predicate Accepts(sb: Superblock, sp: Space, at: Path, m: MountSpec)
    requires Rooted(sp.table)
    requires m.bind ==> m.source.Some? && StatAt(sp, Components(m.source.value)).Exists?
  {
    if m.bind then
      var src := Components(m.source.value);
      var kind := StatAt(sp, src).kind;
      && Receives(sp, at, kind, m.createMountpoint)
      && (kind == File || m.recurse || !LockedBelow(sp.table, src))
    else if m.unshare then
      && Top(sp.table, at).at == at
      && (Receives(sp, at, Dir, m.createMountpoint) || (!m.createMountpoint && StatAt(sp, at) == Exists(File)))
    else
      && Receives(sp, at, Dir, m.createMountpoint)
      && m.fstype.Some? && sb(m.source, m.fstype.value, None).Some?
  }

  /** A mount of the request with its source and with a directory to go into. */
  predicate Placed(sp: Space, at: Path, m: MountSpec)
    requires Rooted(sp.table)
  {
    && at != [] && StatAt(sp, at[..|at| - 1]) == Exists(Dir)
    && (m.bind ==> m.source.Some? && StatAt(sp, Components(m.source.value)).Exists?)
  }

  lemma ParentedIff(sb: Superblock, sp: Space, rootfs: string, m: MountSpec)
    requires Realistic(sb) && Sane(sp) && Placed(sp, Components(rootfs) + Components(m.target), m)
    ensures Mounted(sb, sp, Parented(rootfs, m)).Some? <==> Accepts(sb, sp, Components(rootfs) + Components(m.target), m)
  {
    ComponentsAppend(rootfs, m.target);
    MovedIff(sb, sp, Parented(rootfs, m), m);
  }

  lemma MovedIff(sb: Superblock, sp: Space, spec: MountSpec, m: MountSpec)
    requires Realistic(sb) && Sane(sp) && Placed(sp, Components(spec.target), m)
    requires spec == m.(target := spec.target, data := None)
    ensures Mounted(sb, sp, spec).Some? <==> Accepts(sb, sp, Components(spec.target), m)
  {
    if m.bind {
      BindIff(sb, sp, spec);
    } else if m.unshare {
      PropagationIff(sb, sp, spec);
    } else {
      NewMountIff(sb, sp, spec);
    }
  }

  /** The `i`-th requested mount, made below the root: when it succeeds is decided by its own
      fields and by what the ones before it left. */
  lemma RequestedMountIff(sb: Superblock, sp: Space, req: FsRequest, i: nat, made: Space)
    requires Realistic(sb) && Sane(sp) && i < |req.mounts.GetOr([])| && BeforeMount(sb, sp, req, i) == Some(made)
    requires Placed(made, Components(req.Root()) + Components(req.mounts.GetOr([])[i].target), req.mounts.GetOr([])[i])
    ensures var m := req.mounts.GetOr([])[i];
      BeforeMount(sb, sp, req, i + 1).Some? <==> Accepts(sb, made, Components(req.Root()) + Components(m.target), m)
  {
    BeforeMountGrows(sb, sp, req, i);
    NextMount(sb, sp, req, i);
    ParentedIff(sb, made, req.Root(), req.mounts.GetOr([])[i]);
  }

  lemma NextMount(sb: Superblock, sp: Space, req: FsRequest, i: nat)
    requires Rooted(sp.table) && i < |req.mounts.GetOr([])| && BeforeMount(sb, sp, req, i).Some?
    ensures BeforeMount(sb, sp, req, i + 1)
      == Mounted(sb, BeforeMount(sb, sp, req, i).value, Parented(req.Root(), req.mounts.GetOr([])[i]))
  {
    var mounts := req.mounts.GetOr([]);
    FrontOfFront(mounts, i);
    UserMountedSnoc(sb, Mounted(sb, RootBound(sb, sp, req).value, ProcMount(req.Root())).value, req.Root(), mounts[..i + 1], i);
  }

  lemma FrontOfFront<T>(s: seq<T>, i: nat)
    requires i < |s|
    ensures s[..i + 1][..i] == s[..i] && s[..i + 1][i] == s[i]
  {
  }

  /** The path of the `i`-th requested mount while the tree is assembled. */
  function TargetOf(req: FsRequest, i: nat): Path
    requires i < |req.mounts.GetOr([])|
  {
    Components(req.Root()) + Components(req.mounts.GetOr([])[i].target)
  }

  /** Each of the first `n` requested mounts has its source and a directory to go into when it is
      its turn. */
  ghost predicate AllPlaced(sb: Superblock, sp: Space, req: FsRequest, n: nat)
    requires Rooted(sp.table) && n <= |req.mounts.GetOr([])|
  {
    forall i :: 0 <= i < n && BeforeMount(sb, sp, req, i).Some? ==>
      Placed(BeforeMount(sb, sp, req, i).value, TargetOf(req, i), req.mounts.GetOr([])[i])
  }

  ghost predicate Step(sb: Superblock, sp: Space, req: FsRequest, i: nat)
    requires Rooted(sp.table) && i < |req.mounts.GetOr([])|
    requires BeforeMount(sb, sp, req, i).Some? ==>
      Placed(BeforeMount(sb, sp, req, i).value, TargetOf(req, i), req.mounts.GetOr([])[i])
  {
    BeforeMount(sb, sp, req, i).Some? && Accepts(sb, BeforeMount(sb, sp, req, i).value, TargetOf(req, i), req.mounts.GetOr([])[i])
  }

  lemma NextRefused(sb: Superblock, sp: Space, req: FsRequest, i: nat)
    requires Rooted(sp.table) && i < |req.mounts.GetOr([])| && BeforeMount(sb, sp, req, i + 1).Some?
    ensures BeforeMount(sb, sp, req, i).Some?
  {
    var mounts := req.mounts.GetOr([]);
    FrontOfFront(mounts, i);
    UserMountedStep(sb, Mounted(sb, RootBound(sb, sp, req).value, ProcMount(req.Root())).value, req.Root(), mounts[..i + 1], i);
  }

  lemma StepIff(sb: Superblock, sp: Space, req: FsRequest, i: nat)
    requires Realistic(sb) && Sane(sp) && i < |req.mounts.GetOr([])|
    requires BeforeMount(sb, sp, req, i).Some? ==>
      Placed(BeforeMount(sb, sp, req, i).value, TargetOf(req, i), req.mounts.GetOr([])[i])
    ensures BeforeMount(sb, sp, req, i + 1).Some? <==> Step(sb, sp, req, i)
  {
    if BeforeMount(sb, sp, req, i + 1).Some? {
      NextRefused(sb, sp, req, i);
    }
    if BeforeMount(sb, sp, req, i).Some? {
      RequestedMountIff(sb, sp, req, i, BeforeMount(sb, sp, req, i).value);
    }
  }

  /** A chain of steps, each from the state the last one reached. */
  lemma {:induction false} Chain(reached: seq<bool>, step: seq<bool>)
    requires |reached| == |step| + 1
    requires forall i :: 0 <= i < |step| ==> reached[i + 1] == step[i] && (step[i] ==> reached[i])
    ensures reached[|step|] <==> reached[0] && forall i :: 0 <= i < |step| ==> step[i]
    decreases |step|
  {
    if step != [] {
      var last := |step| - 1;
      Chain(reached[..|step|], step[..last]);
      assert reached[last + 1] == step[last] && (step[last] ==> reached[last]);
      assert forall i :: 0 <= i < last ==> step[..last][i] == step[i];
    }
  }

  ghost predicate Reached(sb: Superblock, sp: Space, req: FsRequest, i: nat)
    requires Rooted(sp.table) && i <= |req.mounts.GetOr([])|
  {
    BeforeMount(sb, sp, req, i).Some?
  }

  /** So the tree can be assembled up to any of them exactly if it can before the first, and each is
      accepted in its turn, */
  lemma RequestedMountsIff(sb: Superblock, sp: Space, req: FsRequest, n: nat)
    requires Realistic(sb) && Sane(sp) && n <= |req.mounts.GetOr([])| && AllPlaced(sb, sp, req, n)
    ensures Reached(sb, sp, req, n) <==>
      Reached(sb, sp, req, 0) && forall i :: 0 <= i < n ==> Step(sb, sp, req, i)
  {
    var reached := seq(n + 1, i requires 0 <= i <= n => Reached(sb, sp, req, i));
    var step := seq(n, i requires 0 <= i < n => Step(sb, sp, req, i));
    forall i | 0 <= i < n
      ensures reached[i + 1] == step[i] && (step[i] ==> reached[i])
    {
      StepIff(sb, sp, req, i);
    }
    Chain(reached, step);
    assert forall i :: 0 <= i < n ==> step[i] == Step(sb, sp, req, i);
  }

  /** and, without directories to be made, as a whole. */
  lemma LastMount(sb: Superblock, sp: Space, req: FsRequest)
    requires Rooted(sp.table) && req.rootfs.Some? && req.mutations.GetOr([]) == []
    ensures Assembled(sb, sp, req) == BeforeMount(sb, sp, req, |req.mounts.GetOr([])|)
  {
    var mounts := req.mounts.GetOr([]);
    assert mounts[..|mounts|] == mounts;
  }

  // ----- the directories of a request -----

  /** The `i`-th requested directory is made exactly if those before it are, and everything on its
      way is a directory or can be made one. */
  lemma RequestedDirIff(sp: Space, rootfs: string, targets: seq<string>, i: nat, done: Space)
    requires Sane(sp) && i < |targets| && Mutated(sp, rootfs, targets[..i]) == Some(done)
    requires NoStrays(done, Components(Pushed(rootfs, targets[i])))
    ensures Mutated(sp, rootfs, targets[..i + 1]).Some? <==> WayFree(done, Components(Pushed(rootfs, targets[i])))
  {
    FrontOfFront(targets, i);
    MutatedGrows(sp, rootfs, targets[..i], done);
    CreateDirAllIff(done, Components(Pushed(rootfs, targets[i])));
  }

  /** A requested directory is there. */
  predicate DirAt(sp: Space, rootfs: string, target: string)
    requires Rooted(sp.table)
  {
    StatAt(sp, Components(Pushed(rootfs, target))) == Exists(Dir)
  }

  lemma LastDirMade(sp: Space, rootfs: string, targets: seq<string>, after: Space)
    requires Sane(sp) && Mutated(sp, rootfs, targets) == Some(after) && targets != []
    ensures var last := |targets| - 1;
            var done := Mutated(sp, rootfs, targets[..last]);
      && done.Some? && Grows(done.value, after) && after.table == done.value.table
      && DirAt(after, rootfs, targets[last])
  {
    var last := |targets| - 1;
    var done := Mutated(sp, rootfs, targets[..last]);
    assert done.Some?;
    MutatedGrows(sp, rootfs, targets[..last], done.value);
    CreateDirAllMakes(done.value, Components(Pushed(rootfs, targets[last])));
  }

  lemma DirStays(a: Space, b: Space, rootfs: string, target: string)
    requires Grows(a, b) && b.table == a.table && DirAt(a, rootfs, target)
    ensures DirAt(b, rootfs, target)
  {
    KindStays(a, b, Components(Pushed(rootfs, target)));
  }

  lemma AllDirsStay(a: Space, b: Space, rootfs: string, targets: seq<string>)
    requires Grows(a, b) && b.table == a.table && forall t :: t in targets ==> DirAt(a, rootfs, t)
    ensures forall t :: t in targets ==> DirAt(b, rootfs, t)
  {
    forall t | t in targets
      ensures DirAt(b, rootfs, t)
    {
      DirStays(a, b, rootfs, t);
    }
  }

  lemma InFrontOrLast<T>(s: seq<T>, last: nat)
    requires |s| == last + 1
    ensures forall t :: t in s ==> t in s[..last] || t == s[last]
  {
  }

  lemma {:induction false} MutatedMakes(sp: Space, rootfs: string, targets: seq<string>, after: Space)
    requires Sane(sp) && Mutated(sp, rootfs, targets) == Some(after)
    ensures Rooted(after.table) && forall t :: t in targets ==> DirAt(after, rootfs, t)
    decreases |targets|
  {
    if targets != [] {
      var last := |targets| - 1;
      LastDirMade(sp, rootfs, targets, after);
      var done := Mutated(sp, rootfs, targets[..last]).value;
      MutatedMakes(sp, rootfs, targets[..last], done);
      AllDirsStay(done, after, rootfs, targets[..last]);
      InFrontOrLast(targets, last);
    }
  }

  /** Every requested directory is there in the assembled tree. */
  lemma AssembledMakes(sb: Superblock, sp: Space, req: FsRequest, i: nat)
    requires Sane(sp) && i < |req.mutations.GetOr([])|
    ensures var before := Assembled(sb, sp, req);
      before.Some? ==> DirAt(before.value, req.Root(), req.mutations.GetOr([])[i])
  {
    if Assembled(sb, sp, req).Some? {
      LastGrows(sb, sp, req);
      MutatedMakes(BeforeMount(sb, sp, req, |req.mounts.GetOr([])|).value, req.Root(), req.mutations.GetOr([]),
                   Assembled(sb, sp, req).value);
    }
  }

  lemma LastGrows(sb: Superblock, sp: Space, req: FsRequest)
    requires Sane(sp) && Assembled(sb, sp, req).Some?
    ensures var done := BeforeMount(sb, sp, req, |req.mounts.GetOr([])|);
      && done.Some? && Sane(done.value)
      && Mutated(done.value, req.Root(), req.mutations.GetOr([])) == Assembled(sb, sp, req)
  {
    var mounts := req.mounts.GetOr([]);
    assert mounts[..|mounts|] == mounts;
    BeforeMountGrows(sb, sp, req, |mounts|);
  }
}
