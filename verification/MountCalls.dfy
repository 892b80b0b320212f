/** The system calls behind a `MountSpec` (src/mount.rs), and the effect of mounting one. */
module MountCalls {
  import opened Wrappers
  import opened Paths
  import opened MountTable
  import opened Hardening

  datatype MountSpec = MountSpec(
    source: Option<string>,
    target: string,
    fstype: Option<string>,
    bind: bool,
    recurse: bool,
    unshare: bool,
    safe: bool,
    createMountpoint: bool,
    readOnly: bool,
    data: Option<string>)

  /** The flags of mount(2) that matter here: MS_BIND, MS_PRIVATE and MS_REC. */
  datatype MountFlags = MountFlags(bind: bool, private: bool, rec: bool)

  /** What a new file system holds, and whether anything can be created in it. */
  datatype Filesystem = Filesystem(tree: map<Path, Kind>, fixed: bool)

  /** What the kernel makes of a source, a type and mount data: nothing for an unknown type or
      a source or data that the type refuses. */
  type Superblock = (Option<string>, string, Option<string>) -> Option<Filesystem>

  const EMPTY_TREE: map<Path, Kind> := map[[] := Dir]

  /** A tmpfs can always be mounted and starts empty; a mount of procfs is an instance of its own
      every time, and nothing can be created in it; every file system has a root directory. The
      data "size=0k" is that of a mask, which is read-only: nothing is created there anyway. */
  ghost predicate Realistic(sb: Superblock) {
    && (forall source: Option<string> :: sb(source, "tmpfs", Some("size=0k")) == Some(Filesystem(EMPTY_TREE, false)))
    && (forall source: Option<string> ::
          sb(source, "tmpfs", None).Some? && sb(source, "tmpfs", None).value.tree == EMPTY_TREE)
    && (forall source: Option<string>, data: Option<string> ::
          sb(source, "proc", data).Some? ==> sb(source, "proc", data).value.fixed)
    && (forall source: Option<string>, fstype: string, data: Option<string> ::
          sb(source, fstype, data).Some? ==> WithRoot(sb(source, fstype, data).value.tree))
  }

  predicate WithRoot(tree: map<Path, Kind>) {
    [] in tree && tree[[]] == Dir
  }

  /** The nodes of a tree in the file system of a given number. */
  function Planted(fs: nat, tree: map<Path, Kind>): map<Loc, Kind> {
    map p | p in tree :: Loc(fs, p) := tree[p]
  }

  /** A new file system mounted on a directory. */
  function NewMount(sp: Space, at: Path, fs: Filesystem, proc: bool): Space {
    Space(sp.table + [Mount(at, Loc(sp.nextFs, []), NO_ATTRS)],
          sp.nodes + Planted(sp.nextFs, fs.tree),
          sp.nextFs + 1,
          if fs.fixed then sp.fixed + {sp.nextFs} else sp.fixed,
          if proc then sp.procs + {sp.nextFs} else sp.procs)
  }

  /** mount(2). A bind wins over a change of propagation; directories go on directories and
      files on files. A directory cannot be bound without the locked mounts below it:
      mount_namespaces(7), "Restrictions on mount namespaces". */
  function MountCall(sb: Superblock, sp: Space, source: Option<string>, target: string,
                     fstype: Option<string>, flags: MountFlags, data: Option<string>): (r: Option<Space>)
    requires Rooted(sp.table)
    ensures r.Some? ==> Rooted(r.value.table)
  {
    var at := Components(target);
    match StatAt(sp, at)
    case NotFound => None
    case NotDirectory => None
    case Exists(kind) =>
      if flags.bind then
        if && source.Some? && StatAt(sp, Components(source.value)) == Exists(kind)
           && (flags.rec || kind == File || !LockedBelow(sp.table, Components(source.value)))
        then Some(sp.(table := Bound(sp.table, Components(source.value), at, flags.rec)))
        else None
      else if flags.private then
        if Top(sp.table, at).at == at then Some(sp) else None
      else if fstype.Some? && kind == Dir then
        var fs :- sb(source, fstype.value, data);
        Some(NewMount(sp, at, fs, fstype.value == "proc"))
      else None
  }

  /** mount_setattr(2) on the mount a path is the root of. */
  function SetattrCall(sp: Space, target: string, recurse: bool, attrs: MountAttrs): (r: Option<Space>)
    requires Rooted(sp.table)
    ensures r.Some? ==> Rooted(r.value.table)
  {
    var at := Components(target);
    if StatAt(sp, at).Exists? && Top(sp.table, at).at == at
    then Some(sp.(table := Marked(sp.table, at, recurse, attrs)))
    else None
  }

  /** pivot_root(2) into a mounted directory that is not locked, with the old root detached: what
      is below the new root is all that stays. */
  function PivotCall(sp: Space, target: string): (r: Option<Space>)
    requires Rooted(sp.table)
    ensures r.Some? ==> Rooted(r.value.table)
  {
    var at := Components(target);
    if at != [] && StatAt(sp, at) == Exists(Dir) && Top(sp.table, at).at == at && !Top(sp.table, at).locked
    then CopiesBelow(sp.table, at, []); Some(sp.(table := Copies(sp.table, at, [])))
    else None
  }

  // ----- making mountpoints -----

  function MakeNode(sp: Space, q: Path, kind: Kind): (r: Option<Space>)
    requires Rooted(sp.table)
    ensures r.Some? ==> r.value.table == sp.table
  {
    if Attrs(sp, q).readOnly || Where(sp, q).fs in sp.fixed then None else Some(sp.(nodes := sp.nodes[Where(sp, q) := kind]))
  }

  function CreateDirAll(sp: Space, q: Path): (r: Option<Space>)
    requires Rooted(sp.table)
    ensures r.Some? ==> r.value.table == sp.table
    decreases |q|
  {
    match StatAt(sp, q)
    case Exists(Dir) => Some(sp)
    case Exists(File) => None
    case _ =>
      if q == [] then None
      else
        var made :- CreateDirAll(sp, q[..|q| - 1]);
        match StatAt(made, q)
        case Exists(Dir) => Some(made)
        case NotFound => MakeNode(made, q, Dir)
        case _ => None
  }

  function CreateFile(sp: Space, q: Path): (r: Option<Space>)
    requires Rooted(sp.table)
    ensures r.Some? ==> r.value.table == sp.table
  {
    match StatAt(sp, q)
    case Exists(File) => if Attrs(sp, q).readOnly then None else Some(sp)
    case NotFound => MakeNode(sp, q, File)
    case _ => None
  }

  predicate SourceIsFile(sp: Space, spec: MountSpec)
    requires Rooted(sp.table)
  {
    spec.bind && spec.source.Some? && StatAt(sp, Components(spec.source.value)) == Exists(File)
  }

  /** The directory a file is to be created in; the root has none. */
  function ParentMade(sp: Space, q: Path): (r: Option<Space>)
    requires Rooted(sp.table)
    ensures r.Some? ==> r.value.table == sp.table
  {
    if q == [] then Some(sp) else CreateDirAll(sp, q[..|q| - 1])
  }

  function CreateMountpoint(sp: Space, spec: MountSpec): (r: Option<Space>)
    requires Rooted(sp.table)
    ensures r.Some? ==> r.value.table == sp.table
  {
    var at := Components(spec.target);
    if SourceIsFile(sp, spec) then
      var made :- ParentMade(sp, at); CreateFile(made, at)
    else CreateDirAll(sp, at)
  }

  // ----- the three stages of mounting a specification -----

  function WithMountpoint(sp: Space, spec: MountSpec): (r: Option<Space>)
    requires Rooted(sp.table)
    ensures r.Some? ==> r.value.table == sp.table
  {
    if spec.createMountpoint then CreateMountpoint(sp, spec) else Some(sp)
  }

  function Attached(sb: Superblock, sp: Space, spec: MountSpec): (r: Option<Space>)
    requires Rooted(sp.table)
    ensures r.Some? ==> Rooted(r.value.table)
  {
    MountCall(sb, sp, spec.source, spec.target, if spec.bind then None else spec.fstype,
              MountFlags(spec.bind, spec.unshare, spec.recurse), spec.data)
  }

  function Attributed(sp: Space, spec: MountSpec): (r: Option<Space>)
    requires Rooted(sp.table)
    ensures r.Some? ==> Rooted(r.value.table)
  {
    if spec.safe || spec.readOnly
    then SetattrCall(sp, spec.target, spec.recurse, MountAttrs(spec.safe, spec.readOnly))
    else Some(sp)
  }

  /** The effect of mounting a specification. */
  function Mounted(sb: Superblock, sp: Space, spec: MountSpec): (r: Option<Space>)
    requires Rooted(sp.table)
    ensures r.Some? ==> Rooted(r.value.table)
  {
    var ready :- WithMountpoint(sp, spec);
    var mounted :- Attached(sb, ready, spec);
    Attributed(mounted, spec)
  }

  // ----- every call keeps the space sane -----

  lemma {:induction false} CopiesSane(t: Table, src: Path, dst: Path, n: nat)
    requires Rooted(t) && forall m :: m in t ==> m.root.fs < n
    ensures forall m :: m in Copies(t, src, dst) ==> m.root.fs < n
  {
    if !(t[|t| - 1].at <= src) {
      CopiesSane(t[..|t| - 1], src, dst, n);
    }
  }

  lemma BoundSane(sp: Space, src: Path, dst: Path, recurse: bool)
    requires Sane(sp)
    ensures Sane(sp.(table := Bound(sp.table, src, dst, recurse)))
  {
    CopiesSane(sp.table, src, dst, sp.nextFs);
    assert Top(sp.table, src) in sp.table;
  }

  lemma {:induction false} MarkedSane(t: Table, at: Path, recurse: bool, more: MountAttrs, n: nat)
    requires Rooted(t) && forall m :: m in t ==> m.root.fs < n
    ensures forall m :: m in Marked(t, at, recurse, more) ==> m.root.fs < n
  {
    if !(t[|t| - 1].at <= at) {
      MarkedSane(t[..|t| - 1], at, recurse, more, n);
    }
  }

  lemma AttachedSane(sb: Superblock, sp: Space, spec: MountSpec)
    requires Sane(sp)
    ensures var r := Attached(sb, sp, spec); r.Some? ==> Sane(r.value) && sp.nextFs <= r.value.nextFs
  {
    if spec.bind && spec.source.Some? {
      BoundSane(sp, Components(spec.source.value), Components(spec.target), spec.recurse);
    }
  }

  lemma SetattrCallSane(sp: Space, target: string, recurse: bool, attrs: MountAttrs)
    requires Sane(sp)
    ensures var r := SetattrCall(sp, target, recurse, attrs);
            r.Some? ==> Sane(r.value) && r.value.nextFs == sp.nextFs
  {
    MarkedSane(sp.table, Components(target), recurse, attrs, sp.nextFs);
  }

  lemma MakeNodeSane(sp: Space, q: Path, kind: Kind)
    requires Sane(sp)
    ensures var r := MakeNode(sp, q, kind);
            r.Some? ==> Sane(r.value) && r.value.nextFs == sp.nextFs
  {
    assert Top(sp.table, q) in sp.table;
  }

  lemma {:induction false} CreateDirAllSane(sp: Space, q: Path)
    requires Sane(sp)
    ensures var r := CreateDirAll(sp, q);
            r.Some? ==> Sane(r.value) && r.value.nextFs == sp.nextFs
    decreases |q|
  {
    if q != [] {
      var made := CreateDirAll(sp, q[..|q| - 1]);
      CreateDirAllSane(sp, q[..|q| - 1]);
      if made.Some? {
        MakeNodeSane(made.value, q, Dir);
      }
    }
  }

  lemma CreateFileSane(sp: Space, q: Path)
    requires Sane(sp)
    ensures var r := CreateFile(sp, q);
            r.Some? ==> Sane(r.value) && r.value.nextFs == sp.nextFs
  {
    MakeNodeSane(sp, q, File);
  }

  lemma {:induction false} CreateDirAllNumber(sp: Space, q: Path)
    requires Rooted(sp.table)
    ensures var r := CreateDirAll(sp, q); r.Some? ==> r.value.nextFs == sp.nextFs
    decreases |q|
  {
    if q != [] {
      CreateDirAllNumber(sp, q[..|q| - 1]);
    }
  }

  lemma CreateMountpointNumber(sp: Space, spec: MountSpec)
    requires Rooted(sp.table)
    ensures var r := CreateMountpoint(sp, spec); r.Some? ==> r.value.nextFs == sp.nextFs
  {
    var at := Components(spec.target);
    CreateDirAllNumber(sp, at);
    if at != [] {
      CreateDirAllNumber(sp, at[..|at| - 1]);
    }
  }

  lemma CreateMountpointSane(sp: Space, spec: MountSpec)
    requires Sane(sp)
    ensures var r := CreateMountpoint(sp, spec);
            r.Some? ==> Sane(r.value) && r.value.nextFs == sp.nextFs
  {
    var at := Components(spec.target);
    if SourceIsFile(sp, spec) {
      var made := ParentMade(sp, at);
      if at != [] {
        CreateDirAllSane(sp, at[..|at| - 1]);
      }
      if made.Some? {
        CreateFileSane(made.value, at);
      }
    } else {
      CreateDirAllSane(sp, at);
    }
  }

  lemma MountedSane(sb: Superblock, sp: Space, spec: MountSpec)
    requires Sane(sp)
    ensures var r := Mounted(sb, sp, spec); r.Some? ==> Sane(r.value) && sp.nextFs <= r.value.nextFs
  {
    var ready := WithMountpoint(sp, spec);
    CreateMountpointSane(sp, spec);
    if ready.Some? {
      AttachedSane(sb, ready.value, spec);
      var mounted := Attached(sb, ready.value, spec);
      if mounted.Some? {
        SetattrCallSane(mounted.value, spec.target, spec.recurse, MountAttrs(spec.safe, spec.readOnly));
      }
    }
  }

  function Added(spec: MountSpec): MountAttrs {
    MountAttrs(spec.safe, spec.readOnly)
  }

  // ----- every call leaves the paths outside its target alone -----

  lemma AttachedKeeps(sb: Superblock, sp: Space, spec: MountSpec, q: Path)
    requires Rooted(sp.table) && !(Components(spec.target) <= q)
    ensures var r := Attached(sb, sp, spec); r.Some? ==> Top(r.value.table, q) == Top(sp.table, q)
  {
    var at := Components(spec.target);
    if spec.bind && spec.source.Some? {
      var src := Components(spec.source.value);
      CopiesBelow(sp.table, src, at);
      BlockElsewhere(sp.table, Copies(sp.table, src, at), at, q);
      TopOfAppend(sp.table, Mount(at, LocAt(sp.table, src), AttrsAt(sp.table, src)), q);
    } else {
      TopOfAppend(sp.table, Mount(at, Loc(sp.nextFs, []), NO_ATTRS), q);
    }
  }

  lemma AttributedKeeps(sp: Space, spec: MountSpec, q: Path)
    requires Rooted(sp.table) && !(Components(spec.target) <= q)
    ensures var r := Attributed(sp, spec); r.Some? ==> Top(r.value.table, q) == Top(sp.table, q)
  {
    var at := Components(spec.target);
    if Top(sp.table, at).at == at {
      MarkedElsewhere(sp.table, at, spec.recurse, Added(spec), q);
    }
  }

  /** Mounting a specification moves or changes no mount seen outside its target. */
  lemma MountedKeeps(sb: Superblock, sp: Space, spec: MountSpec, q: Path)
    requires Rooted(sp.table) && !(Components(spec.target) <= q)
    ensures var r := Mounted(sb, sp, spec); r.Some? ==> Top(r.value.table, q) == Top(sp.table, q)
  {
    var ready := WithMountpoint(sp, spec);
    if ready.Some? {
      AttachedKeeps(sb, ready.value, spec, q);
      var mounted := Attached(sb, ready.value, spec);
      if mounted.Some? {
        AttributedKeeps(mounted.value, spec, q);
      }
    }
  }

  // ----- what is mounted -----

  lemma AttachedTop(sb: Superblock, sp: Space, spec: MountSpec)
    requires Rooted(sp.table)
    ensures var at := Components(spec.target);
            var r := Attached(sb, sp, spec); r.Some? ==>
      && Top(r.value.table, at).at == at
      && (spec.bind || !spec.unshare || !Top(sp.table, at).locked ==> !Top(r.value.table, at).locked)
  {
    var at := Components(spec.target);
    if spec.bind && spec.source.Some? {
      BlockTop(sp.table, sp.table, Components(spec.source.value), at);
      TopOfAppend(sp.table, Mount(at, LocAt(sp.table, Components(spec.source.value)),
                                  AttrsAt(sp.table, Components(spec.source.value))), at);
    } else {
      TopOfAppend(sp.table, Mount(at, Loc(sp.nextFs, []), NO_ATTRS), at);
    }
  }

  lemma AttributedTop(sp: Space, spec: MountSpec)
    requires Rooted(sp.table) && Top(sp.table, Components(spec.target)).at == Components(spec.target)
    ensures var at := Components(spec.target);
            var r := Attributed(sp, spec); r.Some? ==>
      Top(r.value.table, at).at == at && Top(r.value.table, at).locked == Top(sp.table, at).locked
  {
    MarkedTop(sp.table, Components(spec.target), spec.recurse, Added(spec));
  }

  /** A mounted specification is a mount on its target, and not a locked one unless it is one that
      only changed its propagation. */
  lemma MountedTop(sb: Superblock, sp: Space, spec: MountSpec)
    requires Rooted(sp.table)
    ensures var at := Components(spec.target);
            var r := Mounted(sb, sp, spec); r.Some? ==>
      && Top(r.value.table, at).at == at
      && (spec.bind || !spec.unshare || !Top(sp.table, at).locked ==> !Top(r.value.table, at).locked)
  {
    var ready := WithMountpoint(sp, spec);
    if ready.Some? {
      AttachedTop(sb, ready.value, spec);
      var mounted := Attached(sb, ready.value, spec);
      if mounted.Some? {
        AttributedTop(mounted.value, spec);
      }
    }
  }

  /** Recursive attributes cover what is at and below the target, and nothing else. */
  lemma AttributedShows(sp: Space, spec: MountSpec, q: Path)
    requires Rooted(sp.table) && spec.recurse && Attributed(sp, spec).Some?
    ensures var after := Attributed(sp, spec).value;
      && after.nodes == sp.nodes
      && Where(after, q) == Where(sp, q)
      && Attrs(after, q) == if Components(spec.target) <= q then Attrs(sp, q).With(Added(spec)) else Attrs(sp, q)
  {
    if spec.safe || spec.readOnly {
      MarkedShows(sp.table, Components(spec.target), Added(spec), q);
    }
  }

  /** What a mount shows at a path of its own: a recursive bind what is visible below the
      source, a plain bind what the one mount visible at the source holds there, a new file
      system itself. */
  function SourceSight(sp: Space, spec: MountSpec, r: Path): (Loc, MountAttrs)
    requires Rooted(sp.table) && (spec.bind ==> spec.source.Some?)
  {
    if !spec.bind then (Loc(sp.nextFs, r), NO_ATTRS)
    else
      var src := Components(spec.source.value);
      if spec.recurse then (Where(sp, src + r), Attrs(sp, src + r))
      else (Loc(Where(sp, src).fs, Where(sp, src).path + r), Attrs(sp, src))
  }

  lemma AttachedShows(sb: Superblock, sp: Space, spec: MountSpec, r: Path)
    requires Rooted(sp.table) && Attached(sb, sp, spec).Some? && (spec.bind || !spec.unshare)
    ensures spec.bind ==> spec.source.Some?
    ensures var after, q := Attached(sb, sp, spec).value, Components(spec.target) + r;
      (Where(after, q), Attrs(after, q)) == SourceSight(sp, spec, r)
  {
    var at := Components(spec.target);
    assert (at + r)[|at|..] == r;
    if !spec.bind {
      TopOfAppend(sp.table, Mount(at, Loc(sp.nextFs, []), NO_ATTRS), at + r);
      assert [] + r == r;
    } else {
      var src := Components(spec.source.value);
      if spec.recurse {
        CopiesShow(sp.table, sp.table, src, at, r);
      } else {
        TopOfAppend(sp.table, Mount(at, LocAt(sp.table, src), AttrsAt(sp.table, src)), at + r);
      }
    }
  }

  /** The mount a path below the target is on is the one just made, or one it brought along. */
  lemma AttachedCovers(sb: Superblock, sp: Space, spec: MountSpec, r: Path)
    requires Rooted(sp.table) && Attached(sb, sp, spec).Some? && (spec.bind || !spec.unshare)
    requires !(spec.bind && spec.recurse)
    ensures var after, at := Attached(sb, sp, spec).value, Components(spec.target);
      Top(after.table, at + r).at == at
  {
    var at := Components(spec.target);
    if !spec.bind {
      TopOfAppend(sp.table, Mount(at, Loc(sp.nextFs, []), NO_ATTRS), at + r);
    } else {
      var src := Components(spec.source.value);
      TopOfAppend(sp.table, Mount(at, LocAt(sp.table, src), AttrsAt(sp.table, src)), at + r);
    }
  }

  /** Every mount shows its source below its target, under the attributes it asks for. */
  lemma MountedShows(sb: Superblock, sp: Space, spec: MountSpec, r: Path)
    requires Rooted(sp.table) && Mounted(sb, sp, spec).Some? && (spec.bind || !spec.unshare)
    ensures spec.bind ==> spec.source.Some?
    ensures var after, q := Mounted(sb, sp, spec).value, Components(spec.target) + r;
      && Where(after, q) == SourceSight(sp, spec, r).0
      && Attrs(after, q) == SourceSight(sp, spec, r).1.With(Added(spec))
  {
    var ready := WithMountpoint(sp, spec).value;
    var attached := Attached(sb, ready, spec).value;
    WithMountpointSight(sp, spec, r);
    AttachedShows(sb, ready, spec, r);
    AttachedTop(sb, ready, spec);
    AddedShows(sb, ready, spec, r);
  }

  lemma WithMountpointSight(sp: Space, spec: MountSpec, r: Path)
    requires Rooted(sp.table) && WithMountpoint(sp, spec).Some? && (spec.bind ==> spec.source.Some?)
    ensures SourceSight(WithMountpoint(sp, spec).value, spec, r) == SourceSight(sp, spec, r)
  {
    CreateMountpointNumber(sp, spec);
  }

  lemma AddedShows(sb: Superblock, sp: Space, spec: MountSpec, r: Path)
    requires Rooted(sp.table) && Attached(sb, sp, spec).Some? && (spec.bind || !spec.unshare)
    requires Attributed(Attached(sb, sp, spec).value, spec).Some?
    ensures var was, q := Attached(sb, sp, spec).value, Components(spec.target) + r;
            var after := Attributed(was, spec).value;
      && Where(after, q) == Where(was, q)
      && Attrs(after, q) == Attrs(was, q).With(Added(spec))
  {
    var was, at := Attached(sb, sp, spec).value, Components(spec.target);
    AttachedTop(sb, sp, spec);
    if spec.recurse {
      AttributedShows(was, spec, at + r);
    } else {
      AttachedCovers(sb, sp, spec, r);
      MarkedShallow(was.table, at, Added(spec), at + r);
    }
  }

  /** A new file system shows itself below its target, and its contents are what the source,
      the type and the mount data make of it. */
  lemma NewMountShows(sb: Superblock, sp: Space, spec: MountSpec, r: Path)
    requires Sane(sp) && !spec.bind && !spec.unshare && Attached(sb, sp, spec).Some?
    ensures spec.fstype.Some?
    ensures var after := Attached(sb, sp, spec).value;
            var at, fs := Components(spec.target), sb(spec.source, spec.fstype.value, spec.data);
      && fs.Some?
      && Where(after, at + r) == Loc(sp.nextFs, r)
      && Attrs(after, at + r) == NO_ATTRS
      && NodeAt(after, at + r) == if r in fs.value.tree then Exists(fs.value.tree[r]) else NotFound
  {
    var at := Components(spec.target);
    TopOfAppend(sp.table, Mount(at, Loc(sp.nextFs, []), NO_ATTRS), at + r);
    assert (at + r)[|at|..] == r && [] + r == r;
  }

  // ----- the specifications used for hardening -----

  function MaskDirSpec(target: string): MountSpec {
    MountSpec(Some("tmpfs"), target, Some("tmpfs"), false, false, false, true, false, true, Some("size=0k"))
  }

  function MaskFileSpec(target: string): MountSpec {
    MountSpec(Some("/dev/null"), target, None, true, false, false, false, false, false, None)
  }

  function ReadOnlySpec(target: string): MountSpec {
    MountSpec(Some(target), target, Some("none"), true, true, false, false, false, true, None)
  }

  lemma DevNullPath()
    ensures Components("/dev/null") == DEV_NULL
  {
    assert "/dev/null" == "/dev" + "/" + "null";
    ComponentsAppend("/dev", "null");
    OneSegment("dev");
    OneSegment("null");
    assert "/dev"[1..] == "dev";
  }

  lemma OneSegment(s: string)
    requires s == "dev" || s == "null" || s == "proc" || s == "root" || s == "tmp" || s == "old"
    ensures Components(s) == [s]
  {
    OneComponent(s);
  }

  lemma EmptyTree(sp: Space, tree: map<Path, Kind>)
    requires tree == EMPTY_TREE
    ensures sp.nodes + Planted(sp.nextFs, tree) == sp.nodes[Loc(sp.nextFs, []) := Dir]
  {
  }

  lemma MaskDirMounted(sb: Superblock, sp: Space, target: string)
    requires Realistic(sb) && Sane(sp)
    ensures var p := Components(target);
      Mounted(sb, sp, MaskDirSpec(target))
      == if StatAt(sp, p) == Exists(Dir) then Some(WithEmptyDir(sp, p)) else None
  {
    var p := Components(target);
    if StatAt(sp, p) == Exists(Dir) {
      NewMountSealed(sp, target);
    }
  }

  lemma NewMountSealed(sp: Space, target: string)
    requires Sane(sp) && StatAt(sp, Components(target)) == Exists(Dir)
    ensures var made := NewMount(sp, Components(target), Filesystem(EMPTY_TREE, false), false);
      && Rooted(made.table)
      && SetattrCall(made, target, false, MASK_ATTRS) == Some(WithEmptyDir(sp, Components(target)))
  {
    var p := Components(target);
    var m := Mount(p, Loc(sp.nextFs, []), NO_ATTRS);
    NewMountStat(sp, p);
    EmptyTree(sp, EMPTY_TREE);
    TopOfAppend(sp.table, m, p);
    assert (sp.table + [m])[..|sp.table|] == sp.table;
    assert Marked(sp.table + [m], p, false, MASK_ATTRS) == sp.table + [Marking(m, MASK_ATTRS)];
    assert NewMount(sp, p, Filesystem(EMPTY_TREE, false), false).nodes == WithEmptyDir(sp, p).nodes;
  }

  lemma NewMountStat(sp: Space, p: Path)
    requires Sane(sp) && StatAt(sp, p) == Exists(Dir)
    ensures Rooted(NewMount(sp, p, Filesystem(EMPTY_TREE, false), false).table)
    ensures StatAt(NewMount(sp, p, Filesystem(EMPTY_TREE, false), false), p) == Exists(Dir)
  {
    var made := NewMount(sp, p, Filesystem(EMPTY_TREE, false), false);
    var masked := WithEmptyDir(sp, p);
    EmptyTree(sp, EMPTY_TREE);
    EmptyDirEffect(sp, p, p);
    assert made.nodes == masked.nodes;
    forall r: Path
      ensures Where(made, r) == Where(masked, r)
    {
      TopOfAppend(sp.table, Mount(p, Loc(sp.nextFs, []), NO_ATTRS), r);
      TopOfAppend(sp.table, Mount(p, Loc(sp.nextFs, []), MASK_ATTRS), r);
    }
    SameLookup(made, masked, p);
  }

  lemma MaskFileMounted(sb: Superblock, sp: Space, target: string)
    requires Sane(sp)
    ensures var p := Components(target);
      StatAt(sp, p) == Exists(File) ==>
      Mounted(sb, sp, MaskFileSpec(target))
      == if StatAt(sp, DEV_NULL) == Exists(File) then Some(WithNull(sp, p)) else None
  {
    DevNullPath();
  }

  lemma ReadOnlyMounted(sb: Superblock, sp: Space, target: string)
    requires Sane(sp)
    ensures var p := Components(target);
      Mounted(sb, sp, ReadOnlySpec(target))
      == if StatAt(sp, p).Exists? then Some(WithReadOnly(sp, p)) else None
  {
    var p := Components(target);
    var bound := sp.(table := Bound(sp.table, p, p, true));
    SelfBindTop(sp.table, p);
    forall r: Path
      ensures Where(bound, r) == Where(sp, r)
    {
      SelfBindShows(sp.table, p, r);
    }
    SameLookup(bound, sp, p);
  }
}
