/** From a request and its host to the plan of a launch (`CreateRequest::wrap`,
    `prepare_userns`, src/wrap.rs): the namespaces, the map writes, the tree and what it shows at
    the paths of the map files, the credentials and the program. */
module Requests {
  import opened Wrappers
  import opened CapabilityBits
  import opened Namespaces
  import opened IdMappings
  import opened MapRules
  import opened Paths
  import opened MountTable
  import opened Hardening
  import opened MountCalls
  import opened PivotFs
  import opened StableNodes
  import opened TreeView
  import opened HardenedTree
  import opened MountAcceptance
  import opened Execution
  import Credentials
  import Preexec
  import opened Launch
  import opened LaunchSafety

  datatype LaunchRequest = LaunchRequest(
    namespaces: Option<seq<Namespace>>,
    skipTwoStageUserns: Option<bool>,
    uidMappings: Option<seq<IdMapping>>,
    gidMappings: Option<seq<IdMapping>>,
    setgroupsDeny: Option<bool>,
    fs: FsRequest,
    exec: Preexec.ExecIds,
    capabilities: Option<Preexec.Capabilities>,
    setsScore: bool,
    executable: Option<string>,
    workingDirectory: Option<string>,
    noNewPrivs: bool,
    filtersSyscalls: bool,
    setsProfile: bool)
  {
    function TargetNs(): seq<Namespace> {
      namespaces.GetOr(DEFAULT_NAMESPACES)
    }

    function Skip(): bool {
      skipTwoStageUserns.GetOr(false)
    }

    function Denies(): bool {
      setgroupsDeny.GetOr(true)
    }

    /** The child builds its tree, if at all, in a mount namespace that the new user namespace
        owns. */
    predicate MountsInside() {
      Skip() && User in TargetNs()
    }
  }

  /** Who mounts a new file system: a process inside the new user namespace or not, the namespaces
      that one owns, and whether it maps the process's own ids. */
  datatype Mounter = Mounter(inside: bool, owned: set<Namespace>, mapped: bool)

  /** What the launch depends on besides the request.

      The pid the child is given in the supervisor's pid namespace (pid 1 of it exists already).
      The mounts and files of the host while the launch goes on, what its kernel mounts for whom,
      and which file systems are instances of procfs for the supervisor's pid namespace; which
      other files can be opened for writing, on a mount that is read-only or not, and which take a
      text. Who the supervisor is, the maps of its user namespace, whether setgroups(2) is denied
      there, and the kinds of namespaces the kernel makes for it, as limits and security modules
      have it. Its directory and its PATH, which directories the workload may enter, and what
      execve(2) of a file in a tree comes to for it. The first of the standard descriptors that is a
      terminal and the texts of links; what takes an out-of-memory score or an AppArmor profile; and
      whether the system call filter is one. */
  datatype Host = Host(
    childPid: int,
    space: Space,
    superblock: Mounter -> Superblock,
    procs: set<nat>,
    opens: (Loc, bool) -> bool,
    takes: Loc -> bool,
    cred: Credentials.Cred,
    uids: seq<IdMapping>,
    gids: seq<IdMapping>,
    groupsDenied: bool,
    supports: set<Namespace>,
    cwd: Path,
    path: seq<string>,
    enters: (Space, Loc) -> bool,
    answers: (Space, Loc) -> Answer,
    terminal: Option<nat>,
    links: Loc -> Option<string>,
    takesScore: (Loc, bool) -> bool,
    takesProfile: (Loc, bool) -> bool,
    filterAccepted: bool)
  {
    /** The supervisor as the one who writes the maps. */
    function Writes(): Writer {
      Writer(cred.euid, cred.egid, SETUID in cred.effective, SETGID in cred.effective, SETFCAP in cred.effective,
             uids, gids, groupsDenied)
    }
  }

  /** A process inside a new user namespace can mount procfs only for a pid namespace that the user
      namespace owns, and can make nothing in a new tmpfs while its own ids are not mapped there:
      user_namespaces(7), "Interaction of user namespaces and other types of namespaces". */
  ghost predicate HostSound(h: Host) {
    && h.childPid > 1
    && Sane(h.space) && h.space.procs == {}
    && (forall c: Mounter :: Realistic(h.superblock(c)))
    && (forall c: Mounter, source: Option<string>, data: Option<string> :: c.inside && Pid !in c.owned ==> h.superblock(c)(source, "proc", data).None?)
    && (forall c: Mounter, source: Option<string> :: c.inside && !c.mapped ==> NothingFits(h.superblock(c)(source, "tmpfs", None)))
    && (forall n :: n in h.procs ==> n < h.space.nextFs)
    && Where(h.space, DEV_NULL).fs !in h.procs
  }

  predicate NothingFits(fs: Option<Filesystem>) {
    fs.Some? ==> fs.value.fixed
  }

  // ----- the map writes -----

  function AttemptOf(mappings: Option<seq<IdMapping>>): Attempt {
    match mappings
    case None => NoAttempt
    case Some(list) =>
      var text := RenderUidgidMappings(list);
      if text == "" then OpenOnly else Text(KernelReads(text))
  }

  /** A list the kernel can make sense of when it reads it. */
  predicate Readable(list: seq<IdMapping>) {
    WellFormed(list) && |RenderUidgidMappings(list)| < PAGE_SIZE
  }

  /** What the kernel reads is the list itself. */
  lemma AttemptIs(mappings: Option<seq<IdMapping>>)
    ensures AttemptOf(mappings) == match mappings
      case None => NoAttempt
      case Some(list) => if list == [] then OpenOnly else Text(if Readable(list) then Some(list) else None)
  {
    match mappings
    case None =>
    case Some(list) =>
      MappingsRoundTrip(list);
      EmptyText(list);
  }

  // ----- the map files -----

  datatype MapFile = UidMapFile | SetgroupsFile | GidMapFile

  function FileName(f: MapFile): string {
    match f
    case UidMapFile => "uid_map"
    case SetgroupsFile => "setgroups"
    case GidMapFile => "gid_map"
  }

  /** Where a procfs has the map file of a process. */
  function MapPath(pid: nat, f: MapFile): Path {
    [Decimal(pid), FileName(f)]
  }

  lemma DecimalSegment(n: nat)
    ensures Decimal(n) != "" && '/' !in Decimal(n)
  {
    DecimalDigits(n);
    forall i | 0 <= i < |Decimal(n)|
      ensures Decimal(n)[i] != '/'
    {
      assert Decimal(n)[i] in Decimal(n);
    }
  }

  lemma BelowProc(pid: nat, name: string)
    requires name != "" && '/' !in name
    ensures Components("/proc/" + Decimal(pid) + "/" + name) == PROC + [Decimal(pid), name]
  {
    DecimalSegment(pid);
    OneComponent("proc");
    OneComponent(Decimal(pid));
    OneComponent(name);
    assert "/proc/" + Decimal(pid) + "/" + name == ("/proc" + "/" + Decimal(pid)) + "/" + name;
    assert "/proc" == "/" + "proc";
    ComponentsAppend("/proc", Decimal(pid));
    ComponentsAppend("/proc" + "/" + Decimal(pid), name);
  }

  /** The three paths are those that the supervisor writes to. */
  lemma MapFilePaths(pid: nat)
    ensures Components("/proc/" + Decimal(pid) + "/uid_map") == PROC + MapPath(pid, UidMapFile)
    ensures Components("/proc/" + Decimal(pid) + "/setgroups") == PROC + MapPath(pid, SetgroupsFile)
    ensures Components("/proc/" + Decimal(pid) + "/gid_map") == PROC + MapPath(pid, GidMapFile)
  {
    BelowProc(pid, "uid_map");
    BelowProc(pid, "setgroups");
    BelowProc(pid, "gid_map");
    assert "/proc/" + Decimal(pid) + "/uid_map" == "/proc/" + Decimal(pid) + "/" + "uid_map";
    assert "/proc/" + Decimal(pid) + "/setgroups" == "/proc/" + Decimal(pid) + "/" + "setgroups";
    assert "/proc/" + Decimal(pid) + "/gid_map" == "/proc/" + Decimal(pid) + "/" + "gid_map";
  }

  /** An existing file: a map file under the id that is looked for, in an instance of procfs that
      the container's first process has mounted or in one of the host's; or some other file. */
  function FileEntry(h: Host, procs: set<nat>, newPids: bool, pid: nat, f: MapFile, l: Loc, readOnly: bool): Entry {
    if l.path == MapPath(pid, f) && l.fs in procs then
      Entry(if newPids then NewPids else OwnPids, !readOnly, h.takes(l))
    else if l.path == MapPath(pid, f) && l.fs in h.procs then
      Entry(OwnPids, !readOnly, h.takes(l))
    else
      Entry(Foreign, h.opens(l, readOnly), h.takes(l))
  }

  /** What opening a path of a tree for writing finds. A missing file is made if it can be. */
  function EntryAt(h: Host, sp: Space, newPids: bool, pid: nat, f: MapFile): Entry
    requires Rooted(sp.table)
  {
    var q := PROC + MapPath(pid, f);
    match StatAt(sp, q)
    case Exists(File) => FileEntry(h, sp.procs, newPids, pid, f, Where(sp, q), Attrs(sp, q).readOnly)
    case NotFound =>
      Entry(Foreign, FileMade(sp, q).Some?, true)
    case _ => Entry(Foreign, false, false)
  }

  /** A path that leads nowhere is opened exactly if a file can be made there, and then takes
      anything; a directory, or a way through a file, is never opened. */
  lemma EntryElsewhere(h: Host, sp: Space, newPids: bool, pid: nat, f: MapFile)
    requires Rooted(sp.table) && StatAt(sp, PROC + MapPath(pid, f)) != Exists(File)
    ensures var q := PROC + MapPath(pid, f);
            var e := EntryAt(h, sp, newPids, pid, f);
      && e.view == Foreign
      && (e.opens <==>
          StatAt(sp, q) == NotFound && StatAt(sp, PROC + [Decimal(pid)]) == Exists(Dir) && Creatable(sp, q))
      && (e.opens ==> e.takes)
  {
    var q := PROC + MapPath(pid, f);
    assert q[..|q| - 1] == PROC + [Decimal(pid)];
  }

  /** A path that leads to a file is the map file of a process only in an instance of procfs and under
      its own name; any other file is what the host says it is. */
  lemma EntryOnFile(h: Host, sp: Space, newPids: bool, pid: nat, f: MapFile)
    requires Rooted(sp.table) && StatAt(sp, PROC + MapPath(pid, f)) == Exists(File)
    ensures var q := PROC + MapPath(pid, f);
            var l, e := Where(sp, q), EntryAt(h, sp, newPids, pid, f);
            var lists := l.path == MapPath(pid, f) && (l.fs in sp.procs || l.fs in h.procs);
      && e.view == (if !lists then Foreign else if newPids && l.fs in sp.procs then NewPids else OwnPids)
      && (e.opens <==> if lists then !Attrs(sp, q).readOnly else h.opens(l, Attrs(sp, q).readOnly))
      && (e.takes <==> h.takes(l))
  {
  }

  function EntryIn(files: ProcFiles, f: MapFile): Entry {
    match f
    case UidMapFile => files.uidMap
    case SetgroupsFile => files.setgroups
    case GidMapFile => files.gidMap
  }

  // ----- where the supervisor writes -----

  /** The id in the supervisor's paths. */
  function PidFor(req: LaunchRequest, h: Host): nat
    requires h.childPid > 1
  {
    if !req.Skip() && Pid in req.TargetNs() then 1 else h.childPid
  }

  /** What the host has at the paths of the map files. */
  function HostEntry(req: LaunchRequest, h: Host, f: MapFile): Entry
    requires h.childPid > 1 && Rooted(h.space.table)
  {
    EntryAt(h, h.space, false, PidFor(req, h), f)
  }

  /** Whose file that is. */
  function NamedIn(req: LaunchRequest, h: Host, e: Entry): Named
    requires h.childPid > 1
  {
    match e.view
    case OwnPids => if PidFor(req, h) == h.childPid then TheChild else Another
    case NewPids => if PidFor(req, h) == 1 then TheChild else Nobody
    case Foreign => Another
  }

  predicate Reaches(req: LaunchRequest, h: Host, e: Entry)
    requires h.childPid > 1
  {
    NamedIn(req, h, e) == TheChild && e.opens
  }

  // ----- the tree -----

  /** A list that leaves something to write. */
  function Requested(mappings: Option<seq<IdMapping>>): Option<seq<IdMapping>> {
    if mappings.GetOr([]) == [] then None else mappings
  }

  /** Whether the maps cover the ids of a child that mounts inside its user namespace: what it is
      given there is its own id or nothing. */
  predicate OwnIdsMapped(req: LaunchRequest, h: Host)
    requires h.childPid > 1 && Rooted(h.space.table)
  {
    && Requested(req.uidMappings).Some? && Reaches(req, h, HostEntry(req, h, UidMapFile))
    && Requested(req.gidMappings).Some? && Reaches(req, h, HostEntry(req, h, GidMapFile))
  }

  function MounterOf(req: LaunchRequest, h: Host): Mounter
    requires h.childPid > 1 && Rooted(h.space.table)
  {
    if req.MountsInside() then Mounter(true, (set ns | ns in req.TargetNs()), OwnIdsMapped(req, h)) else Mounter(false, {}, true)
  }

  /** What the kernel makes of a new mount of the child. */
  function Mounts(req: LaunchRequest, h: Host): Superblock
    requires h.childPid > 1 && Rooted(h.space.table)
  {
    h.superblock(MounterOf(req, h))
  }

  /** What the child starts from: the mounts of the host, locked for a new user namespace. */
  function StartSpace(req: LaunchRequest, h: Host): (r: Space)
    requires Rooted(h.space.table)
    ensures Rooted(r.table)
  {
    if req.MountsInside() then h.space.(table := Inherited(h.space.table)) else h.space
  }

  lemma InheritedSane(t: Table, n: nat)
    requires Rooted(t) && forall m :: m in t ==> m.root.fs < n
    ensures forall m :: m in Inherited(t) ==> m.root.fs < n
  {
    forall m | m in Inherited(t)
      ensures m.root.fs < n
    {
      var i: nat :| i < |t| && Inherited(t)[i] == m;
      InheritedLocks(t, i);
      assert t[i] in t;
    }
  }

  /** It shows what the host shows. */
  lemma StartIs(req: LaunchRequest, h: Host)
    requires HostSound(h)
    ensures Realistic(Mounts(req, h)) && Sane(StartSpace(req, h))
    ensures StartSpace(req, h).(table := h.space.table) == h.space
    ensures forall q: Path ::
      Where(StartSpace(req, h), q) == Where(h.space, q) && Attrs(StartSpace(req, h), q) == Attrs(h.space, q)
    ensures forall q: Path :: StatAt(StartSpace(req, h), q) == StatAt(h.space, q)
  {
    InheritedSane(h.space.table, h.space.nextFs);
    forall q: Path
      ensures Where(StartSpace(req, h), q) == Where(h.space, q) && Attrs(StartSpace(req, h), q) == Attrs(h.space, q)
    {
      InheritedTop(h.space.table, q);
    }
    forall q: Path
      ensures StatAt(StartSpace(req, h), q) == StatAt(h.space, q)
    {
      SameLookup(StartSpace(req, h), h.space, q);
    }
  }

  function TreeOf(req: LaunchRequest, h: Host): (r: Option<Space>)
    requires h.childPid > 1 && Rooted(h.space.table)
    ensures r.Some? ==> Rooted(r.value.table)
  {
    PivotedTree(Mounts(req, h), StartSpace(req, h), req.fs)
  }

  /** What the container's tree has at the paths of the map files. */
  function TreeEntry(req: LaunchRequest, h: Host, f: MapFile): Entry
    requires h.childPid > 1 && Rooted(h.space.table)
  {
    var tree := TreeOf(req, h);
    if tree.Some? then EntryAt(h, tree.value, Pid in req.TargetNs(), PidFor(req, h), f) else HostEntry(req, h, f)
  }

  /** What the supervisor finds there when it writes. */
  function EntryOf(req: LaunchRequest, h: Host, f: MapFile): Entry
    requires h.childPid > 1 && Rooted(h.space.table)
  {
    if !req.Skip() && Namespace.Mount in req.TargetNs() then TreeEntry(req, h, f) else HostEntry(req, h, f)
  }

  // ----- the last steps of the child -----

  ghost function CredAtPreparation(req: LaunchRequest, h: Host): Credentials.Cred {
    if User in req.TargetNs() then Credentials.EnterUserNamespace(h.cred) else h.cred
  }

  ghost predicate Prepares(req: LaunchRequest, h: Host) {
    Preexec.PrepAccepted(CredAtPreparation(req, h), req.capabilities)
  }

  /** The tree the child is in after the release. */
  function TreeAtEnd(req: LaunchRequest, h: Host): (r: Space)
    requires h.childPid > 1 && Rooted(h.space.table)
    ensures Rooted(r.table)
  {
    if Namespace.Mount in req.TargetNs() then TreeOf(req, h).GetOr(h.space) else h.space
  }

  predicate NeedsConsole(req: LaunchRequest, h: Host) {
    h.terminal.Some? && req.exec.uid.Some?
  }

  /** The tree with the score written and the console bound. */
  function Settled(req: LaunchRequest, h: Host): (r: Option<Space>)
    requires h.childPid > 1 && Rooted(h.space.table)
    ensures r.Some? ==> Rooted(r.value.table)
  {
    var tree := TreeAtEnd(req, h);
    var scored :- if req.setsScore then Written(tree, SCORE, h.takesScore) else Some(tree);
    if NeedsConsole(req, h) then ConsoleBound(Mounts(req, h), scored, h.terminal.value, h.links) else Some(scored)
  }

  const NO_CHANGE := 0xFFFF_FFFF

  /** The terminal can be handed to an id: fchown(2) knows the ids of the namespace alone. */
  predicate Ownable(req: LaunchRequest, h: Host, uid: nat)
    requires h.childPid > 1 && Rooted(h.space.table)
  {
    || uid == NO_CHANGE
    || (if User in req.TargetNs()
        then && Requested(req.uidMappings).Some? && Reaches(req, h, EntryOf(req, h, UidMapFile))
             && MapsId(req.uidMappings.value, uid)
        else MapsId(h.uids, uid))
  }

  /** Without a new user namespace it takes CAP_SYS_ADMIN to bind the console. */
  predicate SettlesOn(req: LaunchRequest, h: Host)
    requires h.childPid > 1 && Rooted(h.space.table)
  {
    && Settled(req, h).Some?
    && (NeedsConsole(req, h) ==>
        && Ownable(req, h, req.exec.uid.value)
        && (User in req.TargetNs() || SYS_ADMIN in h.cred.effective))
  }

  /** The tree the program is looked for in, */
  function TreeForProgram(req: LaunchRequest, h: Host): (r: Space)
    requires h.childPid > 1 && Rooted(h.space.table)
    ensures Rooted(r.table)
  {
    Settled(req, h).GetOr(TreeAtEnd(req, h))
  }

  /** and the directory it is looked for from. The pivot leaves the child in the root. */
  function DirectoryOf(req: LaunchRequest, h: Host): Option<Path>
    requires h.childPid > 1 && Rooted(h.space.table)
  {
    Entered(TreeForProgram(req, h), if Namespace.Mount in req.TargetNs() then [] else h.cwd, req.workingDirectory, h.enters)
  }

  /** Everything of `execute` before the program. */
  predicate Executes(req: LaunchRequest, h: Host)
    requires h.childPid > 1 && Rooted(h.space.table)
  {
    && req.executable.Some? && '\0' !in req.executable.value
    && DirectoryOf(req, h).Some?
    && (req.filtersSyscalls ==> req.noNewPrivs && h.filterAccepted)
    && (req.setsProfile ==> ProfileStaged(TreeForProgram(req, h), h.takesProfile))
  }

  /** Where the program is looked for. */
  function ProgramPaths(req: LaunchRequest, h: Host): seq<Path>
    requires h.childPid > 1 && Rooted(h.space.table)
  {
    if req.executable.Some? && DirectoryOf(req, h).Some?
    then Candidates(DirectoryOf(req, h).value, h.path, req.executable.value)
    else []
  }

  predicate Finds(req: LaunchRequest, h: Host)
    requires h.childPid > 1 && Rooted(h.space.table)
  {
    Search(h.answers, TreeForProgram(req, h), ProgramPaths(req, h)) == Runs
  }

  // ----- the plan -----

  /** The first unshare(2) is granted: the kernel makes the kinds of namespaces asked for, and, unless
      a user namespace is among them or none is asked for, the caller has CAP_SYS_ADMIN. */
  ghost predicate Unshares(req: LaunchRequest, h: Host) {
    var first := Elements(FirstLevel(req.TargetNs(), req.Skip()));
    first <= h.supports && (first == {} || User in first || SYS_ADMIN in h.cred.effective)
  }

  ghost function PlanOf(req: LaunchRequest, h: Host): Plan
    requires HostSound(h)
  {
    var list := req.TargetNs();
    Plan(req.Skip(), User in list, Namespace.Mount in list, Pid in list,
         Decode(Flags(FirstLevel(list, req.Skip()))), Decode(Flags([User])),
         Unshares(req, h), User in h.supports,
         AttemptOf(req.uidMappings), req.Denies(), AttemptOf(req.gidMappings),
         h.childPid, h.Writes(),
         ProcFiles(HostEntry(req, h, UidMapFile), HostEntry(req, h, SetgroupsFile), HostEntry(req, h, GidMapFile)),
         ProcFiles(TreeEntry(req, h, UidMapFile), TreeEntry(req, h, SetgroupsFile), TreeEntry(req, h, GidMapFile)),
         TreeOf(req, h).Some?,
         NeedsConsole(req, h), SettlesOn(req, h), Prepares(req, h), Executes(req, h), Finds(req, h))
  }

  lemma EntriesOfPlan(req: LaunchRequest, h: Host)
    requires HostSound(h)
    ensures UidEntry(PlanOf(req, h)) == EntryOf(req, h, UidMapFile)
    ensures DenyEntry(PlanOf(req, h)) == EntryOf(req, h, SetgroupsFile)
    ensures GidEntry(PlanOf(req, h)) == EntryOf(req, h, GidMapFile)
  {
  }

  lemma NamedInPlan(req: LaunchRequest, h: Host, e: Entry)
    requires HostSound(h)
    ensures NamedBy(PlanOf(req, h), e) == NamedIn(req, h, e)
  {
  }

  lemma FirstCallDecodes(list: seq<Namespace>, skip: bool)
    ensures Decode(Flags(FirstLevel(list, skip))) == Elements(list) - (if skip then {} else {User})
    ensures Decode(Flags([User])) == {User}
  {
    FlagsDecode(FirstLevel(list, skip));
    FirstLevelElements(list, skip);
    FlagsDecode([User]);
    assert Elements([User]) == {User};
  }

  /** What any request comes down to; the namespaces the child ends in are the requested ones, in
      both modes. */
  lemma PlanSound(req: LaunchRequest, h: Host)
    requires HostSound(h)
    ensures Sound(PlanOf(req, h))
    ensures FinalNew(PlanOf(req, h)) == Elements(req.TargetNs())
  {
    var list := req.TargetNs();
    FirstCallDecodes(list, req.Skip());
    assert forall ns :: ns in list <==> ns in Elements(list);
  }
}
