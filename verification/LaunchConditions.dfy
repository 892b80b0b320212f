/** The exact condition of a launch, part by part, on the fields of the request, on the host and on
    the tree of the child (`CreateRequest::wrap`, `setup_console`, `execute`, src/wrap.rs). */
module LaunchConditions {
  import opened Wrappers
  import opened CapabilityBits
  import opened Namespaces
  import opened IdMappings
  import opened MapRules
  import opened Paths
  import opened MountTable
  import opened Hardening
  import opened MountCalls
  import opened PivotFs
  import opened StableNodes
  import opened MountAcceptance
  import opened TreeView
  import opened PlainTrees
  import opened ContainerView
  import opened HardenedTree
  import opened ContainerResults
  import opened Execution
  import Credentials
  import Preexec
  import opened Launch
  import opened LaunchSafety
  import opened Requests
  import opened RequestResults
  import opened Refusals
  import Workload

  // ----- namespaces -----

  /** Both calls of unshare(2) are granted exactly if the kernel makes every kind that is listed, and
      the supervisor has CAP_SYS_ADMIN, asks for nothing but a user namespace, or asks for all of
      it together with a user namespace. */
  lemma UnsharesIff(req: LaunchRequest, h: Host)
    ensures var list := req.namespaces.GetOr([Namespace.Mount, Time, Uts, Pid, Ipc, User]);
      Unshares(req, h) && Reunshares(req, h) <==>
      && (forall ns :: ns in list ==> ns in h.supports)
      && (|| SYS_ADMIN in h.cred.effective
          || (forall ns :: ns in list ==> ns == User)
          || (req.skipTwoStageUserns == Some(true) && User in list))
  {
    var list := req.TargetNs();
    var first := Elements(FirstLevel(list, req.Skip()));
    FirstLevelElements(list, req.Skip());
    assert forall ns :: ns in first <==> ns in list && (req.Skip() || ns != User);
    if first != {} {
      var ns :| ns in first;
      assert ns in list && (req.Skip() || ns != User);
    }
    assert first <= h.supports <==> forall ns :: ns in first ==> ns in h.supports;
  }

  // ----- the score and the console -----

  /** What the child sees after the release: its own tree, or the host's. */
  function TreeOfChild(req: LaunchRequest, h: Host): (r: Space)
    requires h.childPid > 1 && Rooted(h.space.table)
    ensures Rooted(r.table)
  {
    if Namespace.Mount in req.namespaces.GetOr([Namespace.Mount, Time, Uts, Pid, Ipc, User])
    then TreeOf(req, h).GetOr(h.space) else h.space
  }

  /** A user id that fchown(2) knows: -1, or one that the map of the child's user namespace covers,
      be it the one that was written for it or that of the supervisor. */
  predicate OwnerKnown(req: LaunchRequest, h: Host, uid: nat)
    requires h.childPid > 1 && Rooted(h.space.table)
  {
    || uid == 0xFFFF_FFFF
    || exists m :: m in (
         if User !in req.namespaces.GetOr([Namespace.Mount, Time, Uts, Pid, Ipc, User]) then h.uids
         else if Reaches(req, h, EntryOf(req, h, UidMapFile)) then req.uidMappings.GetOr([])
         else []) && m.baseNsid <= uid < m.baseNsid + m.remapCount
  }

  /** The child's tree with the score written and the terminal over /dev/console. */
  function FinalTree(req: LaunchRequest, h: Host): (r: Option<Space>)
    requires h.childPid > 1 && Rooted(h.space.table)
    ensures r.Some? ==> Rooted(r.value.table)
  {
    var tree := TreeOfChild(req, h);
    var scored :- if req.setsScore then Written(tree, ["proc", "self", "oom_score_adj"], h.takesScore) else Some(tree);
    if h.terminal.Some? && req.exec.uid.Some?
    then ConsoleBound(Mounts(req, h), scored, h.terminal.value, h.links) else Some(scored)
  }

  /** The terminal may be bound, and handed to a known id. */
  predicate ConsoleGranted(req: LaunchRequest, h: Host)
    requires h.childPid > 1 && Rooted(h.space.table)
  {
    var list := req.namespaces.GetOr([Namespace.Mount, Time, Uts, Pid, Ipc, User]);
    h.terminal.Some? && req.exec.uid.Some? ==>
      && OwnerKnown(req, h, req.exec.uid.value)
      && if User in list then req.skipTwoStageUserns == Some(true) && Namespace.Mount in list
         else SYS_ADMIN in h.cred.effective
  }

  lemma SettlesIff(req: LaunchRequest, h: Host)
    requires HostSound(h)
    ensures ConsoleAllowed(req, h) && SettlesOn(req, h) <==> FinalTree(req, h).Some? && ConsoleGranted(req, h)
    ensures FinalTree(req, h).Some? ==> TreeForProgram(req, h) == FinalTree(req, h).value
  {
    assert SCORE == ["proc", "self", "oom_score_adj"];
  }

  // ----- before the program -----

  /** Where a path text leads the child: from the root after a pivot, or from the supervisor's
      directory. */
  function Place(req: LaunchRequest, h: Host, text: string): Path {
    if text != "" && text[0] == '/' then Components(text)
    else if Namespace.Mount in req.namespaces.GetOr([Namespace.Mount, Time, Uts, Pid, Ipc, User]) then Components(text)
    else h.cwd + Components(text)
  }

  /** A working directory is there and may be entered. */
  predicate Enterable(req: LaunchRequest, h: Host, tree: Space, text: string)
    requires Rooted(tree.table)
  {
    var q := Place(req, h, text);
    text != "" && StatAt(tree, q) == Exists(Dir) && h.enters(tree, Where(tree, q))
  }

  /** One of the two nodes of AppArmor takes the profile, the older only where the newer is missing. */
  predicate ProfileNode(h: Host, tree: Space)
    requires Rooted(tree.table)
  {
    var newer, older := ["proc", "self", "attr", "apparmor", "exec"], ["proc", "self", "attr", "exec"];
    || (StatAt(tree, newer) == Exists(File) && h.takesProfile(Where(tree, newer), Attrs(tree, newer).readOnly))
    || (&& StatAt(tree, newer) == NotFound
        && StatAt(tree, older) == Exists(File) && h.takesProfile(Where(tree, older), Attrs(tree, older).readOnly))
  }

  lemma DirectoryIs(req: LaunchRequest, h: Host)
    requires HostSound(h)
    ensures var tree := TreeForProgram(req, h);
      DirectoryOf(req, h) == match req.workingDirectory
        case None => Some(if Namespace.Mount in req.namespaces.GetOr([Namespace.Mount, Time, Uts, Pid, Ipc, User]) then [] else h.cwd)
        case Some(text) => if Enterable(req, h, tree, text) then Some(Place(req, h, text)) else None
  {
    if req.workingDirectory.Some? {
      assert [] + Components(req.workingDirectory.value) == Components(req.workingDirectory.value);
    }
  }

  lemma ProfileStagedIff(h: Host, tree: Space)
    requires Rooted(tree.table)
    ensures ProfileStaged(tree, h.takesProfile) <==> ProfileNode(h, tree)
  {
    assert OfSelf(["attr", "apparmor", "exec"]) == ["proc", "self", "attr", "apparmor", "exec"];
    assert OfSelf(["attr", "exec"]) == ["proc", "self", "attr", "exec"];
  }

  /** `execute` gets to the program exactly if there is a name that a C string can hold, the working
      directory can be entered, a filter comes with no_new_privs and is one, and the profile
      can be staged. */
  lemma ExecutesIff(req: LaunchRequest, h: Host)
    requires HostSound(h)
    ensures var tree := TreeForProgram(req, h);
      Executes(req, h) <==>
      && req.executable.Some? && '\0' !in req.executable.value
      && (req.workingDirectory.Some? ==> Enterable(req, h, tree, req.workingDirectory.value))
      && (req.filtersSyscalls ==> req.noNewPrivs && h.filterAccepted)
      && (req.setsProfile ==> ProfileNode(h, tree))
  {
    DirectoryIs(req, h);
    ProfileStagedIff(h, TreeForProgram(req, h));
  }

  // ----- the program -----

  /** A path text seen from a directory. */
  function From(cwd: Path, text: string): Path {
    (if text != "" && text[0] == '/' then [] else cwd) + Components(text)
  }

  /** The `i`-th place where a program is looked for. */
  predicate LookedFor(cwd: Path, dirs: seq<string>, name: string, i: nat, q: Path) {
    if '/' in name then i == 0 && q == From(cwd, name)
    else name != "" && i < |dirs| && q == From(cwd, dirs[i]) + [name]
  }

  lemma CandidatesAre(cwd: Path, dirs: seq<string>, name: string, i: nat, q: Path)
    ensures LookedFor(cwd, dirs, name, i, q) <==> i < |Candidates(cwd, dirs, name)| && q == Candidates(cwd, dirs, name)[i]
  {
    assert [] + Components(name) == Components(name);
    if i < |dirs| {
      assert [] + Components(dirs[i]) == Components(dirs[i]);
    }
  }

  /** Something to run at a place. */
  predicate RunsAt(h: Host, tree: Space, q: Path)
    requires Rooted(tree.table)
  {
    StatAt(tree, q) == Exists(File) && !Attrs(tree, q).safe && h.answers(tree, Where(tree, q)) == Runs
  }

  /** A place that is passed over: no file, a mount with noexec, or the kernel's answer. */
  predicate PassedAt(h: Host, tree: Space, q: Path)
    requires Rooted(tree.table)
  {
    StatAt(tree, q) != Exists(File) || Attrs(tree, q).safe || h.answers(tree, Where(tree, q)) == PassedOver
  }

  /** One of the places has something to run, and all before it are passed over. */
  ghost predicate ProgramFound(h: Host, tree: Space, cwd: Path, name: string)
    requires Rooted(tree.table)
  {
    exists i: nat, q: Path :: LookedFor(cwd, h.path, name, i, q) && RunsAt(h, tree, q)
      && forall j: nat, p: Path :: j < i && LookedFor(cwd, h.path, name, j, p) ==> PassedAt(h, tree, p)
  }

  lemma ProgramFoundIff(h: Host, tree: Space, cwd: Path, name: string)
    requires Rooted(tree.table)
    ensures Search(h.answers, tree, Candidates(cwd, h.path, name)) == Runs <==> ProgramFound(h, tree, cwd, name)
  {
    var paths := Candidates(cwd, h.path, name);
    SearchRunsIff(h.answers, tree, paths);
    forall i: nat, q: Path
      ensures LookedFor(cwd, h.path, name, i, q) <==> i < |paths| && q == paths[i]
    {
      CandidatesAre(cwd, h.path, name, i, q);
    }
    if i: nat :| i < |paths| && FirstToRun(h.answers, tree, paths, i) {
      assert LookedFor(cwd, h.path, name, i, paths[i]) && RunsAt(h, tree, paths[i]);
    }
    if ProgramFound(h, tree, cwd, name) {
      var i: nat, q: Path :| LookedFor(cwd, h.path, name, i, q) && RunsAt(h, tree, q)
        && forall j: nat, p: Path :: j < i && LookedFor(cwd, h.path, name, j, p) ==> PassedAt(h, tree, p);
      forall j | 0 <= j < i
        ensures AnswerAt(h.answers, tree, paths[j]) == PassedOver
      {
        assert LookedFor(cwd, h.path, name, j, paths[j]);
      }
      assert FirstToRun(h.answers, tree, paths, i);
    }
  }

  lemma FindsIff(req: LaunchRequest, h: Host)
    requires HostSound(h)
    ensures Finds(req, h) <==>
      && req.executable.Some? && DirectoryOf(req, h).Some?
      && ProgramFound(h, TreeForProgram(req, h), DirectoryOf(req, h).value, req.executable.value)
  {
    if req.executable.Some? && DirectoryOf(req, h).Some? {
      ProgramFoundIff(h, TreeForProgram(req, h), DirectoryOf(req, h).value, req.executable.value);
    }
  }

  // ----- the whole condition -----

  /** The directory of the child when it starts the program. */
  function DirectoryAtStart(req: LaunchRequest, h: Host): Path {
    match req.workingDirectory
    case None => if Namespace.Mount in req.namespaces.GetOr([Namespace.Mount, Time, Uts, Pid, Ipc, User]) then [] else h.cwd
    case Some(text) => Place(req, h, text)
  }

  /** In a tree there is a program to start: it has a name that a C string can hold, the working
      directory can be entered, a filter comes with no_new_privs and is one, the profile can be
      staged, and the program is found. */
  ghost predicate Starts(req: LaunchRequest, h: Host, tree: Space)
    requires Rooted(tree.table)
  {
    && req.executable.Some? && '\0' !in req.executable.value
    && (req.workingDirectory.Some? ==> Enterable(req, h, tree, req.workingDirectory.value))
    && (req.filtersSyscalls ==> req.noNewPrivs && h.filterAccepted)
    && (req.setsProfile ==> ProfileNode(h, tree))
    && ProgramFound(h, tree, DirectoryAtStart(req, h), req.executable.value)
  }

  lemma StartsIff(req: LaunchRequest, h: Host)
    requires HostSound(h)
    ensures Executes(req, h) && Finds(req, h) <==> Starts(req, h, TreeForProgram(req, h))
  {
    ExecutesIff(req, h);
    FindsIff(req, h);
    DirectoryIs(req, h);
  }

  /** Whatever a request asks for, it can be launched exactly if: the kernel makes every kind of
      namespace it lists for this supervisor; its tree can be built, hardened and pivoted to; no map
      write is refused; the score is written; a terminal can be bound over the console and handed
      over; the credentials can be prepared; and there is a program to start in that tree. */
  lemma LaunchesExactlyIf(req: LaunchRequest, h: Host)
    requires HostSound(h)
    ensures var list := req.namespaces.GetOr([Namespace.Mount, Time, Uts, Pid, Ipc, User]);
            var skip := req.skipTwoStageUserns == Some(true);
            var inside := User in list;
            var cred := if inside then Credentials.EnterUserNamespace(h.cred) else h.cred;
      Launches(req, h) <==>
      && (forall ns :: ns in list ==> ns in h.supports)
      && (SYS_ADMIN in h.cred.effective || (forall ns :: ns in list ==> ns == User) || (skip && inside))
      && (Namespace.Mount in list ==> TreeBuilds(req, h))
      && ConfigurationAccepted(PlanOf(req, h))
      && FinalTree(req, h).Some? && ConsoleGranted(req, h)
      && Preexec.PrepAccepted(cred, req.capabilities)
      && Starts(req, h, FinalTree(req, h).value)
  {
    LaunchesIff(req, h);
    UnsharesIff(req, h);
    SettlesIff(req, h);
    StartsIff(req, h);
  }

  // ----- what is never launched -----

  /** A filter without no_new_privs. */
  lemma UnlockedFilterNeverLaunches(req: LaunchRequest, h: Host)
    requires HostSound(h) && req.filtersSyscalls && !req.noNewPrivs
    ensures !Launches(req, h)
  {
    LaunchesIff(req, h);
    ExecutesIff(req, h);
  }

  /** No program, or a name that no C string can hold. */
  lemma NamelessNeverLaunches(req: LaunchRequest, h: Host)
    requires HostSound(h) && (req.executable == None || '\0' in req.executable.value)
    ensures !Launches(req, h)
  {
    LaunchesIff(req, h);
    ExecutesIff(req, h);
  }

  /** A working directory that is not there or may not be entered. */
  lemma UnenterableNeverLaunches(req: LaunchRequest, h: Host, text: string)
    requires HostSound(h) && req.workingDirectory == Some(text) && !Enterable(req, h, TreeForProgram(req, h), text)
    ensures !Launches(req, h)
  {
    LaunchesIff(req, h);
    ExecutesIff(req, h);
  }

  /** A profile that no node takes, */
  lemma UnstagedProfileNeverLaunches(req: LaunchRequest, h: Host)
    requires HostSound(h) && req.setsProfile && !ProfileNode(h, TreeForProgram(req, h))
    ensures !Launches(req, h)
  {
    LaunchesIff(req, h);
    ExecutesIff(req, h);
  }

  // ----- a plain request -----

  /** Everything by default, in a root file system of its own, with both maps. */
  predicate Plain(req: LaunchRequest) {
    && Defaults(req) && req.capabilities == None && !req.setsScore
    && req.fs.rootfs.Some? && !req.fs.CopiesHostRoot()
    && req.fs.mounts == None && req.fs.mutations == None && req.fs.maskedPaths == None && req.fs.readonlyPaths == None
    && Requested(req.uidMappings).Some? && Requested(req.gidMappings).Some?
  }

  /** What the kernel mounts for a child outside the new user namespace. */
  function ForSupervisor(h: Host): Superblock {
    h.superblock(Mounter(false, {}, true))
  }

  lemma PlainTreeBuilds(req: LaunchRequest, h: Host)
    requires HostSound(h) && Plain(req)
    ensures TreeBuilds(req, h) <==>
      && StatAt(h.space, Source(req.fs) + PROC) == Exists(Dir) && Source(req.fs) != []
      && ProcMountable(ForSupervisor(h))
  {
    StartIs(req, h);
    PlainTreeIff(Mounts(req, h), StartSpace(req, h), req.fs);
  }

  lemma PlainEntry(req: LaunchRequest, h: Host, f: MapFile)
    requires HostSound(h) && Plain(req) && ProcLists(req, h, f) && Outside(req.fs, DEV_NULL)
    ensures TreeOf(req, h).Some? ==> OrdinaryPaths(req, h, f) && OwnOrRefused(req, h, f) && PathClear(req, h, f)
  {
    assert Targets([]) == {} && ContainerView.Named([]) == {};
    TreeHits(req, h, f);
  }

  lemma PlainConfiguration(req: LaunchRequest, h: Host)
    requires HostSound(h) && Plain(req) && Outside(req.fs, DEV_NULL)
    requires ProcLists(req, h, UidMapFile) && ProcLists(req, h, SetgroupsFile) && ProcLists(req, h, GidMapFile)
    ensures TreeOf(req, h).Some? ==> (ConfigurationAccepted(PlanOf(req, h)) <==> ListsAccepted(req, h))
  {
    PlainEntry(req, h, UidMapFile);
    PlainEntry(req, h, SetgroupsFile);
    PlainEntry(req, h, GidMapFile);
    OrdinaryConfigurationIff(req, h);
  }

  lemma PlainNamespaces(req: LaunchRequest, h: Host)
    requires Plain(req)
    ensures var list := req.namespaces.GetOr([Namespace.Mount, Time, Uts, Pid, Ipc, User]);
      && ((forall ns :: ns in list ==> ns in h.supports) <==> {Namespace.Mount, Time, Uts, Pid, Ipc, User} <= h.supports)
      && Namespace.Mount in list && User in list
  {
    var list := req.namespaces.GetOr([Namespace.Mount, Time, Uts, Pid, Ipc, User]);
    assert forall ns :: ns in list <==> ns in {Namespace.Mount, Time, Uts, Pid, Ipc, User};
  }

  lemma PlainFinalTree(req: LaunchRequest, h: Host)
    requires HostSound(h) && Plain(req)
    ensures ConsoleGranted(req, h) <==> h.terminal.None? || req.exec.uid.None?
    ensures ConsoleGranted(req, h) ==> FinalTree(req, h) == Some(TreeOfChild(req, h))
  {
  }

  /** A plain request can be launched exactly if the kernel makes the default namespaces for a
      supervisor with CAP_SYS_ADMIN, the root file system has a directory for /proc and is not the
      host's, the kernel takes both maps from this supervisor, no terminal is in the way, and the
      program is named, may be reached and is found. */
  lemma PlainLaunchesIff(req: LaunchRequest, h: Host)
    requires HostSound(h) && Plain(req) && Outside(req.fs, DEV_NULL)
    requires ProcLists(req, h, UidMapFile) && ProcLists(req, h, SetgroupsFile) && ProcLists(req, h, GidMapFile)
    ensures Launches(req, h) <==>
      && {Namespace.Mount, Time, Uts, Pid, Ipc, User} <= h.supports && SYS_ADMIN in h.cred.effective
      && StatAt(h.space, Source(req.fs) + PROC) == Exists(Dir) && Source(req.fs) != []
      && ProcMountable(ForSupervisor(h))
      && ListsAccepted(req, h)
      && (h.terminal.None? || req.exec.uid.None?)
      && Starts(req, h, TreeOfChild(req, h))
  {
    LaunchesExactlyIf(req, h);
    PlainNamespaces(req, h);
    PlainTreeBuilds(req, h);
    TreeIff(req, h);
    PlainConfiguration(req, h);
    PlainFinalTree(req, h);
    Workload.PreparesIff(req, h);
  }
}
