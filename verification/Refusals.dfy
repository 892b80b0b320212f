/** Requests that are never launched, whatever the schedule
    (`CreateRequest::wrap`, `pivot_fs`, `execute`, src/wrap.rs). */
module Refusals {
  import opened Wrappers
  import opened CapabilityBits
  import opened Namespaces
  import opened IdMappings
  import opened MapRules
  import opened Paths
  import opened MountTable
  import opened Hardening
  import opened MountCalls
  import opened PivotFs
  import opened StableNodes
  import opened TreeView
  import opened PlainTrees
  import opened ContainerView
  import opened HardenedTree
  import opened ContainerResults
  import opened Execution
  import opened Launch
  import opened LaunchSafety
  import opened Requests
  import opened RequestResults

  ghost predicate Launches(req: LaunchRequest, h: Host)
    requires HostSound(h)
  {
    exists s :: Reachable(PlanOf(req, h), s) && s.ev.launched
  }

  lemma LaunchesIff(req: LaunchRequest, h: Host)
    requires HostSound(h)
    ensures Launches(req, h) <==>
      && Unshares(req, h) && Reunshares(req, h)
      && (Namespace.Mount in req.TargetNs() ==> TreeBuilds(req, h))
      && ConfigurationAccepted(PlanOf(req, h))
      && ConsoleAllowed(req, h) && SettlesOn(req, h)
      && Prepares(req, h)
      && Executes(req, h)
      && Finds(req, h)
  {
    LaunchIff(req, h);
  }

  // ----- privilege -----

  /** Without CAP_SYS_ADMIN nothing is launched that asks for a namespace in the first call, and for
      no user namespace along with it: not the default request, for one. */
  lemma UnprivilegedNeverLaunches(req: LaunchRequest, h: Host, ns: Namespace)
    requires HostSound(h) && SYS_ADMIN !in h.cred.effective
    requires ns in req.TargetNs() && ns != User && (req.Skip() ==> User !in req.TargetNs())
    ensures !Launches(req, h)
  {
    FirstCallRefused(req, h, ns);
    LaunchesIff(req, h);
  }

  lemma FirstCallRefused(req: LaunchRequest, h: Host, ns: Namespace)
    requires SYS_ADMIN !in h.cred.effective
    requires ns in req.TargetNs() && ns != User && (req.Skip() ==> User !in req.TargetNs())
    ensures !Unshares(req, h)
  {
    FirstLevelElements(req.TargetNs(), req.Skip());
    assert ns in Elements(FirstLevel(req.TargetNs(), req.Skip()));
  }

  // ----- the owner of the mount namespace -----

  lemma ProcRefused(sb: Superblock, sp: Space, req: FsRequest)
    requires Rooted(sp.table) && !ProcMountable(sb)
    ensures Assembled(sb, sp, req).None?
  {
  }

  /** In skip mode a user and a mount namespace without a pid namespace are never enough: procfs
      belongs to the pid namespace of the supervisor. */
  lemma ForeignPidsNeverLaunch(req: LaunchRequest, h: Host)
    requires HostSound(h) && req.MountsInside() && Namespace.Mount in req.TargetNs() && Pid !in req.TargetNs()
    ensures !Launches(req, h)
  {
    var c := MounterOf(req, h);
    assert c.inside && Pid !in c.owned;
    assert h.superblock(c)(Some("proc"), "proc", None).None?;
    ProcRefused(Mounts(req, h), StartSpace(req, h), req.fs);
    LaunchesIff(req, h);
  }

  lemma StagingRefused(sb: Superblock, sp: Space, req: FsRequest)
    requires Realistic(sb) && Sane(sp) && req.CopiesHostRoot() && !TmpfsUsable(sb)
    ensures Assembled(sb, sp, req).None?
  {
    PrivateRootKeeps(sb, sp);
    StageMadeIff(sb, sp, req);
    assert Staged(sb, sp, req).None?;
  }

  /** Nor, for the host's own root, as long as the child's own ids are not mapped: it cannot make
      the directories of the staging area. */
  lemma UnmappedNeverLaunches(req: LaunchRequest, h: Host)
    requires HostSound(h) && req.MountsInside() && Namespace.Mount in req.TargetNs()
    requires req.fs.rootfs == Some("/")
    requires || req.uidMappings.GetOr([]) == [] || !Reaches(req, h, HostEntry(req, h, UidMapFile))
             || req.gidMappings.GetOr([]) == [] || !Reaches(req, h, HostEntry(req, h, GidMapFile))
    ensures !Launches(req, h)
  {
    var c := MounterOf(req, h);
    assert c.inside && !c.mapped;
    StartIs(req, h);
    assert NothingFits(h.superblock(c)(Some("tmpfs"), "tmpfs", None));
    StagingRefused(Mounts(req, h), StartSpace(req, h), req.fs);
    LaunchesIff(req, h);
  }

  /** Nor with a plain bind of a directory of the host that has a mount below it, whatever else is
      mounted: the mounts are locked there. */
  lemma SubmountNeverLaunches(req: LaunchRequest, h: Host, i: nat, k: nat)
    requires HostSound(h) && req.MountsInside() && Namespace.Mount in req.TargetNs()
    requires i < |req.fs.mounts.GetOr([])| && 0 < k < |h.space.table|
    requires var m := req.fs.mounts.GetOr([])[i];
      && m.bind && !m.recurse && m.source.Some?
      && Outside(req.fs, Components(m.source.value))
      && StatAt(h.space, Components(m.source.value)) == Exists(Dir)
      && SitsBelow(h.space.table, Components(m.source.value), k)
    ensures !Launches(req, h)
  {
    var src := Components(req.fs.mounts.GetOr([])[i].source.value);
    StartIs(req, h);
    InheritedLockedBelowIff(h.space.table, src);
    assert StatAt(StartSpace(req, h), src) == Exists(Dir);
    LockedBindRefused(Mounts(req, h), StartSpace(req, h), req.fs, i);
    LaunchesIff(req, h);
  }

  // ----- the program and the score -----

  /** A program that the tree does not hold at any place it is looked for is never launched. */
  lemma MissingProgramNeverLaunches(req: LaunchRequest, h: Host)
    requires HostSound(h)
    requires forall q :: q in ProgramPaths(req, h) ==>
      StatAt(TreeForProgram(req, h), q) != Exists(File) || Attrs(TreeForProgram(req, h), q).safe
    ensures !Launches(req, h)
  {
    NothingToRun(h.answers, TreeForProgram(req, h), ProgramPaths(req, h));
    LaunchesIff(req, h);
  }

  /** Everything of the child's tree after the release is as the pivot left it. */
  predicate Unsettled(req: LaunchRequest, h: Host) {
    !req.setsScore && !NeedsConsole(req, h) && req.workingDirectory == None
  }

  /** The program is given as an absolute path. */
  predicate NamedByPath(req: LaunchRequest, r: Path) {
    && req.executable.Some? && req.executable.value != "" && req.executable.value[0] == '/'
    && Components(req.executable.value) == r
  }

  lemma OneToRun(answers: (Space, Loc) -> Answer, sp: Space, q: Path)
    requires Rooted(sp.table)
    ensures Search(answers, sp, [q]) == AnswerAt(answers, sp, q)
  {
  }

  lemma SearchesOnePlace(req: LaunchRequest, h: Host)
    requires HostSound(h) && Unsettled(req, h) && Namespace.Mount in req.TargetNs() && TreeOf(req, h).Some?
    requires req.executable.Some? && req.executable.value != "" && req.executable.value[0] == '/'
    ensures TreeForProgram(req, h) == TreeOf(req, h).value
    ensures ProgramPaths(req, h) == [Components(req.executable.value)]
  {
    assert '/' in req.executable.value;
  }

  /** A program named by its path, away from /proc, from the requested mounts and from the masked
      paths, is found exactly if the kernel runs the root file system's own file of that path. */
  lemma RootfsProgramIff(req: LaunchRequest, h: Host, r: Path)
    requires HostSound(h) && Apart(Covers(req.fs), r) && Apart(MaskedIn(req.fs), r)
    requires StatAt(h.space, Source(req.fs) + r) == Exists(File)
    ensures Unsettled(req, h) && Namespace.Mount in req.TargetNs() && TreeOf(req, h).Some? && NamedByPath(req, r) ==>
      (Finds(req, h) <==>
       && !Attrs(h.space, Source(req.fs) + r).safe
       && h.answers(TreeOf(req, h).value, Where(h.space, Source(req.fs) + r)) == Runs)
  {
    if Unsettled(req, h) && Namespace.Mount in req.TargetNs() && TreeOf(req, h).Some? && NamedByPath(req, r) {
      var q := Source(req.fs) + r;
      StartIs(req, h);
      assert Where(StartSpace(req, h), q) == Where(h.space, q) && StatAt(StartSpace(req, h), q) == StatAt(h.space, q);
      ContainerShowsRootfs(Mounts(req, h), StartSpace(req, h), req.fs, r);
      SearchesOnePlace(req, h);
      OneToRun(h.answers, TreeOf(req, h).value, r);
    }
  }

  lemma Unwritable(sp: Space, takes: (Loc, bool) -> bool)
    requires Rooted(sp.table) && StatAt(sp, SCORE) == NotFound && StatAt(sp, PROC + ["self"]) == NotFound
    ensures Written(sp, SCORE, takes).None?
  {
    assert SCORE == PROC + ["self", "oom_score_adj"];
    assert SCORE[..|SCORE| - 1] == PROC + ["self"];
  }

  lemma ScoreRefused(req: LaunchRequest, h: Host)
    requires HostSound(h) && Namespace.Mount in req.TargetNs() && req.setsScore
    requires req.fs.mounts == None && req.fs.maskedPaths == Some(["/proc"]) && TreeOf(req, h).Some?
    ensures !SettlesOn(req, h)
  {
    ProcEmptied(req, h, ["self", "oom_score_adj"]);
    ProcEmptied(req, h, ["self"]);
    assert SCORE == PROC + ["self", "oom_score_adj"];
    Unwritable(TreeOf(req, h).value, h.takesScore);
  }

  /** With "/proc" masked the score cannot be written. */
  lemma MaskedScoreNeverLaunches(req: LaunchRequest, h: Host)
    requires HostSound(h) && Namespace.Mount in req.TargetNs() && req.setsScore
    requires req.fs.mounts == None && req.fs.maskedPaths == Some(["/proc"])
    ensures !Launches(req, h)
  {
    LaunchesIff(req, h);
    if TreeOf(req, h).Some? {
      ScoreRefused(req, h);
    } else {
      TreeIff(req, h);
    }
  }

  lemma TreeIff(req: LaunchRequest, h: Host)
    requires HostSound(h)
    ensures TreeOf(req, h).Some? <==> TreeBuilds(req, h)
  {
    StartIs(req, h);
    PivotedTreeIff(Mounts(req, h), StartSpace(req, h), req.fs);
  }

  // ----- default requests that cannot be launched -----

  /** The namespaces, the mode and the denial of setgroups(2) that a request gets by default. */
  predicate Defaults(req: LaunchRequest) {
    req.namespaces == None && req.skipTwoStageUserns == None && req.setgroupsDeny == None
  }

  lemma RefusedNeverLaunches(req: LaunchRequest, h: Host)
    requires HostSound(h) && Defaults(req)
    requires TreeOf(req, h).Some? ==>
      var e := TreeEntry(req, h, SetgroupsFile); !e.opens || (NamedIn(req, h, e) != TheChild && !e.takes)
    ensures !Launches(req, h)
  {
    StartIs(req, h);
    LaunchesIff(req, h);
    PivotedTreeIff(Mounts(req, h), StartSpace(req, h), req.fs);
    assert Namespace.Mount in req.TargetNs() && User in req.TargetNs();
    if TreeOf(req, h).Some? {
      RefusedElsewhere(req, h);
    }
  }

  /** With the host's /proc bound over the container's, a default request writes to the first
      process of the host and is never launched, unless that file should take the text. */
  lemma HostProcNeverLaunches(req: LaunchRequest, h: Host)
    requires HostSound(h) && Defaults(req)
    requires req.fs.mounts == Some([PROC_BIND]) && req.fs.maskedPaths == None && req.fs.readonlyPaths == None
    requires OwnFile(h, 1, SetgroupsFile) && Outside(req.fs, PROC + MapPath(1, SetgroupsFile))
    requires !h.takes(Where(h.space, PROC + MapPath(1, SetgroupsFile)))
    ensures !Launches(req, h)
  {
    if TreeOf(req, h).Some? {
      HostProcBound(req, h, SetgroupsFile);
    }
    RefusedNeverLaunches(req, h);
  }

  /** With "/proc" masked or read-only it is never launched either. */
  lemma HardenedProcNeverLaunches(req: LaunchRequest, h: Host)
    requires HostSound(h) && Defaults(req) && req.fs.mounts == None && ProcLists(req, h, SetgroupsFile)
    requires req.fs.maskedPaths == Some(["/proc"]) || (req.fs.maskedPaths == None && req.fs.readonlyPaths == Some(["/proc"]))
    ensures !Launches(req, h)
  {
    if TreeOf(req, h).Some? {
      if req.fs.maskedPaths == None {
        ProcSealed(req, h, SetgroupsFile);
      } else {
        ProcMasked(req, h, SetgroupsFile);
      }
    }
    RefusedNeverLaunches(req, h);
  }
}
