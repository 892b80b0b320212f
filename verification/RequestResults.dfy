/** What a launch comes to, from the request and the host: whose map files the supervisor writes
    to, which writes are accepted, and when a workload is launched at all
    (`CreateRequest::wrap`, `prepare_userns`, src/wrap.rs). */
module RequestResults {
  import opened Wrappers
  import opened CapabilityBits
  import opened Namespaces
  import opened IdMappings
  import opened MapRules
  import opened Paths
  import opened MountTable
  import opened Hardening
  import opened MountCalls
  import opened PivotFs
  import opened StableNodes
  import opened TreeView
  import opened ContainerView
  import opened HardenedTree
  import opened Execution
  import opened ContainerResults
  import Credentials
  import Preexec
  import opened Launch
  import opened LaunchSafety
  import opened LaunchResults
  import opened Requests

  // ----- the map files of the container's tree -----

  /** The path of a map file in the container. */
  function FilePath(req: LaunchRequest, h: Host, f: MapFile): Path
    requires h.childPid > 1
  {
    PROC + MapPath(PidFor(req, h), f)
  }

  /** A new instance of procfs has the map files of the process that is looked for. */
  predicate ProcLists(req: LaunchRequest, h: Host, f: MapFile)
    requires h.childPid > 1 && Rooted(h.space.table)
  {
    ProcStat(Mounts(req, h), MapPath(PidFor(req, h), f)) == Exists(File)
  }

  /** Instances of procfs in the container's tree are younger than anything of the host. */
  lemma TreeProcs(req: LaunchRequest, h: Host)
    requires HostSound(h)
    ensures TreeOf(req, h).Some? ==>
      forall n :: n in TreeOf(req, h).value.procs ==> h.space.nextFs <= n && n !in h.procs
  {
    StartIs(req, h);
    PivotedTreeIff(Mounts(req, h), StartSpace(req, h), req.fs);
    AssembledGrows(Mounts(req, h), StartSpace(req, h), req.fs);
  }

  lemma TreeHits(req: LaunchRequest, h: Host, f: MapFile)
    requires HostSound(h) && !req.Skip() && ProcLists(req, h, f)
    requires Apart(Targets(req.fs.mounts.GetOr([])), FilePath(req, h, f))
    requires Apart(MaskedIn(req.fs), FilePath(req, h, f))
    ensures TreeOf(req, h).Some? ==>
      && NamedIn(req, h, TreeEntry(req, h, f)) == TheChild
      && (TreeEntry(req, h, f).opens <==> !ListedAbove(Listed(req.fs), FilePath(req, h, f)))
  {
    StartIs(req, h);
    ContainerShowsProc(Mounts(req, h), StartSpace(req, h), req.fs, MapPath(PidFor(req, h), f));
  }

  lemma NullOfTree(req: LaunchRequest, h: Host)
    requires HostSound(h) && Outside(req.fs, DEV_NULL)
    ensures var before := Assembled(Mounts(req, h), StartSpace(req, h), req.fs);
      before.Some? ==>
      Where(before.value, DEV_NULL).fs < h.space.nextFs && Where(before.value, DEV_NULL).fs !in h.procs
  {
    StartIs(req, h);
    AssembledOutside(Mounts(req, h), StartSpace(req, h), req.fs, DEV_NULL);
    assert Where(StartSpace(req, h), DEV_NULL) == Where(h.space, DEV_NULL);
    assert Top(h.space.table, DEV_NULL) in h.space.table;
  }

  /** A file at or below a masked path is gone, or it is the null device. */
  lemma MaskedFile(before: Space, after: Space, req: LaunchRequest, r: Path)
    requires ContainerTree(before, after, req.fs) && !Apart(MaskedIn(req.fs), r)
    requires StatAt(before, Components(req.fs.Root()) + r) == Exists(File)
    ensures StatAt(after, r) == NotFound
      || (StatAt(after, r) == Exists(File) && Where(after, r) == Where(before, DEV_NULL))
  {
    var root := Components(req.fs.Root());
    assert ContainerSight(before, root, after, MaskedIn(req.fs), Listed(req.fs), r);
    var m :| m in MaskedIn(req.fs) && m <= r;
    if m != r {
      PrefixExtend(root, m, r);
      WayIsDirs(before, root + m, root + r);
      assert HiddenBelow(before, root, MaskedIn(req.fs), r);
    }
  }

  lemma TreeMasked(req: LaunchRequest, h: Host, f: MapFile)
    requires HostSound(h) && ProcLists(req, h, f) && Outside(req.fs, DEV_NULL)
    requires Apart(Targets(req.fs.mounts.GetOr([])), FilePath(req, h, f))
    requires !Apart(MaskedIn(req.fs), FilePath(req, h, f))
    ensures TreeOf(req, h).Some? ==> TreeEntry(req, h, f).view == Foreign
  {
    StartIs(req, h);
    if TreeOf(req, h).Some? {
      var before, after := Assembled(Mounts(req, h), StartSpace(req, h), req.fs).value, TreeOf(req, h).value;
      PivotedTreeIff(Mounts(req, h), StartSpace(req, h), req.fs);
      ProcHolds(Mounts(req, h), StartSpace(req, h), req.fs, MapPath(PidFor(req, h), f));
      MaskedFile(before, after, req, FilePath(req, h, f));
      NullOfTree(req, h);
      TreeProcs(req, h);
    }
  }

  /** Where no requested mount covers it, the supervisor's path leads to the child's own file, open
      for writing, exactly if neither a masked nor a read-only path is at or above it. */
  lemma TreeHitsIff(req: LaunchRequest, h: Host, f: MapFile)
    requires HostSound(h) && !req.Skip() && ProcLists(req, h, f) && Outside(req.fs, DEV_NULL)
    requires Apart(Targets(req.fs.mounts.GetOr([])), FilePath(req, h, f))
    ensures TreeOf(req, h).Some? ==> (Reaches(req, h, TreeEntry(req, h, f)) <==>
      Apart(MaskedIn(req.fs), FilePath(req, h, f)) && !ListedAbove(Listed(req.fs), FilePath(req, h, f)))
  {
    if Apart(MaskedIn(req.fs), FilePath(req, h, f)) {
      TreeHits(req, h, f);
    } else {
      TreeMasked(req, h, f);
    }
  }

  /** Where a path of the host is bound over it, the path leads to the host's file. */
  lemma HostPathEntry(req: LaunchRequest, h: Host, f: MapFile, i: nat, t: Path)
    requires HostSound(h) && i < |req.fs.mounts.GetOr([])|
    requires var mounts := req.fs.mounts.GetOr([]);
      && mounts[i].bind && mounts[i].recurse && mounts[i].source.Some?
      && Components(mounts[i].target) + t == FilePath(req, h, f)
      && Outside(req.fs, Components(mounts[i].source.value) + t)
      && StatAt(h.space, Components(mounts[i].source.value) + t) == Exists(File)
      && Apart(Targets(mounts[i + 1..]), FilePath(req, h, f))
      && Apart(MaskedIn(req.fs), FilePath(req, h, f))
    ensures var m := req.fs.mounts.GetOr([])[i];
            var q := Components(m.source.value) + t;
      TreeOf(req, h).Some? ==>
      TreeEntry(req, h, f) == FileEntry(h, {}, Pid in req.TargetNs(), PidFor(req, h), f, Where(h.space, q),
        Covered(ListedAbove(Listed(req.fs), FilePath(req, h, f)), Attrs(h.space, q).With(Added(m))).readOnly)
  {
    StartIs(req, h);
    ContainerShowsHostPath(Mounts(req, h), StartSpace(req, h), req.fs, i, t);
    TreeProcs(req, h);
    var q := Components(req.fs.mounts.GetOr([])[i].source.value) + t;
    assert Top(h.space.table, q) in h.space.table;
  }

  // ----- the map files of the host -----

  /** The host's /proc shows the map file of a process of the supervisor's pid namespace. */
  predicate OwnFile(h: Host, pid: nat, f: MapFile)
    requires Rooted(h.space.table)
  {
    var q := PROC + MapPath(pid, f);
    && StatAt(h.space, q) == Exists(File) && !Attrs(h.space, q).readOnly
    && Where(h.space, q).path == MapPath(pid, f) && Where(h.space, q).fs in h.procs
  }

  lemma HostHitsIff(req: LaunchRequest, h: Host, f: MapFile)
    requires HostSound(h) && OwnFile(h, PidFor(req, h), f)
    ensures Reaches(req, h, HostEntry(req, h, f)) <==> req.Skip() || Pid !in req.TargetNs()
  {
  }

  // ----- whose file the supervisor writes to -----

  /** No requested mount is at or above the path of a map file, and the null device is not in the
      tree. */
  ghost predicate Uncovered(req: LaunchRequest, h: Host, f: MapFile)
    requires h.childPid > 1
  {
    Apart(Targets(req.fs.mounts.GetOr([])), FilePath(req, h, f)) && Outside(req.fs, DEV_NULL)
  }

  ghost predicate Unhardened(req: LaunchRequest, h: Host, f: MapFile)
    requires h.childPid > 1
  {
    Apart(MaskedIn(req.fs), FilePath(req, h, f)) && !ListedAbove(Listed(req.fs), FilePath(req, h, f))
  }

  /** An ordinary path: in two stages with a mount namespace, one in the container's /proc with no
      requested mount over it, and otherwise one in the host's own procfs at /proc. */
  ghost predicate OrdinaryPaths(req: LaunchRequest, h: Host, f: MapFile)
    requires HostSound(h)
  {
    if !req.Skip() && Namespace.Mount in req.TargetNs()
    then ProcLists(req, h, f) && Uncovered(req, h, f)
    else OwnFile(h, PidFor(req, h), f)
  }

  ghost predicate PathClear(req: LaunchRequest, h: Host, f: MapFile)
    requires HostSound(h)
  {
    || req.Skip()
    || (Namespace.Mount !in req.TargetNs() && Pid !in req.TargetNs())
    || (Namespace.Mount in req.TargetNs() && Unhardened(req, h, f))
  }

  /** An ordinary path of the supervisor leads to the open map file of its own child exactly: in
      skip mode; without a mount namespace, if there is no new pid namespace; and in two stages
      with a mount namespace, if no masked and no read-only path is at or above it. */
  lemma PidNamesChildIff(req: LaunchRequest, h: Host, s: State, f: MapFile)
    requires HostSound(h)
    ensures Reachable(PlanOf(req, h), s) && ParentWriting(s.ppc) && OrdinaryPaths(req, h, f) ==>
      (Reaches(req, h, EntryIn(s.ns.proc, f)) <==>
       || req.Skip()
       || (Namespace.Mount !in req.TargetNs() && Pid !in req.TargetNs())
       || (Namespace.Mount in req.TargetNs() && Unhardened(req, h, f)))
  {
    if Reachable(PlanOf(req, h), s) && ParentWriting(s.ppc) && OrdinaryPaths(req, h, f) {
      PlanSound(req, h);
      ProcOfSupervisor(PlanOf(req, h), s);
      if !req.Skip() && Namespace.Mount in req.TargetNs() {
        TreeHitsIff(req, h, f);
      } else {
        HostHitsIff(req, h, f);
      }
    }
  }

  // ----- requests whose own mounts and masks are in the way -----

  lemma ProcText()
    ensures Components("/proc") == PROC
  {
    OneSegment("proc");
    assert "/proc"[1..] == "proc";
  }

  lemma NamedOne(path: string)
    ensures ContainerView.Named([path]) == {Components(path)}
  {
    assert path in [path];
  }

  /** The host's own /proc, bound over the container's. */
  const PROC_BIND := MountSpec(Some("/proc"), "/proc", None, true, true, false, false, false, false, None)

  /** With it a new pid namespace leaves the supervisor with the file of another process, the
      first of its own pid namespace. */
  lemma HostProcBound(req: LaunchRequest, h: Host, f: MapFile)
    requires HostSound(h) && !req.Skip() && Pid in req.TargetNs()
    requires req.fs.mounts == Some([PROC_BIND]) && req.fs.maskedPaths == None && req.fs.readonlyPaths == None
    requires OwnFile(h, 1, f) && Outside(req.fs, PROC + MapPath(1, f))
    ensures TreeOf(req, h).Some? ==>
      && TreeEntry(req, h, f) == Entry(OwnPids, true, h.takes(Where(h.space, PROC + MapPath(1, f))))
      && NamedIn(req, h, TreeEntry(req, h, f)) == Another
  {
    ProcText();
    HostPathEntry(req, h, f, 0, MapPath(1, f));
  }

  lemma BelowMaskedDir(before: Space, after: Space, req: LaunchRequest, m: Path, q: Path)
    requires ContainerTree(before, after, req.fs) && m in MaskedIn(req.fs) && m < q
    requires StatAt(before, Components(req.fs.Root()) + m) == Exists(Dir)
    ensures StatAt(after, q) == NotFound
  {
    assert HiddenBelow(before, Components(req.fs.Root()), MaskedIn(req.fs), q);
    assert ContainerSight(before, Components(req.fs.Root()), after, MaskedIn(req.fs), Listed(req.fs), q);
  }

  /** Below a masked /proc there is nothing, */
  lemma ProcEmptied(req: LaunchRequest, h: Host, p: Path)
    requires HostSound(h) && p != []
    requires req.fs.mounts == None && req.fs.maskedPaths == Some(["/proc"])
    ensures TreeOf(req, h).Some? ==> StatAt(TreeOf(req, h).value, PROC + p) == NotFound
  {
    StartIs(req, h);
    if TreeOf(req, h).Some? {
      var root := Components(req.fs.Root());
      var before, after := Assembled(Mounts(req, h), StartSpace(req, h), req.fs).value, TreeOf(req, h).value;
      ProcText();
      NamedOne("/proc");
      PivotedTreeIff(Mounts(req, h), StartSpace(req, h), req.fs);
      ProcHolds(Mounts(req, h), StartSpace(req, h), req.fs, []);
      NewProcRoot(req, h);
      assert PROC + [] == PROC;
      BelowMaskedDir(before, after, req, PROC, PROC + p);
    }
  }

  lemma NewProcRoot(req: LaunchRequest, h: Host)
    requires HostSound(h)
    ensures TreeOf(req, h).Some? ==> ProcStat(Mounts(req, h), []) == Exists(Dir)
  {
    StartIs(req, h);
    if TreeOf(req, h).Some? {
      var fs := Mounts(req, h)(Some("proc"), "proc", None);
      assert fs.Some? && WithRoot(fs.value.tree);
    }
  }

  /** so nothing can be opened, */
  lemma ProcMasked(req: LaunchRequest, h: Host, f: MapFile)
    requires HostSound(h)
    requires req.fs.mounts == None && req.fs.maskedPaths == Some(["/proc"])
    ensures TreeOf(req, h).Some? ==> !TreeEntry(req, h, f).opens
  {
    var p := MapPath(PidFor(req, h), f);
    ProcEmptied(req, h, p);
    ProcEmptied(req, h, p[..1]);
    assert (PROC + p)[..|PROC + p| - 1] == PROC + p[..1];
  }

  /** and a read-only one nothing to write to. */
  lemma ProcSealed(req: LaunchRequest, h: Host, f: MapFile)
    requires HostSound(h) && !req.Skip() && ProcLists(req, h, f)
    requires req.fs.mounts == None && req.fs.maskedPaths == None && req.fs.readonlyPaths == Some(["/proc"])
    ensures TreeOf(req, h).Some? ==> !TreeEntry(req, h, f).opens
  {
    ProcText();
    NamedOne("/proc");
    assert PROC <= FilePath(req, h, f) && PROC in Listed(req.fs);
    TreeHits(req, h, f);
  }

  // ----- what reaches the workload's user namespace -----

  /** The writes a request calls for, in their order. */
  function WritesAsked(req: LaunchRequest): seq<MapWrite> {
    (if Requested(req.uidMappings).Some? then [WroteUidMap] else [])
    + (if req.Denies() then [WroteDeny] else [])
    + (if Requested(req.gidMappings).Some? then [WroteGidMap] else [])
  }

  /** What the namespace should hold then. */
  function RequestedMaps(req: LaunchRequest, h: Host): Maps {
    if User in req.TargetNs()
    then Maps(Requested(req.uidMappings), Requested(req.gidMappings), h.groupsDenied || req.Denies(), WritesAsked(req))
    else Maps(None, None, h.groupsDenied, [])
  }

  /** Every write that is called for reaches the child's own file. */
  predicate WritesReach(req: LaunchRequest, h: Host)
    requires h.childPid > 1 && Rooted(h.space.table)
  {
    User in req.TargetNs() ==>
      && (Requested(req.uidMappings).Some? ==> Reaches(req, h, EntryOf(req, h, UidMapFile)))
      && (req.Denies() ==> Reaches(req, h, EntryOf(req, h, SetgroupsFile)))
      && (Requested(req.gidMappings).Some? ==> Reaches(req, h, EntryOf(req, h, GidMapFile)))
  }

  lemma HitsInPlan(req: LaunchRequest, h: Host)
    requires HostSound(h)
    ensures var p := PlanOf(req, h);
      && (Hits(p, UidEntry(p)) <==> Reaches(req, h, EntryOf(req, h, UidMapFile)))
      && (Hits(p, DenyEntry(p)) <==> Reaches(req, h, EntryOf(req, h, SetgroupsFile)))
      && (Hits(p, GidEntry(p)) <==> Reaches(req, h, EntryOf(req, h, GidMapFile)))
  {
    EntriesOfPlan(req, h);
    NamedInPlan(req, h, EntryOf(req, h, UidMapFile));
    NamedInPlan(req, h, EntryOf(req, h, SetgroupsFile));
    NamedInPlan(req, h, EntryOf(req, h, GidMapFile));
  }

  lemma MapsInTheEnd(p: Plan, uid: Option<seq<IdMapping>>, gid: Option<seq<IdMapping>>)
    requires ConfigurationAccepted(p) && p.user
    requires p.uid.Text? <==> uid.Some?
    requires p.gid.Text? <==> gid.Some?
    requires p.uid.Text? && p.uid.read.Some? ==> p.uid.read == uid
    requires p.gid.Text? && p.gid.read.Some? ==> p.gid.read == gid
    ensures FinalMaps(p) == Maps(uid, gid, p.writer.groupsDenied || p.deny,
        (if uid.Some? then [WroteUidMap] else []) + (if p.deny then [WroteDeny] else []) + (if gid.Some? then [WroteGidMap] else []))
      <==> && (uid.Some? ==> Hits(p, UidEntry(p)))
           && (p.deny ==> Hits(p, DenyEntry(p)))
           && (gid.Some? ==> Hits(p, GidEntry(p)))
  {
    if p.deny && !Hits(p, DenyEntry(p)) {
      assert WroteDeny !in FinalMaps(p).log;
      assert WroteDeny in (if uid.Some? then [WroteUidMap] else []) + [WroteDeny] + (if gid.Some? then [WroteGidMap] else []);
    }
  }

  /** The child settles, prepares and executes the workload only after the supervisor's release;
      by then it is in exactly the requested namespaces, no write was refused, and its user
      namespace holds the requested maps, each written once, in order, exactly if every write
      reached the child's own file. */
  lemma PreparedOnlyAfterRelease(req: LaunchRequest, h: Host, s: State)
    requires HostSound(h)
    ensures Reachable(PlanOf(req, h), s) && ChildAfterRelease(s.cpc) ==>
      && s.ev.released && s.ev.releaseSeen && ConfigurationAccepted(PlanOf(req, h))
      && s.ns.childNew == Elements(req.TargetNs())
      && s.ns.childUser == (if User in req.TargetNs() then Workload else Initial)
      && (s.maps == RequestedMaps(req, h) <==> WritesReach(req, h))
  {
    if Reachable(PlanOf(req, h), s) && ChildAfterRelease(s.cpc) {
      PlanSound(req, h);
      LaunchResults.PreparedOnlyAfterRelease(PlanOf(req, h), s);
      AttemptIs(req.uidMappings);
      AttemptIs(req.gidMappings);
      HitsInPlan(req, h);
      if User in req.TargetNs() {
        MapsInTheEnd(PlanOf(req, h), Requested(req.uidMappings), Requested(req.gidMappings));
      }
    }
  }

  // ----- which writes are accepted -----

  /** All three paths lead to the child's own files. */
  predicate AllReach(req: LaunchRequest, h: Host)
    requires h.childPid > 1 && Rooted(h.space.table)
  {
    && Reaches(req, h, EntryOf(req, h, UidMapFile))
    && Reaches(req, h, EntryOf(req, h, SetgroupsFile))
    && Reaches(req, h, EntryOf(req, h, GidMapFile))
  }

  /** The kernel takes a list as the uid map from this writer: well-formed, short enough and
      allowed. In skip mode the supervisor is itself inside the new namespace. */
  predicate UidListAccepted(req: LaunchRequest, h: Host, list: seq<IdMapping>) {
    Readable(list) && UidMapAllowed(h.Writes(), req.Skip(), list)
  }

  predicate GidListAccepted(req: LaunchRequest, h: Host, list: seq<IdMapping>) {
    Readable(list) && GidMapAllowed(h.Writes(), req.Skip(), h.groupsDenied || req.Denies(), list)
  }

  predicate ListsAccepted(req: LaunchRequest, h: Host) {
    && (req.uidMappings.GetOr([]) != [] ==> UidListAccepted(req, h, req.uidMappings.value))
    && (req.gidMappings.GetOr([]) != [] ==> GidListAccepted(req, h, req.gidMappings.value))
  }

  /** In terms of the credentials the supervisor started with: for a map of user ids, */
  lemma UidListAcceptedIff(req: LaunchRequest, h: Host, list: seq<IdMapping>)
    ensures UidListAccepted(req, h, list) <==>
      && Readable(list)
      && (forall m :: m in list ==> HostMaps(h.uids, m))
      && ((exists m :: m in list && m.baseHostid == 0) ==> SETFCAP in h.cred.effective)
      && (|| (|list| == 1 && list[0].remapCount == 1 && list[0].baseHostid == h.cred.euid)
          || (!req.Skip() && SETUID in h.cred.effective))
  {
  }

  /** and for one of group ids. */
  lemma GidListAcceptedIff(req: LaunchRequest, h: Host, list: seq<IdMapping>)
    ensures GidListAccepted(req, h, list) <==>
      && Readable(list)
      && (forall m :: m in list ==> HostMaps(h.gids, m))
      && (|| (&& (h.groupsDenied || req.setgroupsDeny != Some(false))
              && |list| == 1 && list[0].remapCount == 1 && list[0].baseHostid == h.cred.egid)
          || (!req.Skip() && SETGID in h.cred.effective))
  {
  }

  /** The plan has the lists, the mode and the writer of the request. */
  predicate Attempts(p: Plan, req: LaunchRequest, h: Host) {
    && p.uid == AttemptOf(req.uidMappings) && p.gid == AttemptOf(req.gidMappings) && p.deny == req.Denies()
    && p.skip == req.Skip() && p.writer == h.Writes()
  }

  lemma PlanAttempts(req: LaunchRequest, h: Host)
    requires HostSound(h)
    ensures Attempts(PlanOf(req, h), req, h)
  {
  }

  lemma UidAcceptedIff(p: Plan, req: LaunchRequest, h: Host)
    requires Attempts(p, req, h)
    requires !UidEntry(p).takes || NamedBy(p, UidEntry(p)) == TheChild
    ensures UidAccepted(p) <==>
      && (req.uidMappings == Some([]) ==> UidEntry(p).opens)
      && (Requested(req.uidMappings).Some? ==>
          Hits(p, UidEntry(p)) && UidListAccepted(req, h, req.uidMappings.value))
  {
    AttemptIs(req.uidMappings);
  }

  lemma GidAcceptedIff(p: Plan, req: LaunchRequest, h: Host)
    requires Attempts(p, req, h) && (p.deny ==> Hits(p, DenyEntry(p)))
    requires !GidEntry(p).takes || NamedBy(p, GidEntry(p)) == TheChild
    ensures GidAccepted(p) <==>
      && (req.gidMappings == Some([]) ==> GidEntry(p).opens)
      && (Requested(req.gidMappings).Some? ==>
          Hits(p, GidEntry(p)) && GidListAccepted(req, h, req.gidMappings.value))
  {
    AttemptIs(req.gidMappings);
  }

  /** A path leads to the child's file, or to one that does not take the text. */
  predicate OwnOrRefused(req: LaunchRequest, h: Host, f: MapFile)
    requires h.childPid > 1 && Rooted(h.space.table)
  {
    NamedIn(req, h, EntryOf(req, h, f)) == TheChild || !EntryOf(req, h, f).takes
  }

  lemma AcceptedOfPlan(p: Plan, req: LaunchRequest, h: Host)
    requires Attempts(p, req, h) && p.user
    requires !UidEntry(p).takes || NamedBy(p, UidEntry(p)) == TheChild
    requires !DenyEntry(p).takes || NamedBy(p, DenyEntry(p)) == TheChild
    requires !GidEntry(p).takes || NamedBy(p, GidEntry(p)) == TheChild
    ensures ConfigurationAccepted(p) <==>
      && (req.uidMappings == Some([]) ==> UidEntry(p).opens)
      && (req.gidMappings == Some([]) ==> GidEntry(p).opens)
      && (Requested(req.uidMappings).Some? ==> Hits(p, UidEntry(p)))
      && (req.Denies() ==> Hits(p, DenyEntry(p)))
      && (Requested(req.gidMappings).Some? ==> Hits(p, GidEntry(p)))
      && ListsAccepted(req, h)
  {
    UidAcceptedIff(p, req, h);
    if p.deny ==> Hits(p, DenyEntry(p)) {
      GidAcceptedIff(p, req, h);
    }
  }

  /** With nothing but the child's own files taking what the supervisor writes, a request for a
      user namespace is configured exactly if every write reaches the child's file, a file that is
      merely opened can be, and the kernel takes both lists. */
  lemma ConfigurationIff(req: LaunchRequest, h: Host)
    requires HostSound(h) && User in req.TargetNs()
    ensures OwnOrRefused(req, h, UidMapFile) && OwnOrRefused(req, h, SetgroupsFile) && OwnOrRefused(req, h, GidMapFile) ==>
      (ConfigurationAccepted(PlanOf(req, h)) <==>
      && (req.uidMappings == Some([]) ==> EntryOf(req, h, UidMapFile).opens)
      && (req.gidMappings == Some([]) ==> EntryOf(req, h, GidMapFile).opens)
      && WritesReach(req, h)
      && ListsAccepted(req, h))
  {
    PlanAttempts(req, h);
    HitsInPlan(req, h);
    EntriesOfPlan(req, h);
    NamedInPlan(req, h, EntryOf(req, h, UidMapFile));
    NamedInPlan(req, h, EntryOf(req, h, SetgroupsFile));
    NamedInPlan(req, h, EntryOf(req, h, GidMapFile));
    if OwnOrRefused(req, h, UidMapFile) && OwnOrRefused(req, h, SetgroupsFile) && OwnOrRefused(req, h, GidMapFile) {
      AcceptedOfPlan(PlanOf(req, h), req, h);
    }
  }

  /** A path that cannot be opened ends the configuration, and so does one that leads to a file
      that does not take the text. */
  lemma RefusedElsewhere(req: LaunchRequest, h: Host)
    requires HostSound(h) && User in req.TargetNs() && req.Denies()
    requires var e := EntryOf(req, h, SetgroupsFile);
      !e.opens || (NamedIn(req, h, e) != TheChild && !e.takes)
    ensures !ConfigurationAccepted(PlanOf(req, h))
  {
    EntriesOfPlan(req, h);
    NamedInPlan(req, h, EntryOf(req, h, SetgroupsFile));
  }

  // ----- lists the kernel never takes -----

  /** No range is empty and no two overlap; there are at most 340 of them, and less than a page of
      text. */
  lemma ReadableRanges(list: seq<IdMapping>, i: nat, j: nat)
    requires i < j < |list|
    ensures Readable(list) ==> |list| <= 340 && |RenderUidgidMappings(list)| < 4096
    ensures Readable(list) ==> list[i].remapCount > 0 && list[j].remapCount > 0 && Disjoint(list[i], list[j])
  {
    assert WellFormed(list) ==> ProperLine(list[i]);
    assert WellFormed(list) ==> ProperLine(list[j]);
  }

  /** For example an empty range, and two that map the same id. */
  lemma BadRangesExample(req: LaunchRequest, h: Host)
    requires HostSound(h) && User in req.TargetNs() && AllReach(req, h)
    requires req.uidMappings == Some([IdMapping(0, 1000, 0), IdMapping(0, 2000, 5), IdMapping(0, 3000, 5)])
    ensures !ConfigurationAccepted(PlanOf(req, h))
  {
    ReadableRanges(req.uidMappings.value, 0, 1);
    ConfigurationIff(req, h);
  }

  /** In skip mode the supervisor can map its own id alone, and its own group only with
      setgroups(2) denied. */
  lemma SkipModeLists(req: LaunchRequest, h: Host)
    requires HostSound(h) && User in req.TargetNs() && req.Skip()
    ensures AllReach(req, h) && ConfigurationAccepted(PlanOf(req, h)) ==>
      && (req.uidMappings.GetOr([]) != [] ==> MapsOnly(req.uidMappings.value, h.cred.euid))
      && (req.gidMappings.GetOr([]) != [] ==>
          MapsOnly(req.gidMappings.value, h.cred.egid) && (h.groupsDenied || req.Denies()))
  {
    ConfigurationIff(req, h);
  }

  // ----- when a workload is launched -----

  /** The child binds a terminal over the console, and that takes privilege in the user namespace
      that owns the mount namespace. */
  predicate ConsoleAllowed(req: LaunchRequest, h: Host) {
    NeedsConsole(req, h) ==> User !in req.TargetNs() || (req.Skip() && Namespace.Mount in req.TargetNs())
  }

  ghost predicate TreeBuilds(req: LaunchRequest, h: Host)
    requires h.childPid > 1 && Rooted(h.space.table)
  {
    var before := Assembled(Mounts(req, h), StartSpace(req, h), req.fs);
    before.Some? && Hardenable(before.value, req.fs)
  }

  /** The child can enter its user namespace on its own. */
  predicate Reunshares(req: LaunchRequest, h: Host) {
    !req.Skip() && User in req.TargetNs() ==> User in h.supports
  }

  /** Some run launches the workload exactly if both calls of unshare(2) are granted, the tree can be
      assembled, hardened and pivoted to where there is a mount namespace, no map write is refused,
      the score is written and the console allowed and bound if they are needed, the credentials
      are accepted, nothing before the program fails, and the program is found. */
  lemma LaunchIff(req: LaunchRequest, h: Host)
    requires HostSound(h)
    ensures (exists s :: Reachable(PlanOf(req, h), s) && s.ev.launched) <==>
      && Unshares(req, h) && Reunshares(req, h)
      && (Namespace.Mount in req.TargetNs() ==> TreeBuilds(req, h))
      && ConfigurationAccepted(PlanOf(req, h))
      && ConsoleAllowed(req, h) && SettlesOn(req, h)
      && Prepares(req, h)
      && Executes(req, h)
      && Finds(req, h)
  {
    PlanSound(req, h);
    LaunchPossibleIff(PlanOf(req, h));
    StartIs(req, h);
    PivotedTreeIff(Mounts(req, h), StartSpace(req, h), req.fs);
  }

  lemma OrdinaryReach(req: LaunchRequest, h: Host, f: MapFile)
    requires HostSound(h)
    ensures OrdinaryPaths(req, h, f) && (TreeOf(req, h).Some? || req.Skip() || Namespace.Mount !in req.TargetNs()) ==>
      (Reaches(req, h, EntryOf(req, h, f)) <==> PathClear(req, h, f))
  {
    if OrdinaryPaths(req, h, f) {
      if !req.Skip() && Namespace.Mount in req.TargetNs() {
        TreeHitsIff(req, h, f);
      } else {
        HostHitsIff(req, h, f);
      }
    }
  }

  /** Ordinary paths, no other file that takes what is written, and a tree to be pivoted to where
      one is needed. */
  ghost predicate Ordinary(req: LaunchRequest, h: Host)
    requires HostSound(h)
  {
    && (TreeOf(req, h).Some? || req.Skip() || Namespace.Mount !in req.TargetNs())
    && OrdinaryPaths(req, h, UidMapFile) && OrdinaryPaths(req, h, SetgroupsFile) && OrdinaryPaths(req, h, GidMapFile)
    && OwnOrRefused(req, h, UidMapFile) && OwnOrRefused(req, h, SetgroupsFile) && OwnOrRefused(req, h, GidMapFile)
  }

  /** There that comes down to the request: every path it writes to is clear, one it merely opens
      can be opened, and the kernel takes both lists. */
  lemma OrdinaryConfigurationIff(req: LaunchRequest, h: Host)
    requires HostSound(h) && User in req.TargetNs()
    ensures Ordinary(req, h) ==>
      (ConfigurationAccepted(PlanOf(req, h)) <==>
       && (req.uidMappings == Some([]) ==> EntryOf(req, h, UidMapFile).opens)
       && (req.gidMappings == Some([]) ==> EntryOf(req, h, GidMapFile).opens)
       && (Requested(req.uidMappings).Some? ==> PathClear(req, h, UidMapFile))
       && (req.Denies() ==> PathClear(req, h, SetgroupsFile))
       && (Requested(req.gidMappings).Some? ==> PathClear(req, h, GidMapFile))
       && ListsAccepted(req, h))
  {
    OrdinaryReach(req, h, UidMapFile);
    OrdinaryReach(req, h, SetgroupsFile);
    OrdinaryReach(req, h, GidMapFile);
    ConfigurationIff(req, h);
  }
}
