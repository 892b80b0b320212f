/** What the launch protocol guarantees, for every plan and every interleaving. */
module LaunchResults {
  import opened Wrappers
  import opened Namespaces
  import opened MapRules
  import opened Launch
  import opened LaunchSafety

  // ----- safety -----

  /** The child settles, prepares and executes the workload only after the supervisor's release;
      by then no write of the supervisor was refused, the child is in the namespaces of the plan,
      and its user namespace holds what reached it, each write once and in order. */
  lemma PreparedOnlyAfterRelease(p: Plan, s: State)
    requires Sound(p) && Reachable(p, s) && ChildAfterRelease(s.cpc)
    ensures s.ev.released && s.ev.releaseSeen && ConfigurationAccepted(p)
    ensures s.ns.childNew == FinalNew(p) && s.ns.childUser == FinalUser(p)
    ensures s.maps == FinalMaps(p)
  {
    ReachableInv(p, s);
  }

  /** A write reaches the workload's user namespace exactly if the path leads to the child's own
      file: this is what the maps hold in the end. */
  lemma FinalMapsAre(p: Plan)
    requires p.user && ConfigurationAccepted(p)
    ensures var m := FinalMaps(p);
      && (m.uidMap.Some? <==> p.uid.Text? && Hits(p, UidEntry(p)))
      && (m.gidMap.Some? <==> p.gid.Text? && Hits(p, GidEntry(p)))
      && (m.uidMap.Some? ==> m.uidMap == p.uid.read)
      && (m.gidMap.Some? ==> m.gidMap == p.gid.read)
      && (m.setgroupsDenied <==> DeniedThen(p))
  {
  }

  /** The denial of setgroups(2) comes between the maps for a reason: after the group map it is
      refused, and before it the kernel takes no group map from a supervisor without privilege. */
  lemma DenyBeforeGroups(p: Plan, s: State)
    ensures p.deny && NamedBy(p, s.ns.proc.setgroups) == TheChild && s.maps.gidMap.Some? ==> WriteDeny(p, s).None?
    ensures p.gid.Text? && NamedBy(p, s.ns.proc.gidMap) == TheChild ==>
      s.maps.setgroupsDenied || (p.writer.setGids && s.ns.parentUser == Initial) || WriteGidMap(p, s).None?
  {
  }

  /** Whenever the child is about to pivot, it is in the user namespace that owns its mount
      namespace. */
  lemma PivotInOwnerNamespace(p: Plan, s: State)
    requires Sound(p) && Reachable(p, s) && (s.cpc.CPivotEarly? || s.cpc.CPivotLate?)
    ensures s.ns.childUser == s.ns.mountOwner
  {
    ReachableInv(p, s);
  }

  /** In the two-stage mode that is over once the child has unshared its user namespace: a
      pivot at any later point would be refused. */
  lemma NoLaterOwnership(p: Plan, s: State)
    requires Sound(p) && Reachable(p, s) && !p.skip && p.user && p.mount
    requires s.ev.ready || s.cpc.CSignal?
    ensures s.ns.childUser != s.ns.mountOwner
    ensures Pivot(p, s, CSettle).cpc == CExited(1)
  {
    ReachableInv(p, s);
  }

  /** While it writes the maps, the supervisor finds at /proc the host's files, or, in two stages
      with a mount namespace, those of the container's tree. */
  lemma ProcOfSupervisor(p: Plan, s: State)
    requires Sound(p) && Reachable(p, s) && ParentWriting(s.ppc)
    ensures s.ns.proc == if !p.skip && p.mount then p.treeProc else p.hostProc
    ensures !p.skip && p.mount ==> p.pivots
  {
    ReachableInv(p, s);
  }

  /** The counters stay in {0, 1, 2} and {0, 1}; once read, the first keeps 1 for ever. */
  lemma CounterBounds(p: Plan, s: State)
    requires Sound(p) && Reachable(p, s)
    ensures s.ev.readyEfd <= 2 && s.ev.releaseEfd <= 1
    ensures s.ev.readySeen ==> s.ev.readyEfd == 1
  {
    ReachableInv(p, s);
  }

  /** Whenever signals arrive: no kill is issued before the pid is stored, every kill goes to the
      child's pid, and until the child is reaped that pid is the child's; the child itself
      forwards nothing, and the workload starts with all forwarded signals and SIGPIPE at their
      defaults. */
  lemma ForwardingIsSafe(p: Plan, s: State)
    requires Sound(p) && Reachable(p, s)
    ensures s.sig.kills != [] ==> s.sig.storedPid == p.childPid
    ensures forall k :: k in s.sig.kills ==> k.pid == p.childPid && (!k.afterReap ==> k.target == TheChild)
    ensures s.sig.childKills == 0
    ensures s.ev.launched ==> s.sig.reset == SIGNALS && s.sig.sigpipeDefault
  {
    ReachableInv(p, s);
  }

  /** Each of the six signals has one place among them. */
  lemma ForwardedSignals()
    ensures SIGNALS == |FORWARDED| && (set s | s in FORWARDED) == {1, 2, 3, 10, 12, 15}
  {
  }

  /** The supervisor has stored the pid of its child, and is not over. */
  predicate Supervising(ppc: ParentPc) {
    ppc.PAwaitReady? || ParentWriting(ppc) || ppc.PRelease? || ppc.PWait? || ppc.PReap?
  }

  /** From the time the pid is stored to its end the supervisor survives each of the signals and
      sends the child that one, once: it issues exactly one kill, of the child's pid, and until the
      child is reaped that is the child. It kills a child that has its default dispositions and is
      not the first process of a new pid namespace; otherwise the child is where it was. */
  lemma SignalForwarded(p: Plan, s: State, signal: nat)
    requires Sound(p) && Reachable(p, s) && Supervising(s.ppc) && signal < SIGNALS
    ensures var t := Apply(p, s, SignalParent(signal));
      && t.Some?
      && t.value.sig.kills == s.sig.kills + [Kill(p.childPid, signal, if s.ev.reaped then Another else TheChild, s.ev.reaped)]
      && t.value.(sig := s.sig, cpc := s.cpc) == s
      && t.value.sig == s.sig.(kills := t.value.sig.kills)
      && t.value.cpc == if !s.cpc.CRunning? && !ChildDone(s.cpc) && signal < s.sig.reset && Pid !in s.ns.childNew
                        then CKilled else s.cpc
  {
    ReachableInv(p, s);
  }

  /** While the handlers are being installed a signal without one ends the supervisor; one with a
      handler is lost until the pid is stored. */
  lemma SignalBeforeTheChild(p: Plan, s: State, signal: nat)
    requires Sound(p) && Reachable(p, s) && (ParentBeforeFork(s.ppc) || s.ppc.PStore?) && signal < SIGNALS
    ensures Apply(p, s, SignalParent(signal)) ==
      Some(if s.ppc.PUnshare? || (s.ppc.PHandlers? && s.ppc.n <= signal) then s.(ppc := PDead) else s)
  {
    ReachableInv(p, s);
  }

  /** A signal to the child itself: until its dispositions are reset the inherited handler does
      nothing with it, and then it kills the child unless that is the first process of a new pid
      namespace. */
  lemma SignalToChild(p: Plan, s: State, signal: nat)
    requires Sound(p) && Reachable(p, s) && signal < SIGNALS && !s.cpc.CNone? && !s.cpc.CRunning? && !ChildDone(s.cpc)
    ensures Apply(p, s, SignalChild(signal)) ==
      Some(if (s.cpc.CReset? && s.cpc.n <= signal) || Pid in s.ns.childNew then s else s.(cpc := CKilled))
  {
    ReachableInv(p, s);
  }

  /** The supervisor exits with its child's code, or with 1 if the child was killed. */
  lemma ExitCodeMatches(p: Plan, s: State)
    requires Sound(p) && Reachable(p, s) && s.ppc.PExited?
    ensures s.cpc == CExited(s.ppc.code) || (s.cpc.CKilled? && s.ppc.code == 1)
  {
    ReachableInv(p, s);
  }

  // ----- no deadlock -----

  ghost predicate NoProgress(p: Plan, s: State) {
    forall a :: Progress(a) ==> Apply(p, s, a).None?
  }

  /** Both processes are over, or the child never existed. */
  predicate Finished(s: State) {
    ParentDone(s.ppc) && (s.cpc.CNone? || ChildDone(s.cpc))
  }

  /** The supervisor waits at its read for a child that ended before signalling. */
  predicate ParentStranded(s: State) {
    s.ppc.PAwaitReady? && ChildDone(s.cpc) && !s.ev.ready
  }

  /** The child waits at its read for a supervisor that ended before releasing it. */
  predicate ChildStranded(s: State) {
    s.ppc.PDead? && s.cpc.CAwaitRelease? && !s.ev.released
  }

  lemma NoProgressIs(p: Plan, s: State)
    ensures NoProgress(p, s) <==>
      ParentStep(p, s).None? && ChildStep(p, s).None? && !s.cpc.CRunning?
  {
    if NoProgress(p, s) {
      assert Apply(p, s, StepParent).None?;
      assert Apply(p, s, StepChild).None?;
      assert Apply(p, s, WorkloadExits(0)).None?;
    }
  }

  /** A reachable state without a next step is finished, or one process is left waiting for
      one that ended too early; and such states have no next step. */
  lemma StuckIff(p: Plan, s: State)
    requires Sound(p) && Reachable(p, s)
    ensures NoProgress(p, s) <==> Finished(s) || ParentStranded(s) || ChildStranded(s)
  {
    ReachableInv(p, s);
    NoProgressIs(p, s);
  }

  // ----- every run ends -----

  function ParentRank(ppc: ParentPc): nat {
    match ppc
    case PUnshare => 16
    case PHandlers(n) => if n < SIGNALS then 15 - n else 0
    case PFork => 9
    case PStore => 8
    case PAwaitReady => 7
    case PUidMap => 6
    case PSetgroups => 5
    case PGidMap => 4
    case PRelease => 3
    case PWait => 2
    case PReap(_) => 1
    case PExited(_) => 0
    case PDead => 0
  }

  function ChildRank(cpc: ChildPc): nat {
    match cpc
    case CNone => 17
    case CReset(n) => if n < SIGNALS then 16 - n else 0
    case CPivotEarly => 10
    case CUnshareUser => 9
    case CSignal => 8
    case CAwaitRelease => 7
    case CPivotLate => 6
    case CSettle => 5
    case CPrep => 4
    case CSigpipe => 3
    case CExec => 2
    case CRunning => 1
    case CExited(_) => 0
    case CKilled => 0
  }

  function Rank(s: State): nat {
    ParentRank(s.ppc) + ChildRank(s.cpc)
  }

  lemma ParentRankFalls(p: Plan, s: State, t: State)
    requires InvHandlers(p, s) && InvEvents(s) && ParentStep(p, s) == Some(t)
    ensures Rank(t) < Rank(s)
  {
  }

  lemma ChildRankFalls(p: Plan, s: State, t: State)
    requires (s.cpc.CReset? ==> s.cpc.n < SIGNALS) && ChildStep(p, s) == Some(t)
    ensures ChildRank(t.cpc) < ChildRank(s.cpc)
  {
    match s.cpc
    case CReset(n) => assert t == ResetHandler(p, s, n);
    case CPivotEarly => assert t == Pivot(p, s, AfterEarlyPivot(p));
    case CPivotLate => assert t == Pivot(p, s, CSettle);
    case CAwaitRelease => assert t == SeeRelease(p, s);
    case _ =>
  }

  lemma RankFalls(p: Plan, s: State, a: Action, t: State)
    requires InvHandlers(p, s) && InvEvents(s) && Apply(p, s, a) == Some(t)
    ensures Rank(t) <= Rank(s)
    ensures Progress(a) ==> Rank(t) < Rank(s)
  {
    match a
    case StepParent => ParentRankFalls(p, s, t);
    case StepChild =>
      ChildRankFalls(p, s, t);
      ChildLeavesMaps(p, s, t);
    case _ =>
  }

  function ProgressCount(run: seq<Action>): nat {
    if run == [] then 0 else (if Progress(run[0]) then 1 else 0) + ProgressCount(run[1..])
  }

  lemma {:induction false} CountBounded(p: Plan, s: State, run: seq<Action>, t: State)
    requires Sound(p) && Inv(p, s) && Launch.Run(p, s, run) == Some(t)
    ensures ProgressCount(run) + Rank(t) <= Rank(s)
    decreases |run|
  {
    if run != [] {
      var next := Apply(p, s, run[0]).value;
      InvKept(p, s, run[0], next);
      RankFalls(p, s, run[0], next);
      CountBounded(p, next, run[1..], t);
    }
  }

  /** However signals and failures interleave, the two processes take at most 33 steps. */
  lemma EveryRunIsShort(p: Plan, run: seq<Action>, t: State)
    requires Sound(p) && Launch.Run(p, Init(p), run) == Some(t)
    ensures ProgressCount(run) <= 33
  {
    InvInit(p);
    CountBounded(p, Init(p), run, t);
  }

  // ----- what undisturbed runs come to -----

  /** The child cannot pivot, or cannot enter its user namespace, before it signals. */
  predicate EarlyRefused(p: Plan) {
    !p.skip && ((p.mount && !p.pivots) || (p.user && !p.reunshares))
  }

  /** The child fails after the release. */
  predicate LateRefused(p: Plan) {
    (p.skip && p.mount && !p.pivots) || !Settles(p) || !p.prepares || !p.executes || !p.runs
  }

  predicate Launchable(p: Plan) {
    && p.unshares && (!p.skip && p.user ==> p.reunshares)
    && ConfigurationAccepted(p)
    && (p.mount ==> p.pivots)
    && Settles(p) && p.prepares && p.executes && p.runs
  }

  predicate OnlyProgress(run: seq<Action>) {
    forall i :: 0 <= i < |run| ==> Progress(run[i])
  }

  /** How the processes can have ended if nothing went wrong around them. */
  predicate Undisturbed(p: Plan, s: State) {
    && !s.cpc.CKilled?
    && (s.cpc.CExited? && !s.ev.launched ==>
        s.cpc.code == 1 && ((EarlyRefused(p) && !s.ev.ready) || (LateRefused(p) && s.ev.releaseSeen)))
    && (s.ppc.PDead? ==>
        (!p.unshares && s.cpc.CNone?) || (!ConfigurationAccepted(p) && s.ev.readySeen && !s.ev.released))
  }

  lemma ChildUndisturbed(p: Plan, s: State, t: State)
    requires Sound(p) && InvEvents(s) && InvPath(p, s) && InvNamespaces(p, s) && ChildStep(p, s) == Some(t)
    requires Undisturbed(p, s)
    ensures Undisturbed(p, t)
  {
  }

  lemma WriterUndisturbed(p: Plan, s: State, t: State)
    requires Sound(p) && Inv(p, s) && ParentWriting(s.ppc) && ParentStep(p, s) == Some(t)
    requires Undisturbed(p, s)
    ensures Undisturbed(p, t)
  {
    AtConfiguration(p, s);
    match s.ppc
    case PUidMap => UidWritten(p, s, t);
    case PSetgroups => DenyWritten(p, s, t);
    case PGidMap => GidWritten(p, s, t);
  }

  lemma ParentUndisturbed(p: Plan, s: State, t: State)
    requires Sound(p) && InvEvents(s) && !ParentWriting(s.ppc) && ParentStep(p, s) == Some(t)
    requires Undisturbed(p, s)
    ensures Undisturbed(p, t)
  {
  }

  lemma UndisturbedKept(p: Plan, s: State, a: Action, t: State)
    requires Sound(p) && Inv(p, s) && Progress(a) && Apply(p, s, a) == Some(t)
    requires Undisturbed(p, s)
    ensures Undisturbed(p, t)
  {
    match a
    case StepParent =>
      if ParentWriting(s.ppc) {
        WriterUndisturbed(p, s, t);
      } else {
        ParentUndisturbed(p, s, t);
      }
    case StepChild => ChildUndisturbed(p, s, t);
    case WorkloadExits(_) =>
  }

  lemma {:induction false} UndisturbedRun(p: Plan, s: State, run: seq<Action>, t: State)
    requires Sound(p) && Inv(p, s) && OnlyProgress(run) && Launch.Run(p, s, run) == Some(t)
    requires Undisturbed(p, s)
    ensures Undisturbed(p, t)
    decreases |run|
  {
    if run != [] {
      var next := Apply(p, s, run[0]).value;
      InvKept(p, s, run[0], next);
      UndisturbedKept(p, s, run[0], next);
      UndisturbedRun(p, next, run[1..], t);
    }
  }

  /** What is launched is launchable. */
  lemma LaunchedLaunchable(p: Plan, s: State)
    requires Inv(p, s) && s.ev.launched
    ensures Launchable(p)
  {
  }

  lemma OutcomeOf(p: Plan, t: State)
    requires Inv(p, t) && Undisturbed(p, t)
    requires Finished(t) || ParentStranded(t) || ChildStranded(t)
    ensures if !p.unshares then t.ppc.PDead? && t.cpc.CNone?
      else if EarlyRefused(p) then ParentStranded(t)
      else if !ConfigurationAccepted(p) then ChildStranded(t)
      else if !Launchable(p) then !t.ev.launched && t.cpc == CExited(1) && t.ppc == PExited(1)
      else t.ev.launched && t.ppc.PExited? && t.cpc == CExited(t.ppc.code) && t.maps == FinalMaps(p)
  {
    if t.ev.launched {
      LaunchedLaunchable(p, t);
    }
  }

  /** A run in which nothing fails on its own and no signal kills, followed to its end: if the first
      unshare is refused, the supervisor ends without a child; if the child cannot pivot or enter
      its user namespace first, the supervisor waits for ever for a child that is gone; if a map
      write is refused, the child waits for a supervisor that is gone; if the child fails later,
      the supervisor exits with 1; and otherwise the workload is launched and its exit code passed
      on. */
  lemma UndisturbedOutcome(p: Plan, run: seq<Action>, t: State)
    requires Sound(p) && OnlyProgress(run) && Launch.Run(p, Init(p), run) == Some(t) && NoProgress(p, t)
    ensures if !p.unshares then t.ppc.PDead? && t.cpc.CNone?
      else if EarlyRefused(p) then ParentStranded(t)
      else if !ConfigurationAccepted(p) then ChildStranded(t)
      else if !Launchable(p) then !t.ev.launched && t.cpc == CExited(1) && t.ppc == PExited(1)
      else t.ev.launched && t.ppc.PExited? && t.cpc == CExited(t.ppc.code) && t.maps == FinalMaps(p)
  {
    InvInit(p);
    UndisturbedRun(p, Init(p), run, t);
    RunKeepsInv(p, Init(p), run, t);
    assert Reachable(p, t);
    StuckIff(p, t);
    OutcomeOf(p, t);
  }

  /** From any state the processes can be run to the end. */
  lemma {:induction false} RunToTheEnd(p: Plan, s: State) returns (run: seq<Action>, t: State)
    requires Sound(p) && Inv(p, s)
    ensures OnlyProgress(run) && Launch.Run(p, s, run) == Some(t) && NoProgress(p, t)
    decreases Rank(s)
  {
    if NoProgress(p, s) {
      return [], s;
    }
    var a :| Progress(a) && Apply(p, s, a).Some?;
    var next := Apply(p, s, a).value;
    InvKept(p, s, a, next);
    RankFalls(p, s, a, next);
    var rest;
    rest, t := RunToTheEnd(p, next);
    run := [a] + rest;
    assert run[1..] == rest;
  }

  /** Some run launches the workload exactly if neither a call of the supervisor is refused nor a
      step of the child fails for reasons of the request and its host. */
  lemma LaunchPossibleIff(p: Plan)
    requires Sound(p)
    ensures (exists s :: Reachable(p, s) && s.ev.launched) <==> Launchable(p)
  {
    InvInit(p);
    forall s | Reachable(p, s) && s.ev.launched
      ensures Launchable(p)
    {
      ReachableInv(p, s);
      LaunchedLaunchable(p, s);
    }
    if Launchable(p) {
      var run, t := RunToTheEnd(p, Init(p));
      UndisturbedOutcome(p, run, t);
      assert Reachable(p, t);
    }
  }
}
