/** What every run of the launch protocol keeps. */
module LaunchSafety {
  import opened Wrappers
  import opened Namespaces
  import opened IdMappings
  import opened MapRules
  import opened Launch

  // ----- what a plan amounts to -----

  /** What the plan of every request satisfies. */
  predicate Sound(p: Plan) {
    && p.childPid > 1
    && (User in p.first <==> p.skip && p.user)
    && (Mount in p.first <==> p.mount)
    && (Pid in p.first <==> p.pid)
    && p.second == {User}
  }

  function FirstUser(p: Plan): UserNs {
    if p.skip && p.user then Workload else Initial
  }

  function FinalUser(p: Plan): UserNs {
    if p.user then Workload else Initial
  }

  function Owner(p: Plan): UserNs {
    if p.mount then FirstUser(p) else Initial
  }

  /** The namespaces the child ends in. */
  function FinalNew(p: Plan): set<Namespace> {
    if !p.skip && p.user then p.first + p.second else p.first
  }

  /** The map files at /proc while the supervisor configures the user namespace. */
  function ProcAtConfiguration(p: Plan): ProcFiles {
    if !p.skip && p.mount then p.treeProc else p.hostProc
  }

  /** A path leads to the file of the supervisor's own child. */
  predicate Hits(p: Plan, e: Entry) {
    NamedBy(p, e) == TheChild && e.opens
  }

  function UidEntry(p: Plan): Entry {
    ProcAtConfiguration(p).uidMap
  }

  function DenyEntry(p: Plan): Entry {
    ProcAtConfiguration(p).setgroups
  }

  function GidEntry(p: Plan): Entry {
    ProcAtConfiguration(p).gidMap
  }

  /** Whether a write to a path ends well: at the child's file if `allowed`, elsewhere if the
      file there takes it. */
  predicate Accepted(p: Plan, e: Entry, allowed: bool) {
    e.opens && if NamedBy(p, e) == TheChild then allowed else e.takes
  }

  predicate UidAccepted(p: Plan) {
    match p.uid
    case NoAttempt => true
    case OpenOnly => UidEntry(p).opens
    case Text(read) => Accepted(p, UidEntry(p), read.Some? && UidMapAllowed(p.writer, p.skip, read.value))
  }

  predicate DenyAccepted(p: Plan) {
    p.deny ==> Accepted(p, DenyEntry(p), true)
  }

  /** Whether setgroups(2) is denied by the time the group map is written. */
  predicate DeniedThen(p: Plan) {
    p.writer.groupsDenied || (p.deny && Hits(p, DenyEntry(p)))
  }

  predicate GidAccepted(p: Plan) {
    match p.gid
    case NoAttempt => true
    case OpenOnly => GidEntry(p).opens
    case Text(read) =>
      Accepted(p, GidEntry(p), read.Some? && GidMapAllowed(p.writer, p.skip, DeniedThen(p), read.value))
  }

  /** No write of the supervisor is refused. */
  predicate ConfigurationAccepted(p: Plan) {
    p.user ==> UidAccepted(p) && DenyAccepted(p) && GidAccepted(p)
  }

  /** The maps of the workload's namespace after each write, with the writes that reached it. */
  function AfterUid(p: Plan): Maps {
    var m := Unmapped(p);
    match p.uid
    case Text(read) => if Hits(p, UidEntry(p)) then m.(uidMap := read, log := [WroteUidMap]) else m
    case _ => m
  }

  function AfterDeny(p: Plan): Maps {
    var m := AfterUid(p);
    if p.deny && Hits(p, DenyEntry(p)) then m.(setgroupsDenied := true, log := m.log + [WroteDeny]) else m
  }

  function AfterGid(p: Plan): Maps {
    var m := AfterDeny(p);
    match p.gid
    case Text(read) => if Hits(p, GidEntry(p)) then m.(gidMap := read, log := m.log + [WroteGidMap]) else m
    case _ => m
  }

  function FinalMaps(p: Plan): Maps {
    if p.user then AfterGid(p) else Unmapped(p)
  }

  /** The step of the child between the release and the preparation succeeds. */
  predicate Settles(p: Plan) {
    p.settles && (p.console ==> FinalUser(p) == Owner(p))
  }

  // ----- the invariant -----

  predicate ParentBeforeFork(ppc: ParentPc) {
    ppc.PUnshare? || ppc.PHandlers? || ppc.PFork?
  }

  predicate ParentWriting(ppc: ParentPc) {
    ppc.PUidMap? || ppc.PSetgroups? || ppc.PGidMap?
  }

  predicate ParentReleased(ppc: ParentPc) {
    ppc.PWait? || ppc.PReap? || ppc.PExited?
  }

  predicate ChildBeforeUnshare(cpc: ChildPc) {
    cpc.CReset? || cpc.CPivotEarly? || cpc.CUnshareUser?
  }

  predicate ChildAfterRelease(cpc: ChildPc) {
    cpc.CPivotLate? || cpc.CSettle? || cpc.CPrep? || cpc.CSigpipe? || cpc.CExec? || cpc.CRunning?
  }

  predicate ChildSettled(cpc: ChildPc) {
    cpc.CPrep? || cpc.CSigpipe? || cpc.CExec? || cpc.CRunning?
  }

  /** The exit code the supervisor takes from a child's end. */
  predicate Fate(cpc: ChildPc, code: int) {
    cpc == CExited(code) || (cpc.CKilled? && code == 1)
  }

  /** The child writes 2 and the supervisor reads 1; the supervisor writes 1 and the child
      reads it. */
  predicate InvCounters(s: State) {
    && s.ev.readyEfd == (if s.ev.readySeen then 1 else if s.ev.ready then 2 else 0)
    && s.ev.releaseEfd == (if s.ev.released && !s.ev.releaseSeen then 1 else 0)
  }

  /** The four events happen in their order, and the program points agree with them. */
  predicate InvEvents(s: State) {
    && (s.ev.releaseSeen ==> s.ev.released)
    && (s.ev.released ==> s.ev.readySeen)
    && (s.ev.readySeen ==> s.ev.ready)
    && (s.cpc.CNone? ==> !s.ev.ready && (ParentBeforeFork(s.ppc) || s.ppc.PDead?))
    && (ParentBeforeFork(s.ppc) ==> s.cpc.CNone?)
    && (s.ppc.PStore? || s.ppc.PAwaitReady? ==> !s.ev.readySeen)
    && (ParentWriting(s.ppc) || s.ppc.PRelease? ==> s.ev.readySeen && !s.ev.released)
    && (ParentReleased(s.ppc) ==> s.ev.released)
    && (ChildBeforeUnshare(s.cpc) || s.cpc.CSignal? ==> !s.ev.ready)
    && (s.cpc.CAwaitRelease? ==> s.ev.ready && !s.ev.releaseSeen)
    && (ChildAfterRelease(s.cpc) || s.ev.launched ==> s.ev.releaseSeen)
    && (s.ev.launched ==> s.cpc.CRunning? || ChildDone(s.cpc))
    && (s.cpc.CRunning? ==> s.ev.launched)
  }

  predicate InvEnd(s: State) {
    && (s.ev.reaped ==> ChildDone(s.cpc))
    && (s.ppc.PReap? ==> s.ev.reaped && Fate(s.cpc, s.ppc.code))
    && (s.ppc.PExited? ==> s.ev.reaped && Fate(s.cpc, s.ppc.code))
  }

  /** Program points that exist only in one mode. */
  predicate InvPath(p: Plan, s: State) {
    && (s.cpc.CPivotEarly? ==> !p.skip && p.mount)
    && (s.cpc.CUnshareUser? ==> !p.skip && p.user)
    && (s.cpc.CPivotLate? ==> p.skip && p.mount)
    && (ParentWriting(s.ppc) ==> p.user)
  }

  predicate Unshared(s: State) {
    !s.cpc.CNone? || (!s.ppc.PUnshare? && !s.ppc.PDead?)
  }

  /** Where each process is by then. */
  predicate InvNamespaces(p: Plan, s: State) {
    && (s.ppc.PUnshare? ==> s.ns.parentUser == Initial && s.ns.mountOwner == Initial)
    && (Unshared(s) ==> s.ns.parentUser == FirstUser(p) && s.ns.mountOwner == Owner(p) && s.ns.forChildren == p.first)
    && (ChildBeforeUnshare(s.cpc) ==> s.ns.childUser == FirstUser(p) && s.ns.childNew == p.first)
    && (s.cpc.CSignal? || s.ev.ready ==> s.ns.childUser == FinalUser(p) && s.ns.childNew == FinalNew(p))
  }

  /** Which map files are visible when it matters. */
  predicate InvProc(p: Plan, s: State) {
    && (p.skip && !s.ev.releaseSeen ==> s.ns.proc == p.hostProc)
    && (!p.skip && (s.cpc.CNone? || s.cpc.CReset? || s.cpc.CPivotEarly?) ==> s.ns.proc == p.hostProc)
    && (!p.skip && (s.cpc.CUnshareUser? || s.cpc.CSignal? || s.ev.ready) ==> s.ns.proc == ProcAtConfiguration(p))
  }

  /** How far the configuration has come. */
  predicate InvMaps(p: Plan, s: State) {
    && (!s.ev.readySeen || s.ppc.PUidMap? ==> s.maps == Unmapped(p))
    && (s.ppc.PSetgroups? ==> s.maps == AfterUid(p))
    && (s.ppc.PGidMap? ==> s.maps == AfterDeny(p))
    && (s.ppc.PRelease? || s.ev.released ==> s.maps == FinalMaps(p))
  }

  /** What was not refused on the way here. */
  predicate InvAccepted(p: Plan, s: State) {
    && (s.ppc.PSetgroups? ==> UidAccepted(p))
    && (s.ppc.PGidMap? ==> UidAccepted(p) && DenyAccepted(p))
    && (s.ppc.PRelease? || s.ev.released ==> ConfigurationAccepted(p))
  }

  predicate InvChild(p: Plan, s: State) {
    && (Unshared(s) ==> p.unshares)
    && (!p.skip && p.user && (s.cpc.CSignal? || s.ev.ready) ==> p.reunshares)
    && (!p.skip && p.mount && (s.cpc.CUnshareUser? || s.cpc.CSignal? || s.ev.ready) ==> p.pivots)
    && (p.mount && (s.cpc.CSettle? || ChildSettled(s.cpc) || s.ev.launched) ==> p.pivots)
    && (ChildSettled(s.cpc) || s.ev.launched ==> Settles(p))
    && (s.cpc.CSigpipe? || s.cpc.CExec? || s.ev.launched ==> p.prepares)
    && (s.cpc.CExec? || s.ev.launched ==> p.executes)
    && (s.ev.launched ==> p.runs)
  }

  predicate InvHandlers(p: Plan, s: State) {
    && (s.ppc.PUnshare? ==> s.sig.installed == 0)
    && (s.ppc.PHandlers? ==> s.ppc.n < SIGNALS && s.sig.installed == s.ppc.n)
    && (!s.ppc.PUnshare? && !s.ppc.PHandlers? && !s.ppc.PDead? ==> s.sig.installed == SIGNALS)
    && (s.cpc.CReset? ==> s.cpc.n < SIGNALS && s.sig.reset == s.cpc.n)
    && (!s.cpc.CNone? && !s.cpc.CReset? && !ChildDone(s.cpc) ==> s.sig.reset == SIGNALS)
    && (s.ev.launched ==> s.sig.reset == SIGNALS && s.sig.sigpipeDefault)
    && (s.cpc.CExec? ==> s.sig.sigpipeDefault)
  }

  predicate InvKills(p: Plan, s: State) {
    && (ParentBeforeFork(s.ppc) || s.ppc.PStore? ==> s.sig.storedPid == 0)
    && (!ParentBeforeFork(s.ppc) && !s.ppc.PStore? && !s.ppc.PDead? ==> s.sig.storedPid == p.childPid)
    && (s.sig.storedPid == 0 || s.sig.storedPid == p.childPid)
    && s.sig.childStoredPid == 0 && s.sig.childKills == 0
    && (s.sig.kills != [] ==> s.sig.storedPid == p.childPid)
    && (s.sig.storedPid == p.childPid ==> !s.cpc.CNone?)
    && (forall k :: k in s.sig.kills ==> k.pid == p.childPid && (!k.afterReap ==> k.target == TheChild))
  }

  predicate Inv(p: Plan, s: State) {
    && InvCounters(s)
    && InvEvents(s)
    && InvEnd(s)
    && InvPath(p, s)
    && InvNamespaces(p, s)
    && InvProc(p, s)
    && InvMaps(p, s)
    && InvAccepted(p, s)
    && InvChild(p, s)
    && InvHandlers(p, s)
    && InvKills(p, s)
  }

  lemma InitEvents(p: Plan)
    ensures InvCounters(Init(p)) && InvEvents(Init(p))
  {
  }

  lemma InitEnd(p: Plan)
    ensures InvEnd(Init(p))
  {
  }

  lemma InitSpaces(p: Plan)
    ensures InvPath(p, Init(p)) && InvNamespaces(p, Init(p)) && InvProc(p, Init(p))
  {
  }

  lemma InitMaps(p: Plan)
    ensures InvMaps(p, Init(p)) && InvAccepted(p, Init(p)) && InvChild(p, Init(p))
  {
  }

  lemma InitSignals(p: Plan)
    requires Sound(p)
    ensures InvHandlers(p, Init(p)) && InvKills(p, Init(p))
  {
  }

  lemma InvInit(p: Plan)
    requires Sound(p)
    ensures Inv(p, Init(p))
  {
    InitEvents(p);
    InitEnd(p);
    InitSpaces(p);
    InitMaps(p);
    InitSignals(p);
  }

  // ----- every action keeps it -----

  lemma CountersKept(p: Plan, s: State, a: Action, t: State)
    requires InvCounters(s) && InvEvents(s)
    requires Apply(p, s, a) == Some(t)
    ensures InvCounters(t)
  {
  }

  lemma ParentEventsKept(p: Plan, s: State, t: State)
    requires InvCounters(s) && InvEvents(s)
    requires ParentStep(p, s) == Some(t)
    ensures InvEvents(t)
  {
  }

  lemma ChildEventsKept(p: Plan, s: State, t: State)
    requires InvCounters(s) && InvEvents(s)
    requires ChildStep(p, s) == Some(t)
    ensures InvEvents(t)
  {
    match s.cpc
    case CReset(n) => assert t == ResetHandler(p, s, n);
    case CPivotEarly => assert t == Pivot(p, s, AfterEarlyPivot(p));
    case CPivotLate => assert t == Pivot(p, s, CSettle);
    case CAwaitRelease => assert t == SeeRelease(p, s);
    case _ =>
  }

  lemma EventsKept(p: Plan, s: State, a: Action, t: State)
    requires InvCounters(s) && InvEvents(s)
    requires Apply(p, s, a) == Some(t)
    ensures InvEvents(t)
  {
    match a
    case StepParent => ParentEventsKept(p, s, t);
    case StepChild => ChildEventsKept(p, s, t);
    case _ =>
  }

  lemma EndKept(p: Plan, s: State, a: Action, t: State)
    requires InvEvents(s) && InvEnd(s)
    requires Apply(p, s, a) == Some(t)
    ensures InvEnd(t)
  {
  }

  lemma PathKept(p: Plan, s: State, a: Action, t: State)
    requires InvPath(p, s)
    requires Apply(p, s, a) == Some(t)
    ensures InvPath(p, t)
  {
  }

  lemma ParentNamespacesKept(p: Plan, s: State, t: State)
    requires Sound(p) && InvEvents(s) && InvPath(p, s) && InvNamespaces(p, s)
    requires ParentStep(p, s) == Some(t)
    ensures InvNamespaces(p, t)
  {
  }

  lemma ChildNamespacesKept(p: Plan, s: State, t: State)
    requires Sound(p) && InvEvents(s) && InvPath(p, s) && InvNamespaces(p, s)
    requires ChildStep(p, s) == Some(t)
    ensures InvNamespaces(p, t)
  {
  }

  lemma NamespacesKept(p: Plan, s: State, a: Action, t: State)
    requires Sound(p) && InvEvents(s) && InvPath(p, s) && InvNamespaces(p, s)
    requires Apply(p, s, a) == Some(t)
    ensures InvNamespaces(p, t)
  {
    match a
    case StepParent => ParentNamespacesKept(p, s, t);
    case StepChild => ChildNamespacesKept(p, s, t);
    case _ =>
  }

  lemma ParentProcKept(p: Plan, s: State, t: State)
    requires Sound(p) && InvEvents(s) && InvPath(p, s) && InvNamespaces(p, s) && InvProc(p, s)
    requires ParentStep(p, s) == Some(t)
    ensures InvProc(p, t)
  {
  }

  lemma ChildProcKept(p: Plan, s: State, t: State)
    requires Sound(p) && InvEvents(s) && InvPath(p, s) && InvNamespaces(p, s) && InvProc(p, s)
    requires ChildStep(p, s) == Some(t)
    ensures InvProc(p, t)
  {
  }

  lemma ProcKept(p: Plan, s: State, a: Action, t: State)
    requires Sound(p) && InvEvents(s) && InvPath(p, s) && InvNamespaces(p, s) && InvProc(p, s)
    requires Apply(p, s, a) == Some(t)
    ensures InvProc(p, t)
  {
    match a
    case StepParent => ParentProcKept(p, s, t);
    case StepChild => ChildProcKept(p, s, t);
    case _ =>
  }

  /** The maps of the invariant while the supervisor writes them. */
  lemma AtConfiguration(p: Plan, s: State)
    requires Sound(p) && Inv(p, s) && ParentWriting(s.ppc)
    ensures s.ns.proc == ProcAtConfiguration(p) && s.ns.childUser == Workload
    ensures s.ns.parentUser == Workload <==> p.skip
    ensures p.user
  {
  }

  lemma UidWritten(p: Plan, s: State, t: State)
    requires Sound(p) && Inv(p, s) && s.ppc.PUidMap? && ParentStep(p, s) == Some(t)
    ensures if UidAccepted(p) then t == s.(ppc := PSetgroups, maps := AfterUid(p)) else t == s.(ppc := PDead)
  {
    AtConfiguration(p, s);
  }

  lemma DenyWritten(p: Plan, s: State, t: State)
    requires Sound(p) && Inv(p, s) && s.ppc.PSetgroups? && ParentStep(p, s) == Some(t)
    ensures if DenyAccepted(p) then t == s.(ppc := PGidMap, maps := AfterDeny(p)) else t == s.(ppc := PDead)
  {
    AtConfiguration(p, s);
  }

  lemma GidWritten(p: Plan, s: State, t: State)
    requires Sound(p) && Inv(p, s) && s.ppc.PGidMap? && ParentStep(p, s) == Some(t)
    ensures if GidAccepted(p) then t == s.(ppc := PRelease, maps := AfterGid(p)) else t == s.(ppc := PDead)
  {
    AtConfiguration(p, s);
    assert s.maps.setgroupsDenied == DeniedThen(p);
  }

  lemma WritesKept(p: Plan, s: State, t: State)
    requires Sound(p) && Inv(p, s) && ParentWriting(s.ppc)
    requires ParentStep(p, s) == Some(t)
    ensures InvMaps(p, t) && InvAccepted(p, t)
  {
    AtConfiguration(p, s);
    match s.ppc
    case PUidMap => UidWritten(p, s, t);
    case PSetgroups => DenyWritten(p, s, t);
    case PGidMap => GidWritten(p, s, t);
  }

  lemma ParentMapsKept(p: Plan, s: State, t: State)
    requires Sound(p) && Inv(p, s) && !ParentWriting(s.ppc)
    requires ParentStep(p, s) == Some(t)
    ensures InvMaps(p, t) && InvAccepted(p, t)
  {
  }

  lemma ChildLeavesMaps(p: Plan, s: State, t: State)
    requires ChildStep(p, s) == Some(t)
    ensures t.maps == s.maps && t.ppc == s.ppc
    ensures t.ev.readySeen == s.ev.readySeen && t.ev.released == s.ev.released
  {
  }

  lemma ChildMapsKept(p: Plan, s: State, t: State)
    requires InvMaps(p, s) && InvAccepted(p, s)
    requires t.maps == s.maps && t.ppc == s.ppc
    requires t.ev.readySeen == s.ev.readySeen && t.ev.released == s.ev.released
    ensures InvMaps(p, t) && InvAccepted(p, t)
  {
  }

  lemma OtherMapsKept(p: Plan, s: State, a: Action, t: State)
    requires InvEvents(s) && InvMaps(p, s) && InvAccepted(p, s) && !a.StepParent? && !a.StepChild?
    requires Apply(p, s, a) == Some(t)
    ensures InvMaps(p, t) && InvAccepted(p, t)
  {
  }

  lemma MapsKept(p: Plan, s: State, a: Action, t: State)
    requires Sound(p) && Inv(p, s)
    requires Apply(p, s, a) == Some(t)
    ensures InvMaps(p, t) && InvAccepted(p, t)
  {
    match a
    case StepParent =>
      if ParentWriting(s.ppc) {
        WritesKept(p, s, t);
      } else {
        ParentMapsKept(p, s, t);
      }
    case StepChild =>
      ChildLeavesMaps(p, s, t);
      ChildMapsKept(p, s, t);
    case _ => OtherMapsKept(p, s, a, t);
  }

  lemma ChildStepKept(p: Plan, s: State, t: State)
    requires InvEvents(s) && InvPath(p, s) && InvNamespaces(p, s) && InvChild(p, s) && Sound(p)
    requires ChildStep(p, s) == Some(t)
    ensures InvChild(p, t)
  {
  }

  lemma ChildKept(p: Plan, s: State, a: Action, t: State)
    requires InvEvents(s) && InvPath(p, s) && InvNamespaces(p, s) && InvChild(p, s) && Sound(p)
    requires Apply(p, s, a) == Some(t)
    ensures InvChild(p, t)
  {
    match a
    case StepChild => ChildStepKept(p, s, t);
    case _ =>
  }

  lemma ParentHandlersKept(p: Plan, s: State, t: State)
    requires InvEvents(s) && InvHandlers(p, s)
    requires ParentStep(p, s) == Some(t)
    ensures InvHandlers(p, t)
  {
  }

  lemma ChildHandlersKept(p: Plan, s: State, t: State)
    requires InvEvents(s) && InvHandlers(p, s)
    requires ChildStep(p, s) == Some(t)
    ensures InvHandlers(p, t)
  {
  }

  lemma HandlersKept(p: Plan, s: State, a: Action, t: State)
    requires InvEvents(s) && InvHandlers(p, s)
    requires Apply(p, s, a) == Some(t)
    ensures InvHandlers(p, t)
  {
    match a
    case StepParent => ParentHandlersKept(p, s, t);
    case StepChild => ChildHandlersKept(p, s, t);
    case _ =>
  }

  lemma ParentKillsKept(p: Plan, s: State, t: State)
    requires Sound(p) && InvEvents(s) && InvKills(p, s)
    requires ParentStep(p, s) == Some(t)
    ensures InvKills(p, t)
  {
  }

  lemma ChildKillsKept(p: Plan, s: State, t: State)
    requires Sound(p) && InvEvents(s) && InvKills(p, s)
    requires ChildStep(p, s) == Some(t)
    ensures InvKills(p, t)
  {
  }

  lemma KillsKept(p: Plan, s: State, a: Action, t: State)
    requires Sound(p) && InvEvents(s) && InvKills(p, s)
    requires Apply(p, s, a) == Some(t)
    ensures InvKills(p, t)
  {
    match a
    case StepParent => ParentKillsKept(p, s, t);
    case StepChild => ChildKillsKept(p, s, t);
    case _ =>
  }

  lemma InvKept(p: Plan, s: State, a: Action, t: State)
    requires Sound(p) && Inv(p, s) && Apply(p, s, a) == Some(t)
    ensures Inv(p, t)
  {
    CountersKept(p, s, a, t);
    EventsKept(p, s, a, t);
    EndKept(p, s, a, t);
    PathKept(p, s, a, t);
    NamespacesKept(p, s, a, t);
    ProcKept(p, s, a, t);
    MapsKept(p, s, a, t);
    ChildKept(p, s, a, t);
    HandlersKept(p, s, a, t);
    KillsKept(p, s, a, t);
  }

  lemma {:induction false} RunKeepsInv(p: Plan, s: State, run: seq<Action>, t: State)
    requires Sound(p) && Inv(p, s) && Launch.Run(p, s, run) == Some(t)
    ensures Inv(p, t)
    decreases |run|
  {
    if run != [] {
      var next := Apply(p, s, run[0]).value;
      InvKept(p, s, run[0], next);
      RunKeepsInv(p, next, run[1..], t);
    }
  }

  lemma ReachableInv(p: Plan, s: State)
    requires Sound(p) && Reachable(p, s)
    ensures Inv(p, s)
  {
    var run :| Launch.Run(p, Init(p), run) == Some(s);
    InvInit(p);
    RunKeepsInv(p, Init(p), run, s);
  }
}
