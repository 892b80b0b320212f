/** The launch protocol of `CreateRequest::wrap` (src/wrap.rs), with the user-namespace
    configuration of `prepare_userns` and the signal forwarding of src/signal.rs.

    After one fork the supervisor and its child run concurrently and meet at two semaphore
    eventfds. An action is one step of one process, a failure of one process, or the arrival
    of a signal; a run is any sequence of actions, so every interleaving is a run. */
module Launch {
  import opened Wrappers
  import opened Namespaces
  import opened IdMappings
  import opened MapRules

  /** Whose pid namespace a procfs lists: the supervisor's own, or the new one in which the
      child is pid 1; or a file that is not the map file of any process in either. */
  datatype ProcView = OwnPids | NewPids | Foreign

  /** What the supervisor finds at the path of one of the three files it writes to: whose file it
      is, whether it can be opened for writing, and, should it be another process's or no map
      file at all, whether it takes the text. */
  datatype Entry = Entry(view: ProcView, opens: bool, takes: bool)

  datatype ProcFiles = ProcFiles(uidMap: Entry, setgroups: Entry, gidMap: Entry)

  /** What becomes of one mapping list: no file is touched, a file is opened and nothing is
      written to it, or a text is written, and the kernel can make sense of it or not. */
  datatype Attempt = NoAttempt | OpenOnly | Text(read: Option<seq<IdMapping>>)

  /** What a request and its host come down to for the protocol: tests on the namespace list,
      the sets unshare(2) decodes from the flags of the first and the second call and whether the
      kernel grants each, the attempted map writes, who writes them, what is at the paths of the
      map files before and after the pivot, whether a terminal has to be mounted over the console,
      and whether the steps of the child that depend on nothing else succeed: the pivot, the score
      and the console, the preparation of the credentials, the checks before the program and the
      program itself. */
  datatype Plan = Plan(
    skip: bool,
    user: bool,
    mount: bool,
    pid: bool,
    first: set<Namespace>,
    second: set<Namespace>,
    unshares: bool,
    reunshares: bool,
    uid: Attempt,
    deny: bool,
    gid: Attempt,
    childPid: int,
    writer: Writer,
    hostProc: ProcFiles,
    treeProc: ProcFiles,
    pivots: bool,
    console: bool,
    settles: bool,
    prepares: bool,
    executes: bool,
    runs: bool)
  {
    /** The id the supervisor puts into its /proc paths. */
    function UsernsPid(): int {
      if !skip && pid then 1 else childPid
    }
  }

  /** The user namespace the supervisor started in, or the one made for the workload. */
  datatype UserNs = Initial | Workload

  datatype MapWrite = WroteUidMap | WroteDeny | WroteGidMap

  /** The id-mapping state of the workload's user namespace, and the writes that made it. */
  datatype Maps = Maps(
    uidMap: Option<seq<IdMapping>>,
    gidMap: Option<seq<IdMapping>>,
    setgroupsDenied: bool,
    log: seq<MapWrite>)

  /** A new user namespace inherits the denial of setgroups(2). */
  function Unmapped(p: Plan): Maps {
    Maps(None, None, p.writer.groupsDenied, [])
  }

  /** The numbers of the forwarded signals, in the order in which their handlers are installed and
      reset: SIGTERM, SIGINT, SIGQUIT, SIGHUP, SIGUSR1 and SIGUSR2. Elsewhere a signal is its
      place in this list. */
  const FORWARDED: seq<nat> := [15, 2, 3, 1, 10, 12]

  const SIGNALS: nat := 6

  /** The process an id stands for. */
  datatype Named = TheChild | Another | Nobody

  /** A kill(2) issued by the forwarding handler: the process that had the id then, and whether
      the child had been reaped. */
  datatype Kill = Kill(pid: int, signal: nat, target: Named, afterReap: bool)

  datatype ParentPc =
    | PUnshare
    | PHandlers(n: nat)
    | PFork
    | PStore
    | PAwaitReady
    | PUidMap
    | PSetgroups
    | PGidMap
    | PRelease
    | PWait
    | PReap(code: int)
    | PExited(code: int)
    | PDead

  datatype ChildPc =
    | CNone
    | CReset(n: nat)
    | CPivotEarly
    | CUnshareUser
    | CSignal
    | CAwaitRelease
    | CPivotLate
    | CSettle
    | CPrep
    | CSigpipe
    | CExec
    | CRunning
    | CExited(code: int)
    | CKilled

  /** The eventfd counters, what has been written to and read from them, and the two events
      at the end of a launch. */
  datatype Events = Events(
    readyEfd: nat, releaseEfd: nat,
    ready: bool, readySeen: bool, released: bool, releaseSeen: bool,
    launched: bool, reaped: bool)

  /** The user namespaces of the two processes and of the mount namespace they share, the
      namespaces waiting for the supervisor's children, those the child is in, and the map files
      at /proc. Both processes are in one mount namespace, so they see the same. */
  datatype Spaces = Spaces(
    parentUser: UserNs, childUser: UserNs, mountOwner: UserNs,
    forChildren: set<Namespace>, childNew: set<Namespace>,
    proc: ProcFiles)

  /** How many of the forwarded signals have the supervisor's handler installed and the
      child's disposition reset, whether SIGPIPE is back to its default, each process's copy
      of the stored pid, and the kills each has issued. */
  datatype Signals = Signals(
    installed: nat, reset: nat, sigpipeDefault: bool,
    storedPid: int, childStoredPid: int,
    kills: seq<Kill>, childKills: nat)

  datatype State = State(ppc: ParentPc, cpc: ChildPc, ev: Events, ns: Spaces, maps: Maps, sig: Signals)

  function Init(p: Plan): State {
    State(
      PUnshare, CNone,
      Events(0, 0, false, false, false, false, false, false),
      Spaces(Initial, Initial, Initial, {}, {}, p.hostProc),
      Unmapped(p),
      Signals(0, 0, false, 0, 0, [], 0))
  }

  predicate ParentDone(ppc: ParentPc) {
    ppc.PExited? || ppc.PDead?
  }

  predicate ChildDone(cpc: ChildPc) {
    cpc.CExited? || cpc.CKilled?
  }

  // ----- the kernel's side -----

  /** The process whose file an entry is, under the id the supervisor looks for. */
  function Lookup(p: Plan, view: ProcView, pid: int): Named {
    match view
    case OwnPids => if pid == p.childPid then TheChild else Another
    case NewPids => if pid == 1 then TheChild else Nobody
    case Foreign => Another
  }

  function NamedBy(p: Plan, e: Entry): Named {
    Lookup(p, e.view, p.UsernsPid())
  }

  /** A write is made to the workload's user namespace, or it ends up in another file, which
      takes it or not. Each map can be written once. */
  function WriteUidMap(p: Plan, s: State): Option<Maps> {
    var e := s.ns.proc.uidMap;
    match p.uid
    case NoAttempt => Some(s.maps)
    case OpenOnly => if e.opens then Some(s.maps) else None
    case Text(read) =>
      if !e.opens then None
      else if NamedBy(p, e) != TheChild then (if e.takes then Some(s.maps) else None)
      else if s.ns.childUser == Workload && s.maps.uidMap.None? && read.Some?
              && UidMapAllowed(p.writer, s.ns.parentUser == Workload, read.value)
      then Some(s.maps.(uidMap := read, log := s.maps.log + [WroteUidMap]))
      else None
  }

  function WriteGidMap(p: Plan, s: State): Option<Maps> {
    var e := s.ns.proc.gidMap;
    match p.gid
    case NoAttempt => Some(s.maps)
    case OpenOnly => if e.opens then Some(s.maps) else None
    case Text(read) =>
      if !e.opens then None
      else if NamedBy(p, e) != TheChild then (if e.takes then Some(s.maps) else None)
      else if s.ns.childUser == Workload && s.maps.gidMap.None? && read.Some?
              && GidMapAllowed(p.writer, s.ns.parentUser == Workload, s.maps.setgroupsDenied, read.value)
      then Some(s.maps.(gidMap := read, log := s.maps.log + [WroteGidMap]))
      else None
  }

  /** "deny" is accepted only while the group map is unset. */
  function WriteDeny(p: Plan, s: State): Option<Maps> {
    var e := s.ns.proc.setgroups;
    if !p.deny then Some(s.maps)
    else if !e.opens then None
    else if NamedBy(p, e) != TheChild then (if e.takes then Some(s.maps) else None)
    else if s.ns.childUser == Workload && s.maps.gidMap.None?
    then Some(s.maps.(setgroupsDenied := true, log := s.maps.log + [WroteDeny]))
    else None
  }

  // ----- the supervisor -----

  /** The user namespace is created first and owns the others of the same call. A refusal ends the
      supervisor before there is a child. */
  function Unshare(p: Plan, s: State): State {
    if !p.unshares then s.(ppc := PDead)
    else
      var user := if User in p.first then Workload else s.ns.parentUser;
      var owner := if Mount in p.first then user else s.ns.mountOwner;
      s.(ppc := PHandlers(0), ns := s.ns.(parentUser := user, mountOwner := owner, forChildren := p.first))
  }

  function InstallHandler(s: State, n: nat): State {
    s.(ppc := if n + 1 < SIGNALS then PHandlers(n + 1) else PFork, sig := s.sig.(installed := n + 1))
  }

  /** The child inherits the dispositions and a copy of the stored pid. */
  function Fork(s: State): State {
    s.(ppc := PStore, cpc := CReset(0),
       ns := s.ns.(childUser := s.ns.parentUser, childNew := s.ns.forChildren),
       sig := s.sig.(reset := 0, childStoredPid := s.sig.storedPid))
  }

  function StorePid(p: Plan, s: State): State {
    s.(ppc := PAwaitReady, sig := s.sig.(storedPid := p.childPid))
  }

  function SeeReady(p: Plan, s: State): State
    requires s.ev.readyEfd > 0
  {
    s.(ppc := if p.user then PUidMap else PRelease,
       ev := s.ev.(readyEfd := s.ev.readyEfd - 1, readySeen := true))
  }

  /** A refused write ends the supervisor. */
  function Configured(s: State, maps: Option<Maps>, next: ParentPc): State {
    match maps
    case Some(m) => s.(maps := m, ppc := next)
    case None => s.(ppc := PDead)
  }

  function Release(s: State): State {
    s.(ppc := PWait, ev := s.ev.(releaseEfd := s.ev.releaseEfd + 1, released := true))
  }

  function Reap(s: State, code: int): State {
    s.(ppc := PReap(code), ev := s.ev.(reaped := true))
  }

  function ParentStep(p: Plan, s: State): Option<State> {
    match s.ppc
    case PUnshare => Some(Unshare(p, s))
    case PHandlers(n) => Some(InstallHandler(s, n))
    case PFork => Some(Fork(s))
    case PStore => Some(StorePid(p, s))
    case PAwaitReady => if s.ev.readyEfd == 0 then None else Some(SeeReady(p, s))
    case PUidMap => Some(Configured(s, WriteUidMap(p, s), PSetgroups))
    case PSetgroups => Some(Configured(s, WriteDeny(p, s), PGidMap))
    case PGidMap => Some(Configured(s, WriteGidMap(p, s), PRelease))
    case PRelease => Some(Release(s))
    case PWait =>
      (match s.cpc
       case CExited(code) => Some(Reap(s, code))
       case CKilled => Some(Reap(s, 1))
       case _ => None)
    case PReap(code) => Some(s.(ppc := PExited(code)))
    case PExited(_) => None
    case PDead => None
  }

  // ----- the child -----

  function AfterReset(p: Plan): ChildPc {
    if p.skip then CSignal
    else if p.mount then CPivotEarly
    else AfterEarlyPivot(p)
  }

  function AfterEarlyPivot(p: Plan): ChildPc {
    if p.user then CUnshareUser else CSignal
  }

  function ResetHandler(p: Plan, s: State, n: nat): State {
    s.(cpc := if n + 1 < SIGNALS then CReset(n + 1) else AfterReset(p), sig := s.sig.(reset := n + 1))
  }

  /** Mount operations need privilege in the user namespace that owns the mount namespace.
      pivot_root(2) moves the root of the supervisor too. */
  function Pivot(p: Plan, s: State, next: ChildPc): State {
    if p.pivots && s.ns.childUser == s.ns.mountOwner
    then s.(cpc := next, ns := s.ns.(proc := p.treeProc))
    else s.(cpc := CExited(1))
  }

  function UnshareUser(p: Plan, s: State): State {
    if p.reunshares
    then s.(cpc := CSignal, ns := s.ns.(childUser := Workload, childNew := s.ns.childNew + p.second))
    else s.(cpc := CExited(1))
  }

  function SignalReady(s: State): State {
    s.(cpc := CAwaitRelease, ev := s.ev.(readyEfd := s.ev.readyEfd + 2, ready := true))
  }

  function SeeRelease(p: Plan, s: State): State
    requires s.ev.releaseEfd > 0
  {
    s.(cpc := if p.skip && p.mount then CPivotLate else CSettle,
       ev := s.ev.(releaseEfd := s.ev.releaseEfd - 1, releaseSeen := true))
  }

  /** The out-of-memory score, and the terminal mounted over /dev/console. */
  function Settle(p: Plan, s: State): State {
    if p.settles && (p.console ==> s.ns.childUser == s.ns.mountOwner)
    then s.(cpc := CPrep)
    else s.(cpc := CExited(1))
  }

  function Prepare(p: Plan, s: State): State {
    s.(cpc := if p.prepares then CSigpipe else CExited(1))
  }

  /** Everything of `execute` that comes before the reset is over by then. */
  function ResetSigpipe(p: Plan, s: State): State {
    if p.executes then s.(cpc := CExec, sig := s.sig.(sigpipeDefault := true)) else s.(cpc := CExited(1))
  }

  /** execvpe(3) returns only if it found no program to run. */
  function Exec(p: Plan, s: State): State {
    if p.runs then s.(cpc := CRunning, ev := s.ev.(launched := true)) else s.(cpc := CExited(1))
  }

  function ChildStep(p: Plan, s: State): Option<State> {
    match s.cpc
    case CReset(n) => Some(ResetHandler(p, s, n))
    case CPivotEarly => Some(Pivot(p, s, AfterEarlyPivot(p)))
    case CUnshareUser => Some(UnshareUser(p, s))
    case CSignal => Some(SignalReady(s))
    case CAwaitRelease => if s.ev.releaseEfd == 0 then None else Some(SeeRelease(p, s))
    case CPivotLate => Some(Pivot(p, s, CSettle))
    case CSettle => Some(Settle(p, s))
    case CPrep => Some(Prepare(p, s))
    case CSigpipe => Some(ResetSigpipe(p, s))
    case CExec => Some(Exec(p, s))
    case CNone => None
    case CRunning => None
    case CExited(_) => None
    case CKilled => None
  }

  // ----- signals -----

  /** A signal reaches the child. A handler inherited from the supervisor finds the pid that
      was stored before the fork. The default action does not touch the first process of a
      pid namespace. What the workload itself does with a signal is up to it. */
  function Deliver(s: State, signal: nat): State {
    if s.cpc.CNone? || s.cpc.CRunning? || ChildDone(s.cpc) then s
    else if signal >= s.sig.reset then
      if s.sig.childStoredPid <= 0 then s
      else s.(sig := s.sig.(childKills := s.sig.childKills + 1))
    else if Pid in s.ns.childNew then s
    else s.(cpc := CKilled)
  }

  /** Which process has an id in the supervisor's pid namespace. */
  function Holder(p: Plan, s: State, pid: int): Named {
    if pid == p.childPid && !s.cpc.CNone? && !s.ev.reaped then TheChild else Another
  }

  /** The forwarding handler of the supervisor. */
  function Forward(p: Plan, s: State, signal: nat): State {
    if s.sig.storedPid <= 0 then s
    else
      var kill := Kill(s.sig.storedPid, signal, Holder(p, s, s.sig.storedPid), s.ev.reaped);
      Deliver(s.(sig := s.sig.(kills := s.sig.kills + [kill])), signal)
  }

  /** A signal reaches the supervisor. */
  function ArriveAtParent(p: Plan, s: State, signal: nat): State {
    if ParentDone(s.ppc) then s
    else if signal >= s.sig.installed then s.(ppc := PDead)
    else Forward(p, s, signal)
  }

  // ----- runs -----

  datatype Action =
    | StepParent
    | StepChild
    | WorkloadExits(code: int)
    | FailParent
    | FailChild(killed: bool)
    | SignalParent(sig: nat)
    | SignalChild(sig: nat)

  /** The steps a process takes by itself when nothing goes wrong around it. */
  predicate Progress(a: Action) {
    a.StepParent? || a.StepChild? || a.WorkloadExits?
  }

  function Apply(p: Plan, s: State, a: Action): Option<State> {
    match a
    case StepParent => ParentStep(p, s)
    case StepChild => ChildStep(p, s)
    case WorkloadExits(code) => if s.cpc.CRunning? then Some(s.(cpc := CExited(code))) else None
    case FailParent => if ParentDone(s.ppc) then None else Some(s.(ppc := PDead))
    case FailChild(killed) =>
      if s.cpc.CNone? || ChildDone(s.cpc) || (s.cpc.CRunning? && !killed) then None
      else Some(s.(cpc := if killed then CKilled else CExited(1)))
    case SignalParent(sig) => if sig < SIGNALS then Some(ArriveAtParent(p, s, sig)) else None
    case SignalChild(sig) => if sig < SIGNALS then Some(Deliver(s, sig)) else None
  }

  /** The state after a run, if every action of it was possible. */
  function Run(p: Plan, s: State, run: seq<Action>): Option<State>
    decreases |run|
  {
    if run == [] then Some(s)
    else
      match Apply(p, s, run[0])
      case None => None
      case Some(t) => Run(p, t, run[1..])
  }

  ghost predicate Reachable(p: Plan, s: State) {
    exists run :: Run(p, Init(p), run) == Some(s)
  }
}
