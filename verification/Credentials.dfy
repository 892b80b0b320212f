/** What the kernel keeps about one process's privileges and how each system call changes
    it: capabilities(7), prctl(2), setuid(2), setgid(2), setgroups(2), execve(2).

    Ids are seen from the process's own user namespace, where root is 0. A call that the
    kernel refuses is `None` and changes nothing. */
module Credentials {
  import opened Wrappers
  import opened CapabilityBits

  /** The securebits word, one flag a bit from bit 0 upwards. */
  datatype SecureBits = SecureBits(
    noRoot: bool, noRootLocked: bool,
    noSetuidFixup: bool, noSetuidFixupLocked: bool,
    keepCaps: bool, keepCapsLocked: bool,
    noAmbientRaise: bool, noAmbientRaiseLocked: bool)
  {
    predicate AnyLocked() {
      noRootLocked || noSetuidFixupLocked || keepCapsLocked || noAmbientRaiseLocked
    }
  }

  /** The word 4: bit 2 alone. */
  const SECBIT_NO_SETUID_FIXUP := SecureBits(false, false, true, false, false, false, false, false)

  /** The ids that mean something in the process's user namespace, and whether
      `/proc/pid/setgroups` still reads "allow" there. */
  datatype IdSpace = IdSpace(uids: set<nat>, gids: set<nat>, setgroupsAllowed: bool)

  datatype Cred = Cred(
    ruid: nat, euid: nat, suid: nat,
    rgid: nat, egid: nat, sgid: nat,
    groups: set<nat>,
    effective: set<CapabilityBit>,
    permitted: set<CapabilityBit>,
    inheritable: set<CapabilityBit>,
    bounding: set<CapabilityBit>,
    ambient: set<CapabilityBit>,
    secbits: SecureBits,
    noNewPrivs: bool)

  /** The kernel never lets a process leave this. */
  predicate Consistent(c: Cred) {
    c.effective <= c.permitted && c.ambient <= c.permitted && c.ambient <= c.inheritable
  }

  // ----- capability sets -----

  function CapSet(c: Cred, e: set<CapabilityBit>, p: set<CapabilityBit>, i: set<CapabilityBit>): Option<Cred> {
    if && (SETPCAP in c.effective || i <= c.inheritable + c.permitted)
       && i <= c.inheritable + c.bounding
       && p <= c.permitted
       && e <= p
    then Some(c.(effective := e, permitted := p, inheritable := i, ambient := c.ambient * (p * i)))
    else None
  }

  function BoundingDrop(c: Cred, cap: CapabilityBit): Option<Cred> {
    if SETPCAP in c.effective then Some(c.(bounding := c.bounding - {cap})) else None
  }

  function AmbientLower(c: Cred, cap: CapabilityBit): Cred {
    c.(ambient := c.ambient - {cap})
  }

  function AmbientRaise(c: Cred, cap: CapabilityBit): Option<Cred> {
    if cap in c.permitted && cap in c.inheritable && !c.secbits.noAmbientRaise
    then Some(c.(ambient := c.ambient + {cap}))
    else None
  }

  /** Locks cannot be removed and locked bits cannot change. */
  function SetSecureBits(c: Cred, bits: SecureBits): Option<Cred> {
    var was := c.secbits;
    if && SETPCAP in c.effective
       && (was.noRootLocked ==> bits.noRootLocked && bits.noRoot == was.noRoot)
       && (was.noSetuidFixupLocked ==> bits.noSetuidFixupLocked && bits.noSetuidFixup == was.noSetuidFixup)
       && (was.keepCapsLocked ==> bits.keepCapsLocked && bits.keepCaps == was.keepCaps)
       && (was.noAmbientRaiseLocked ==> bits.noAmbientRaiseLocked && bits.noAmbientRaise == was.noAmbientRaise)
    then Some(c.(secbits := bits))
    else None
  }

  // ----- ids -----

  /** What a change of user ids does to the capability sets of the new credentials `now`,
      unless the securebit turns it off. */
  function SetuidFixup(was: Cred, now: Cred): Cred {
    if was.secbits.noSetuidFixup then now
    else
      var leftRoot := (was.ruid == 0 || was.euid == 0 || was.suid == 0)
        && now.ruid != 0 && now.euid != 0 && now.suid != 0;
      var a := if leftRoot && !was.secbits.keepCaps then now.(permitted := {}, effective := {}) else now;
      var b := if leftRoot then a.(ambient := {}) else a;
      if was.euid == 0 && now.euid != 0 then b.(effective := {})
      else if was.euid != 0 && now.euid == 0 then b.(effective := b.permitted)
      else b
  }

  function SetUid(ids: IdSpace, c: Cred, uid: nat): Option<Cred> {
    if uid !in ids.uids then None
    else if SETUID in c.effective then Some(SetuidFixup(c, c.(ruid := uid, euid := uid, suid := uid)))
    else if uid == c.ruid || uid == c.suid then Some(SetuidFixup(c, c.(euid := uid)))
    else None
  }

  function SetResUid(ids: IdSpace, c: Cred, r: nat, e: nat, s: nat): Option<Cred> {
    if && {r, e, s} <= ids.uids
       && (SETUID in c.effective || {r, e, s} <= {c.ruid, c.euid, c.suid})
    then Some(SetuidFixup(c, c.(ruid := r, euid := e, suid := s)))
    else None
  }

  function SetGid(ids: IdSpace, c: Cred, gid: nat): Option<Cred> {
    if gid !in ids.gids then None
    else if SETGID in c.effective then Some(c.(rgid := gid, egid := gid, sgid := gid))
    else if gid == c.rgid || gid == c.sgid then Some(c.(egid := gid))
    else None
  }

  function SetGroups(ids: IdSpace, c: Cred, gids: set<nat>): Option<Cred> {
    if SETGID in c.effective && ids.setgroupsAllowed && gids <= ids.gids
    then Some(c.(groups := gids))
    else None
  }

  // ----- program execution -----

  /** A program file: its capability attributes if it has any, its owner if set-user-ID. */
  datatype Program = Program(
    hasCaps: bool,
    capsPermitted: set<CapabilityBit>,
    capsInheritable: set<CapabilityBit>,
    capsEffective: bool,
    setuid: Option<nat>)

  const PLAIN_PROGRAM := Program(false, {}, {}, false, None)

  function Execve(c: Cred, f: Program): Cred {
    var all := UpTo(LAST_CAP);
    var euid := if c.noNewPrivs then c.euid else f.setuid.GetOr(c.euid);
    var root := && !c.secbits.noRoot
                && (c.ruid == 0 || euid == 0)
                && !(f.hasCaps && c.ruid != 0 && euid == 0);
    var fileInh := if root then all else if f.hasCaps then f.capsInheritable else {};
    var filePerm := if root then all else if f.hasCaps then f.capsPermitted else {};
    var fileEff := (f.hasCaps && f.capsEffective) || (root && euid == 0);
    var granted := (c.inheritable * fileInh) + (filePerm * c.bounding);
    var downgrade := c.noNewPrivs && (euid != c.ruid || !(granted <= c.permitted));
    var newEuid := if downgrade then c.ruid else euid;
    var amb := if f.hasCaps || euid != c.ruid then {} else c.ambient;
    var perm := (if downgrade then granted * c.permitted else granted) + amb;
    c.(euid := newEuid, suid := newEuid,
       permitted := perm,
       effective := if fileEff then perm else amb,
       ambient := amb,
       secbits := c.secbits.(keepCaps := false))
  }

  // ----- user namespaces -----

  /** What a process holds when it has entered a new user namespace: user_namespaces(7),
      "Capabilities". */
  function EnterUserNamespace(c: Cred): Cred {
    var all := UpTo(LAST_CAP);
    c.(effective := all, permitted := all, bounding := all, inheritable := {}, ambient := {},
       secbits := SecureBits(false, false, false, false, false, false, false, false))
  }

  // ----- every later life of a process -----

  datatype Step =
    | DoExecve(program: Program)
    | DoCapSet(e: set<CapabilityBit>, p: set<CapabilityBit>, i: set<CapabilityBit>)
    | DoBoundingDrop(cap: CapabilityBit)
    | DoAmbientLower(cap: CapabilityBit)
    | DoAmbientRaise(cap: CapabilityBit)
    | DoSetSecureBits(bits: SecureBits)
    | DoSetUid(uid: nat)
    | DoSetResUid(r: nat, eu: nat, s: nat)
    | DoSetGid(gid: nat)
    | DoSetGroups(gids: set<nat>)
    | DoSetNoNewPrivs

  /** A refused call leaves the credentials alone. */
  function Next(ids: IdSpace, c: Cred, step: Step): Cred {
    match step
    case DoExecve(f) => Execve(c, f)
    case DoCapSet(e, p, i) => CapSet(c, e, p, i).GetOr(c)
    case DoBoundingDrop(cap) => BoundingDrop(c, cap).GetOr(c)
    case DoAmbientLower(cap) => AmbientLower(c, cap)
    case DoAmbientRaise(cap) => AmbientRaise(c, cap).GetOr(c)
    case DoSetSecureBits(bits) => SetSecureBits(c, bits).GetOr(c)
    case DoSetUid(uid) => SetUid(ids, c, uid).GetOr(c)
    case DoSetResUid(r, e, s) => SetResUid(ids, c, r, e, s).GetOr(c)
    case DoSetGid(gid) => SetGid(ids, c, gid).GetOr(c)
    case DoSetGroups(gids) => SetGroups(ids, c, gids).GetOr(c)
    case DoSetNoNewPrivs => c.(noNewPrivs := true)
  }

  function Run(ids: IdSpace, c: Cred, steps: seq<Step>): Cred
    decreases |steps|
  {
    if steps == [] then c else Run(ids, Next(ids, c, steps[0]), steps[1..])
  }

  lemma NextConsistent(ids: IdSpace, c: Cred, step: Step)
    requires Consistent(c)
    ensures Consistent(Next(ids, c, step))
  {
    match step
    case DoExecve(f) =>
    case DoCapSet(e, p, i) =>
    case DoSetUid(uid) =>
    case DoSetResUid(r, e, s) =>
    case _ =>
  }

  /** Every set a capability can sit in; the effective and ambient ones are inside. */
  function Anywhere(c: Cred): set<CapabilityBit> {
    c.permitted + c.inheritable + c.bounding
  }

  /** Where a capability could still become permitted from. */
  function Source(c: Cred): set<CapabilityBit> {
    if c.noNewPrivs then c.permitted else Anywhere(c)
  }

  /** No system call adds to either. */
  lemma SourceShrinks(ids: IdSpace, c: Cred, step: Step)
    requires Consistent(c)
    ensures Source(Next(ids, c, step)) <= Source(c)
    ensures Anywhere(Next(ids, c, step)) <= Anywhere(c)
  {
    match step
    case DoExecve(f) =>
    case DoCapSet(e, p, i) =>
    case DoSetUid(uid) =>
    case DoSetResUid(r, e, s) =>
    case _ =>
  }

  lemma {:induction false} RunSource(ids: IdSpace, c: Cred, steps: seq<Step>)
    requires Consistent(c)
    ensures Consistent(Run(ids, c, steps))
    ensures Source(Run(ids, c, steps)) <= Source(c)
    ensures Anywhere(Run(ids, c, steps)) <= Anywhere(c)
    decreases |steps|
  {
    if steps != [] {
      NextConsistent(ids, c, steps[0]);
      SourceShrinks(ids, c, steps[0]);
      RunSource(ids, Next(ids, c, steps[0]), steps[1..]);
    }
  }

  /** A program whose file attributes offer one capability. */
  function OfferingProgram(k: CapabilityBit): Program {
    Program(true, {k}, {k}, true, None)
  }

  lemma OneExecRegains(ids: IdSpace, c: Cred, k: CapabilityBit)
    requires !c.noNewPrivs && k in c.inheritable + c.bounding
    ensures k in Run(ids, c, [DoExecve(OfferingProgram(k))]).permitted
  {
    var steps := [DoExecve(OfferingProgram(k))];
    assert Run(ids, c, steps) == Run(ids, Execve(c, OfferingProgram(k)), steps[1..]);
  }

  /** A capability can ever be permitted again exactly when it is permitted, inheritable or
      in the bounding set now, and only the first once no_new_privs is set. */
  lemma RegainableIff(ids: IdSpace, c: Cred, k: CapabilityBit)
    requires Consistent(c)
    ensures k in Source(c) <==> exists steps :: k in Run(ids, c, steps).permitted
  {
    if k in c.permitted {
      assert k in Run(ids, c, []).permitted;
    } else if k in Source(c) {
      OneExecRegains(ids, c, k);
    }
    forall steps | k in Run(ids, c, steps).permitted
      ensures k in Source(c)
    {
      RunSource(ids, c, steps);
      assert k in Source(Run(ids, c, steps));
    }
  }

  ghost predicate Absent(k: CapabilityBit, c: Cred) {
    && k !in c.effective && k !in c.permitted && k !in c.inheritable
    && k !in c.bounding && k !in c.ambient
  }

  /** A capability in none of the five sets never enters one of them again. */
  lemma AbsentForever(ids: IdSpace, c: Cred, k: CapabilityBit, steps: seq<Step>)
    requires Consistent(c) && Absent(k, c)
    ensures Absent(k, Run(ids, c, steps))
  {
    RunSource(ids, c, steps);
    assert k !in Anywhere(c);
    assert k !in Anywhere(Run(ids, c, steps));
  }
}
