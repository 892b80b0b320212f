/** The last steps before execve(2): `preexec_prep`, `apply_gid_uid`, `apply_capabilities`
    (src/wrap.rs), `get_caps`, `set_caps` and `set_keep_caps` (src/caps.rs). */
module Preexec {
  import opened Wrappers
  import opened CapabilityBits
  import opened CapabilityNames
  import opened Credentials

  datatype Capabilities = Capabilities(
    raise: Option<seq<string>>,
    raiseAmbient: Option<seq<string>>,
    drop: Option<seq<string>>)

  datatype ExecIds = ExecIds(gid: Option<nat>, uid: Option<nat>, supplementalGids: Option<seq<nat>>)

  // ----- capget(2) and capset(2) carry masks in two words -----

  /** The mask of the members of `s` numbered below `n`. */
  function MaskBelow(s: set<CapabilityBit>, n: bv8): bv64
    requires n <= LAST_CAP + 1
    decreases n
  {
    if n == 0 then 0
    else if n - 1 in s then AddTo(n - 1, MaskBelow(s, n - 1))
    else MaskBelow(s, n - 1)
  }

  lemma {:induction false} MaskBelowBit(s: set<CapabilityBit>, n: bv8, c: CapabilityBit)
    requires n <= LAST_CAP + 1
    ensures GetFrom(c, MaskBelow(s, n)) <==> c in s && c < n
    decreases n
  {
    if n == 0 {
      EmptyMask(c);
    } else {
      MaskBelowBit(s, n - 1, c);
      if n - 1 in s {
        BitAfterAdd(n - 1, c, MaskBelow(s, n - 1));
      }
    }
  }

  lemma MaskView(s: set<CapabilityBit>)
    ensures View(MaskBelow(s, LAST_CAP + 1)) == s
  {
    forall c: CapabilityBit
      ensures GetFrom(c, MaskBelow(s, LAST_CAP + 1)) <==> c in s
    {
      MaskBelowBit(s, LAST_CAP + 1, c);
    }
  }

  /** The set the kernel reads out of a pair of words. */
  ghost function WordSet(low: bv32, high: bv32): set<CapabilityBit> {
    set c | c in UpTo(LAST_CAP) && InWord(c, low, high)
  }

  lemma WordSetIsView(v: bv64)
    ensures WordSet(LowWord(v), HighWord(v)) == View(v)
  {
    forall c: CapabilityBit
      ensures InWord(c, LowWord(v), HighWord(v)) <==> GetFrom(c, v)
    {
      WordPosition(c, v);
    }
  }

  // ----- what a request asks for -----

  ghost predicate ListKnown(names: Option<seq<string>>) {
    forall name :: name in names.GetOr([]) ==> KnownName(name)
  }

  ghost predicate NamesKnown(caps: Capabilities) {
    ListKnown(caps.drop) && ListKnown(caps.raise) && ListKnown(caps.raiseAmbient)
  }

  ghost function Listed(names: Option<seq<string>>): set<CapabilityBit>
    requires ListKnown(names)
  {
    NamedSet(names.GetOr([]))
  }

  /** A request, read as sets. */
  datatype Request = Request(
    drops: set<CapabilityBit>, raises: set<CapabilityBit>, raisesAmbient: set<CapabilityBit>)
  {
    /** The drops that also leave the bounding set. */
    function BoundingDrops(): set<CapabilityBit> {
      drops - (raises + raisesAmbient)
    }

    /** The effective, permitted and inheritable set the workload starts with. */
    function Wanted(c: Cred): set<CapabilityBit> {
      (c.effective - drops) + raises
    }

    predicate Acceptable(c: Cred) {
      && raises <= c.permitted
      && Wanted(c) <= c.inheritable + c.bounding
      && raisesAmbient <= Wanted(c)
      && (BoundingDrops() != {} ==> SETPCAP in c.effective)
      && (raisesAmbient != {} ==> !c.secbits.noAmbientRaise)
    }

    function Applied(c: Cred): Cred {
      var n := Wanted(c);
      c.(effective := n, permitted := n, inheritable := n,
         bounding := c.bounding - BoundingDrops(),
         ambient := ((c.ambient * n) - drops) + raisesAmbient)
    }
  }

  ghost function Asked(caps: Capabilities): Request
    requires NamesKnown(caps)
  {
    Request(Listed(caps.drop), Listed(caps.raise), Listed(caps.raiseAmbient))
  }

  ghost predicate Acceptable(c: Cred, caps: Capabilities) {
    NamesKnown(caps) && Asked(caps).Acceptable(c)
  }

  /** The bounding drops made first do not decide whether capset(2) is refused: what they
      take from the bounding set is not asked for. */
  lemma CapSetAfterDrops(c: Cred, r: Request)
    requires Consistent(c)
    ensures var n := r.Wanted(c);
            var dropped := c.(bounding := c.bounding - r.BoundingDrops());
            CapSet(dropped, n, n, n)
            == if r.raises <= c.permitted && n <= c.inheritable + c.bounding
               then Some(dropped.(effective := n, permitted := n, inheritable := n, ambient := c.ambient * n))
               else None
  {
    var n := r.Wanted(c);
    assert r.raises <= n;
    assert n * r.BoundingDrops() == {};
    assert n <= c.permitted <==> r.raises <= c.permitted;
    var dropped := c.(bounding := c.bounding - r.BoundingDrops());
    assert n <= c.inheritable + c.bounding <==> n <= dropped.inheritable + dropped.bounding;
    assert n * n == n;
  }

  /** Nothing but the capability sets differs, and no set holds more than before. */
  ghost predicate OnlyLost(was: Cred, now: Cred) {
    && now == was.(effective := now.effective, permitted := now.permitted,
                   inheritable := now.inheritable, bounding := now.bounding, ambient := now.ambient)
    && now.permitted <= was.permitted && now.bounding <= was.bounding
  }

  // ----- what happens to the ids -----

  function AfterGid(ids: IdSpace, c: Cred, gid: Option<nat>): Cred {
    if gid.None? || c.rgid == gid.value then c else SetGid(ids, c, gid.value).GetOr(c)
  }

  function AfterGroups(ids: IdSpace, c: Cred, gids: Option<seq<nat>>): Cred {
    if gids.None? then c else SetGroups(ids, c, set g | g in gids.value).GetOr(c)
  }

  function AfterUid(ids: IdSpace, c: Cred, uid: Option<nat>): Cred {
    if uid.None? || c.ruid == uid.value then c else SetUid(ids, c, uid.value).GetOr(c)
  }

  /** Group, then supplementary groups, then user. */
  function AfterIds(ids: IdSpace, c: Cred, exec: ExecIds): Cred {
    AfterUid(ids, AfterGroups(ids, AfterGid(ids, c, exec.gid), exec.supplementalGids), exec.uid)
  }

  // ----- the whole preparation -----

  /** No condition on the requested ids, and none on ambient raising being switched off:
      setting the securebits word clears that bit. */
  ghost predicate PrepAccepted(c: Cred, capabilities: Option<Capabilities>) {
    && SETPCAP in c.effective
    && !c.secbits.AnyLocked()
    && (capabilities.None? ||
        (&& NamesKnown(capabilities.value)
         && var r := Asked(capabilities.value);
         && r.raises <= c.permitted
         && r.Wanted(c) <= c.inheritable + c.bounding
         && r.raisesAmbient <= r.Wanted(c)))
  }

  /** The ids as requested, the capability sets a function of the old ones alone. */
  ghost function Prepared(ids: IdSpace, c: Cred, exec: ExecIds, capabilities: Option<Capabilities>): Cred
    requires PrepAccepted(c, capabilities)
  {
    var kept := c.(secbits := SECBIT_NO_SETUID_FIXUP);
    WithIds(if capabilities.None? then kept else Asked(capabilities.value).Applied(kept),
            AfterIds(ids, kept, exec))
  }

  /** The credentials of `c` with the ids of `d`. */
  function WithIds(c: Cred, d: Cred): Cred {
    c.(ruid := d.ruid, euid := d.euid, suid := d.suid,
       rgid := d.rgid, egid := d.egid, sgid := d.sgid, groups := d.groups)
  }

  lemma KeepCapsIff(c: Cred)
    ensures SetSecureBits(c, SECBIT_NO_SETUID_FIXUP).Some?
      <==> SETPCAP in c.effective && !c.secbits.AnyLocked()
  {
  }

  /** With the securebit set, the id changes leave every capability set alone. */
  lemma IdsNeutral(ids: IdSpace, c: Cred, exec: ExecIds)
    requires c.secbits.noSetuidFixup
    ensures AfterIds(ids, c, exec) == WithIds(c, AfterIds(ids, c, exec))
  {
  }

  class Task {
    var cred: Cred
    const ids: IdSpace

    constructor (ids: IdSpace, cred: Cred)
      ensures this.ids == ids && this.cred == cred
    {
      this.ids := ids;
      this.cred := cred;
    }

    method Capget() returns (data: seq<CapInternalData>)
      ensures |data| == 2
      ensures WordSet(data[0].effective, data[1].effective) == cred.effective
      ensures WordSet(data[0].permitted, data[1].permitted) == cred.permitted
      ensures WordSet(data[0].inheritable, data[1].inheritable) == cred.inheritable
    {
      var e := MaskBelow(cred.effective, LAST_CAP + 1);
      var p := MaskBelow(cred.permitted, LAST_CAP + 1);
      var i := MaskBelow(cred.inheritable, LAST_CAP + 1);
      MaskView(cred.effective);
      MaskView(cred.permitted);
      MaskView(cred.inheritable);
      WordSetIsView(e);
      WordSetIsView(p);
      WordSetIsView(i);
      data := [CapInternalData(LowWord(e), LowWord(p), LowWord(i)),
               CapInternalData(HighWord(e), HighWord(p), HighWord(i))];
    }

    method GetCaps() returns (r: CapResult)
      ensures View(r.effective) == cred.effective
      ensures View(r.permitted) == cred.permitted
      ensures View(r.inheritable) == cred.inheritable
    {
      var data := Capget();
      r := CapDataToResult(data);
      DataRoundTrip(data);
      WordSetIsView(r.effective);
      WordSetIsView(r.permitted);
      WordSetIsView(r.inheritable);
    }

    method SetCaps(caps: CapResult) returns (ok: bool)
      modifies this
      ensures var asked := CapSet(old(cred), View(caps.effective), View(caps.permitted), View(caps.inheritable));
              ok == asked.Some? && cred == asked.GetOr(old(cred))
    {
      var data := CapResultToData(caps);
      WordSetIsView(caps.effective);
      WordSetIsView(caps.permitted);
      WordSetIsView(caps.inheritable);
      ok := Capset(data);
    }

    method Capset(data: seq<CapInternalData>) returns (ok: bool)
      requires |data| == 2
      modifies this
      ensures var asked := CapSet(old(cred),
                WordSet(data[0].effective, data[1].effective),
                WordSet(data[0].permitted, data[1].permitted),
                WordSet(data[0].inheritable, data[1].inheritable));
              ok == asked.Some? && cred == asked.GetOr(old(cred))
    {
      var e := Words(data[0].effective, data[1].effective);
      var p := Words(data[0].permitted, data[1].permitted);
      var i := Words(data[0].inheritable, data[1].inheritable);
      var asked := CapSet(cred, e, p, i);
      ok := asked.Some?;
      cred := asked.GetOr(cred);
    }

    method SetKeepCaps() returns (ok: bool)
      modifies this
      // Accepted exactly with CAP_SETPCAP and no lock; the securebits are then this one alone, and
      // nothing else changes.
      ensures ok <==> SETPCAP in old(cred).effective && !old(cred).secbits.AnyLocked()
      ensures cred == if ok then old(cred).(secbits := SECBIT_NO_SETUID_FIXUP) else old(cred)
    {
      KeepCapsIff(cred);
      var asked := SetSecureBits(cred, SECBIT_NO_SETUID_FIXUP);
      ok := asked.Some?;
      cred := asked.GetOr(cred);
    }

    /** Bounding drops for the listed capabilities that are raised nowhere. */
    method DropBounding(drops: seq<CapabilityBit>, raises: seq<CapabilityBit>, raisesAmbient: seq<CapabilityBit>)
      returns (ok: bool)
      modifies this
      ensures var due := Elements(drops) - (Elements(raises) + Elements(raisesAmbient));
        && ok == (due == {} || SETPCAP in old(cred).effective)
        && cred == old(cred).(bounding := if ok then old(cred).bounding - due else old(cred).bounding)
    {
      ghost var raised := Elements(raises) + Elements(raisesAmbient);
      for i := 0 to |drops|
        invariant Elements(drops[..i]) - raised == {} || SETPCAP in old(cred).effective
        invariant cred == old(cred).(bounding := old(cred).bounding - (Elements(drops[..i]) - raised))
      {
        assert drops[..i + 1] == drops[..i] + [drops[i]];
        ElementsSnoc(drops[..i], drops[i]);
        if drops[i] !in raises && drops[i] !in raisesAmbient {
          var next := BoundingDrop(cred, drops[i]);
          if next.None? {
            assert drops[i] in Elements(drops) - raised;
            return false;
          }
          cred := next.value;
        }
      }
      assert drops[..|drops|] == drops;
      return true;
    }

    method LowerAmbient(drops: seq<CapabilityBit>)
      modifies this
      ensures cred == old(cred).(ambient := old(cred).ambient - Elements(drops))
    {
      for i := 0 to |drops|
        invariant cred == old(cred).(ambient := old(cred).ambient - Elements(drops[..i]))
      {
        assert drops[..i + 1] == drops[..i] + [drops[i]];
        ElementsSnoc(drops[..i], drops[i]);
        cred := AmbientLower(cred, drops[i]);
      }
      assert drops[..|drops|] == drops;
    }

    method RaiseAmbient(raises: seq<CapabilityBit>) returns (ok: bool)
      modifies this
      ensures ok == (Elements(raises) <= old(cred).permitted * old(cred).inheritable
                     && (raises != [] ==> !old(cred).secbits.noAmbientRaise))
      ensures ok ==> cred == old(cred).(ambient := old(cred).ambient + Elements(raises))
      ensures cred == old(cred).(ambient := cred.ambient)
      ensures cred.ambient <= old(cred).ambient + old(cred).permitted * old(cred).inheritable
    {
      for i := 0 to |raises|
        invariant Elements(raises[..i]) <= old(cred).permitted * old(cred).inheritable
        invariant i > 0 ==> !old(cred).secbits.noAmbientRaise
        invariant cred == old(cred).(ambient := old(cred).ambient + Elements(raises[..i]))
      {
        assert raises[..i + 1] == raises[..i] + [raises[i]];
        ElementsSnoc(raises[..i], raises[i]);
        var next := AmbientRaise(cred, raises[i]);
        if next.None? {
          assert raises[i] in Elements(raises);
          return false;
        }
        cred := next.value;
      }
      assert raises[..|raises|] == raises;
      return true;
    }

    /** The masks read earlier, with the drops cleared and the raises set, for all three sets. */
    method SetMasks(current: CapResult, drops: seq<CapabilityBit>, raises: seq<CapabilityBit>)
      returns (ok: bool)
      requires View(current.effective) == cred.effective
      modifies this
      ensures var n := (old(cred).effective - Elements(drops)) + Elements(raises);
              var asked := CapSet(old(cred), n, n, n);
              ok == asked.Some? && cred == asked.GetOr(old(cred))
    {
      var effective := ClearBits(current.effective, drops);
      effective := SetBits(effective, raises);
      ok := SetCaps(CapResult(effective, effective, effective));
    }

    /** Everything behind the reading of the names. */
    method ApplySets(drops: seq<CapabilityBit>, raises: seq<CapabilityBit>, raisesAmbient: seq<CapabilityBit>)
      returns (ok: bool)
      requires Consistent(cred)
      modifies this
      ensures var r := Request(Elements(drops), Elements(raises), Elements(raisesAmbient));
        && ok == r.Acceptable(old(cred))
        && (ok ==> cred == r.Applied(old(cred)))
      ensures OnlyLost(old(cred), cred) && Consistent(cred)
    {
      ghost var was := cred;
      ghost var r := Request(Elements(drops), Elements(raises), Elements(raisesAmbient));
      var current := GetCaps();
      CapSetAfterDrops(was, r);
      if raisesAmbient != [] { Inhabited(raisesAmbient); }
      ok := DropBounding(drops, raises, raisesAmbient);
      if !ok { return; }
      ok := SetMasks(current, drops, raises);
      if !ok { return; }
      ghost var n := r.Wanted(was);
      assert cred.permitted * cred.inheritable == n;
      LowerAmbient(drops);
      ok := RaiseAmbient(raisesAmbient);
    }

    method ApplyCapabilities(capabilities: Option<Capabilities>) returns (ok: bool)
      requires Consistent(cred)
      modifies this
      ensures ok <==> capabilities.None? || Acceptable(old(cred), capabilities.value)
      ensures ok ==> cred == if capabilities.None? then old(cred) else Asked(capabilities.value).Applied(old(cred))
      ensures OnlyLost(old(cred), cred) && Consistent(cred)
    {
      if capabilities.None? {
        return true;
      }
      var caps := capabilities.value;
      var drops := NamesAsBits(caps.drop.GetOr([]));
      if drops.Failure? { return false; }
      var raises := NamesAsBits(caps.raise.GetOr([]));
      if raises.Failure? { return false; }
      var raisesAmbient := NamesAsBits(caps.raiseAmbient.GetOr([]));
      if raisesAmbient.Failure? { return false; }
      ok := ApplySets(drops.value, raises.value, raisesAmbient.value);
    }

    /** A refused change is only logged. */
    method ApplyGidUid(exec: ExecIds)
      modifies this
      ensures cred == AfterIds(ids, old(cred), exec)
    {
      if exec.gid.Some? && cred.rgid != exec.gid.value {
        cred := SetGid(ids, cred, exec.gid.value).GetOr(cred);
      }
      if exec.supplementalGids.Some? {
        cred := SetGroups(ids, cred, set g | g in exec.supplementalGids.value).GetOr(cred);
      }
      if exec.uid.Some? && cred.ruid != exec.uid.value {
        cred := SetUid(ids, cred, exec.uid.value).GetOr(cred);
      }
    }

    /** The securebit first, then the ids, then the capability sets. */
    method PreexecPrep(exec: ExecIds, capabilities: Option<Capabilities>) returns (ok: bool)
      requires Consistent(cred)
      modifies this
      ensures ok <==> PrepAccepted(old(cred), capabilities)
      ensures ok ==> cred == Prepared(ids, old(cred), exec, capabilities)
    {
      KeepCapsIff(cred);
      ok := SetKeepCaps();
      if !ok { return; }
      IdsNeutral(ids, cred, exec);
      ApplyGidUid(exec);
      ok := ApplyCapabilities(capabilities);
    }
  }

  function Words(low: bv32, high: bv32): (s: set<CapabilityBit>)
    ensures s == WordSet(low, high)
  {
    set c | c in UpTo(LAST_CAP) && InWord(c, low, high)
  }

  // ----- what the preparation is for -----

  lemma PreparedConsistent(ids: IdSpace, c: Cred, exec: ExecIds, caps: Capabilities)
    requires Consistent(c) && PrepAccepted(c, Some(caps))
    ensures Consistent(Prepared(ids, c, exec, Some(caps)))
  {
  }

  /** After the preparation a dropped capability is gone for good, through any later sequence
      of calls and program executions, exactly when it was not also raised. */
  lemma DroppedForGood(ids: IdSpace, c: Cred, exec: ExecIds, caps: Capabilities, k: CapabilityBit)
    requires Consistent(c) && PrepAccepted(c, Some(caps))
    requires k in Asked(caps).drops
    ensures var d := Prepared(ids, c, exec, Some(caps));
      && (k !in Asked(caps).raises <==> forall steps :: k !in Run(ids, d, steps).permitted)
      && (k !in Asked(caps).raises ==> forall steps :: Absent(k, Run(ids, d, steps)))
  {
    var d := Prepared(ids, c, exec, Some(caps));
    var r := Asked(caps);
    PreparedConsistent(ids, c, exec, caps);
    RegainableIff(ids, d, k);
    if k !in r.raises {
      assert k !in r.raisesAmbient;
      assert k in r.BoundingDrops();
      assert Absent(k, d);
      forall steps
        ensures Absent(k, Run(ids, d, steps))
      {
        AbsentForever(ids, d, k, steps);
      }
    } else {
      assert k in Source(d);
    }
  }

  /** What the workload runs with once a plain program is executed: as an ordinary user the
      ambient set, if its user ids agree; as root what was kept, and the whole bounding set
      besides unless no_new_privs is set; in effect all of it for an effective root. With
      no_new_privs the effective user falls back to the real one. */
  lemma WorkloadCapabilities(ids: IdSpace, c: Cred, exec: ExecIds, caps: Capabilities)
    requires Consistent(c) && PrepAccepted(c, Some(caps))
    ensures var d := Prepared(ids, c, exec, Some(caps));
            var r := Asked(caps);
            var w := Execve(d, PLAIN_PROGRAM);
            var ambient := if d.ruid == d.euid then ((c.ambient * r.Wanted(c)) - r.drops) + r.raisesAmbient else {};
      && w.permitted == (if d.ruid != 0 && d.euid != 0 then ambient
                         else if c.noNewPrivs then r.Wanted(c)
                         else r.Wanted(c) + (c.bounding - r.BoundingDrops()))
      && w.effective == (if d.euid == 0 then w.permitted else ambient)
      && w.euid == w.suid == (if c.noNewPrivs then d.ruid else d.euid) && w.ruid == d.ruid
  {
    var d := Prepared(ids, c, exec, Some(caps));
    var all := UpTo(LAST_CAP);
    PreparedConsistent(ids, c, exec, caps);
    assert d.inheritable * all == d.inheritable && all * d.bounding == d.bounding;
    assert d.ambient <= d.inheritable;
  }

  lemma GidStage(ids: IdSpace, c: Cred, gid: nat)
    ensures var d := AfterGid(ids, c, Some(gid));
      && d == c.(rgid := d.rgid, egid := d.egid, sgid := d.sgid)
      && (d.rgid == gid <==> c.rgid == gid || (SETGID in c.effective && gid in ids.gids))
      && (d.rgid == d.egid == d.sgid == gid <==>
          if c.rgid == gid then c.egid == c.sgid == gid else SETGID in c.effective && gid in ids.gids)
      && (d.egid == gid <==>
          c.egid == gid || (c.rgid != gid && gid in ids.gids && (SETGID in c.effective || gid == c.sgid)))
  {
  }

  lemma GroupsStage(ids: IdSpace, c: Cred, gids: seq<nat>)
    ensures var d := AfterGroups(ids, c, Some(gids));
            var wanted := set g | g in gids;
      && d == c.(groups := d.groups)
      && (d.groups == wanted <==>
          c.groups == wanted || (SETGID in c.effective && ids.setgroupsAllowed && wanted <= ids.gids))
  {
  }

  lemma UidStage(ids: IdSpace, c: Cred, uid: nat)
    ensures var d := AfterUid(ids, c, Some(uid));
      && d.rgid == c.rgid && d.egid == c.egid && d.sgid == c.sgid && d.groups == c.groups
      && (d.ruid == uid <==> c.ruid == uid || (SETUID in c.effective && uid in ids.uids))
      && (d.ruid == d.euid == d.suid == uid <==>
          if c.ruid == uid then c.euid == c.suid == uid else SETUID in c.effective && uid in ids.uids)
      && (d.euid == uid <==>
          c.euid == uid || (c.ruid != uid && uid in ids.uids && (SETUID in c.effective || uid == c.suid)))
  {
  }

  /** Exactly when each requested id is reached, as the real one, as all three and as the effective
      one, with the securebit or without. An id already held as the real one is left alone,
      whatever the effective and saved ones are; without the capability the saved one can become
      the effective one. */
  lemma IdsReachedIff(ids: IdSpace, c: Cred, gid: nat, uid: nat, gids: seq<nat>)
    ensures var d := AfterIds(ids, c, ExecIds(Some(gid), Some(uid), Some(gids)));
            var wanted := set g | g in gids;
      && (d.rgid == gid <==> c.rgid == gid || (SETGID in c.effective && gid in ids.gids))
      && (d.rgid == d.egid == d.sgid == gid <==>
          if c.rgid == gid then c.egid == c.sgid == gid else SETGID in c.effective && gid in ids.gids)
      && (d.egid == gid <==>
          c.egid == gid || (c.rgid != gid && gid in ids.gids && (SETGID in c.effective || gid == c.sgid)))
      && (d.groups == wanted <==>
          c.groups == wanted || (SETGID in c.effective && ids.setgroupsAllowed && wanted <= ids.gids))
      && (d.ruid == uid <==> c.ruid == uid || (SETUID in c.effective && uid in ids.uids))
      && (d.ruid == d.euid == d.suid == uid <==>
          if c.ruid == uid then c.euid == c.suid == uid else SETUID in c.effective && uid in ids.uids)
      && (d.euid == uid <==>
          c.euid == uid || (c.ruid != uid && uid in ids.uids && (SETUID in c.effective || uid == c.suid)))
  {
    var c1 := AfterGid(ids, c, Some(gid));
    var c2 := AfterGroups(ids, c1, Some(gids));
    GidStage(ids, c, gid);
    GroupsStage(ids, c1, gids);
    UidStage(ids, c2, uid);
  }

  /** What is not asked for stays, and with the capabilities whatever is asked for and mapped is
      there, as all three ids of its kind. */
  lemma IdsGranted(ids: IdSpace, c: Cred, exec: ExecIds)
    requires {SETUID, SETGID} <= c.effective
    ensures var d := AfterIds(ids, c, exec);
      && (exec.gid == None ==> (d.rgid, d.egid, d.sgid) == (c.rgid, c.egid, c.sgid))
      && (exec.supplementalGids == None ==> d.groups == c.groups)
      && (exec.uid == None ==> (d.ruid, d.euid, d.suid) == (c.ruid, c.euid, c.suid))
      && (exec.gid.Some? && exec.gid.value in ids.gids && exec.gid.value != c.rgid ==>
          d.rgid == d.egid == d.sgid == exec.gid.value)
      && (exec.supplementalGids.Some? && ids.setgroupsAllowed && Members(exec.supplementalGids.value) <= ids.gids ==>
          d.groups == Members(exec.supplementalGids.value))
      && (exec.uid.Some? && exec.uid.value in ids.uids && exec.uid.value != c.ruid ==>
          d.ruid == d.euid == d.suid == exec.uid.value)
  {
    var c1 := AfterGid(ids, c, exec.gid);
    var c2 := AfterGroups(ids, c1, exec.supplementalGids);
    if exec.gid.Some? {
      GidStage(ids, c, exec.gid.value);
    }
    if exec.supplementalGids.Some? {
      GroupsStage(ids, c1, exec.supplementalGids.value);
    }
    if exec.uid.Some? {
      UidStage(ids, c2, exec.uid.value);
    }
  }

  function Members(gids: seq<nat>): set<nat> {
    set g | g in gids
  }

  /** The same three changes with the user id first. */
  function UserFirst(ids: IdSpace, c: Cred, exec: ExecIds): Cred {
    AfterGroups(ids, AfterGid(ids, AfterUid(ids, c, exec.uid), exec.gid), exec.supplementalGids)
  }

  /** Without the securebit the order of the code still reaches every id, and the order with
      the user id first never reaches another group. */
  lemma OrderMatters(ids: IdSpace, c: Cred, gid: nat, uid: nat)
    requires c.ruid == c.euid == c.suid == 0 && uid != 0 && uid in ids.uids
    requires gid in ids.gids && gid != c.rgid
    requires SETUID in c.effective && SETGID in c.effective
    requires !c.secbits.noSetuidFixup
    ensures var exec := ExecIds(Some(gid), Some(uid), None);
      && AfterIds(ids, c, exec).rgid == gid
      && AfterIds(ids, c, exec).ruid == uid
      && UserFirst(ids, c, exec).rgid == c.rgid
  {
  }

  /** Capability sets applied first and ids changed after, without the securebit: leaving
      root empties the effective and ambient sets, and the permitted one too. */
  lemma FixupClearsAppliedSets(ids: IdSpace, c: Cred, r: Request, uid: nat)
    requires Consistent(c) && r.Acceptable(c)
    requires c.ruid == c.euid == c.suid == 0 && uid != 0 && uid in ids.uids
    requires SETUID in r.Wanted(c) && !c.secbits.noSetuidFixup
    ensures var d := AfterUid(ids, r.Applied(c), Some(uid));
      && d.ruid == uid
      && d.effective == {} && d.ambient == {}
      && (d.permitted == {} <==> !c.secbits.keepCaps)
  {
  }

  /** Nor is the securebit only there for leaving root: without it a task that takes root as its
      effective user gets its permitted set back in effect, and with it nothing. */
  lemma FixupRestoresOnRoot(ids: IdSpace, c: Cred)
    requires c.euid != 0 && c.ruid != 0 && 0 in ids.uids && (SETUID in c.effective || c.suid == 0)
    ensures AfterUid(ids, c, Some(0)).euid == 0
    ensures AfterUid(ids, c, Some(0)).effective == if c.secbits.noSetuidFixup then c.effective else c.permitted
  {
  }

  /** In both `drop` and `raise_ambient` but not in `raise`: such a request is refused. */
  lemma DroppedAmbientRefused(c: Cred, r: Request, k: CapabilityBit)
    requires k in r.drops && k in r.raisesAmbient && k !in r.raises
    ensures !r.Acceptable(c)
  {
  }
}
