/** The launch protocol and the preparation together: what a request that asks for a user
    namespace makes of the ids and capabilities of its workload (src/wrap.rs). */
module Workload {
  import opened Wrappers
  import opened CapabilityBits
  import opened Namespaces
  import opened IdMappings
  import opened MapRules
  import opened Credentials
  import opened Preexec
  import opened Requests
  import Launch
  import RequestResults

  /** The ids of the namespace that a list of mappings covers. */
  function Mapped(mappings: seq<IdMapping>): set<nat> {
    if mappings == [] then {} else Range(mappings[0].baseNsid, mappings[0].remapCount) + Mapped(mappings[1..])
  }

  function Range(base: nat, count: nat): (ids: set<nat>)
    ensures forall id: nat :: id in ids <==> base <= id < base + count
  {
    if count == 0 then {} else Range(base, count - 1) + {base + count - 1}
  }

  lemma {:induction false} MappedIff(mappings: seq<IdMapping>, id: nat)
    ensures id in Mapped(mappings) <==> MapsId(mappings, id)
  {
    if mappings != [] {
      MappedIff(mappings[1..], id);
      assert mappings == [mappings[0]] + mappings[1..];
      assert mappings[0] in mappings;
    }
  }

  /** What the writes of the supervisor mean for the processes inside: setgroups(2) needs a
      group map and no "deny". */
  function IdSpaceOf(maps: Launch.Maps): IdSpace {
    IdSpace(Mapped(maps.uidMap.GetOr([])), Mapped(maps.gidMap.GetOr([])),
            maps.gidMap.Some? && !maps.setgroupsDenied)
  }

  /** The credentials of a process that has entered a new user namespace. */
  ghost predicate NewInUserNamespace(c: Cred) {
    c == EnterUserNamespace(c)
  }

  /** Everything in the effective, permitted and bounding sets, nothing in the others, securebits
      clear; the ids and no_new_privs are kept. */
  lemma EnteredIs(c: Cred)
    ensures var d := EnterUserNamespace(c);
      && (forall k: CapabilityBit :: k in d.effective && k in d.permitted && k in d.bounding)
      && d.inheritable == {} && d.ambient == {}
      && d.secbits == SecureBits(false, false, false, false, false, false, false, false)
      && d == c.(effective := d.effective, permitted := d.permitted, bounding := d.bounding,
                 inheritable := d.inheritable, ambient := d.ambient, secbits := d.secbits)
  {
  }

  /** In a new user namespace everything can be dropped and raised; what is refused is an
      unknown name, and a capability that is dropped, raised as ambient, but not raised. */
  lemma AcceptedIff(c: Cred, caps: Capabilities)
    requires NewInUserNamespace(c)
    ensures PrepAccepted(c, Some(caps)) <==>
      && NamesKnown(caps)
      && var r := Asked(caps); r.drops * r.raisesAmbient <= r.raises
  {
    var all := UpTo(LAST_CAP);
    if NamesKnown(caps) {
      var r := Asked(caps);
      assert r.raises <= all && r.raisesAmbient <= all;
      assert r.Wanted(c) == (all - r.drops) + r.raises;
      if r.drops * r.raisesAmbient <= r.raises {
        assert r.raisesAmbient <= r.Wanted(c);
      } else {
        var k :| k in r.drops * r.raisesAmbient && k !in r.raises;
        assert k !in r.Wanted(c);
      }
    }
  }

  /** Whether a request for a user namespace gets past the preparation does not depend on the
      host. */
  lemma PreparesIff(req: LaunchRequest, h: Host)
    requires User in req.TargetNs()
    ensures Prepares(req, h) <==>
      || req.capabilities.None?
      || (&& NamesKnown(req.capabilities.value)
          && var r := Asked(req.capabilities.value); r.drops * r.raisesAmbient <= r.raises)
  {
    var c := EnterUserNamespace(h.cred);
    if req.capabilities.Some? {
      AcceptedIff(c, req.capabilities.value);
    }
  }

  /** The id space of the workload's user namespace, if all that the request calls for reached it:
      from the request, and from whether the host had denied setgroups(2) already. */
  lemma SpaceAtPreparation(req: LaunchRequest, h: Host, s: Launch.State)
    requires HostSound(h) && User in req.TargetNs() && s.cpc.CPrep?
    ensures Launch.Reachable(PlanOf(req, h), s) && RequestResults.WritesReach(req, h) ==> IdSpaceOf(s.maps) == IdSpace(
      Mapped(req.uidMappings.GetOr([])), Mapped(req.gidMappings.GetOr([])),
      req.gidMappings.GetOr([]) != [] && req.setgroupsDeny == Some(false) && !h.groupsDenied)
  {
    RequestResults.PreparedOnlyAfterRelease(req, h, s);
    assert Mapped([]) == {};
  }

  /** Exactly which ids and groups a workload in its own user namespace is given. An id that
      is not mapped is not reached and not reported; nor are supplementary groups, unless the
      request itself turns the denial of setgroups(2) off, which is on by default, on a host that
      has not denied it. */
  lemma IdsOfWorkload(req: LaunchRequest, h: Host, s: Launch.State, c: Cred, gid: nat, uid: nat, gids: seq<nat>,
                      caps: Capabilities)
    requires HostSound(h) && User in req.TargetNs() && s.cpc.CPrep? && NewInUserNamespace(c)
    requires NamesKnown(caps) && Asked(caps).drops * Asked(caps).raisesAmbient <= Asked(caps).raises
    ensures PrepAccepted(c, Some(caps))
    ensures var d := Prepared(IdSpaceOf(s.maps), c, ExecIds(Some(gid), Some(uid), Some(gids)), Some(caps));
            var wanted := set g | g in gids;
            var mappedGids := Mapped(req.gidMappings.GetOr([]));
      Launch.Reachable(PlanOf(req, h), s) && RequestResults.WritesReach(req, h) ==>
      && (d.rgid == gid <==> c.rgid == gid || gid in mappedGids)
      && (d.rgid == d.egid == d.sgid == gid <==>
          if c.rgid == gid then c.egid == c.sgid == gid else gid in mappedGids)
      && (d.ruid == uid <==> c.ruid == uid || uid in Mapped(req.uidMappings.GetOr([])))
      && (d.ruid == d.euid == d.suid == uid <==>
          if c.ruid == uid then c.euid == c.suid == uid else uid in Mapped(req.uidMappings.GetOr([])))
      && (d.groups == wanted <==>
          || c.groups == wanted
          || (&& req.gidMappings.GetOr([]) != [] && req.setgroupsDeny == Some(false) && !h.groupsDenied
              && wanted <= mappedGids))
  {
    AcceptedIff(c, caps);
    SpaceAtPreparation(req, h, s);
    IdsReachedIff(IdSpaceOf(s.maps), c.(secbits := SECBIT_NO_SETUID_FIXUP), gid, uid, gids);
  }

  /** The capability sets of such a workload, and what none of its later calls brings back:
      exactly what was dropped and not raised. */
  lemma CapabilitiesOfWorkload(ids: IdSpace, c: Cred, exec: ExecIds, caps: Capabilities, k: CapabilityBit)
    requires NewInUserNamespace(c)
    requires NamesKnown(caps) && Asked(caps).drops * Asked(caps).raisesAmbient <= Asked(caps).raises
    ensures PrepAccepted(c, Some(caps))
    ensures var d := Prepared(ids, c, exec, Some(caps));
            var r := Asked(caps);
            var kept := (UpTo(LAST_CAP) - r.drops) + r.raises;
      && d.effective == d.permitted == d.inheritable == kept
      && d.bounding == kept
      && d.ambient == r.raisesAmbient
      && (k in kept <==> exists steps :: k in Run(ids, d, steps).permitted)
  {
    var d := Prepared(ids, c, exec, Some(caps));
    var r := Asked(caps);
    AcceptedIff(c, caps);
    PreparedConsistent(ids, c, exec, caps);
    BoundingIsKept(r);
    RegainableIff(ids, d, k);
  }

  lemma BoundingIsKept(r: Request)
    requires r.drops * r.raisesAmbient <= r.raises
    ensures UpTo(LAST_CAP) - r.BoundingDrops() == (UpTo(LAST_CAP) - r.drops) + r.raises
  {
  }
}
