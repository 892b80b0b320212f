/** When the kernel accepts a uid_map or gid_map: user_namespaces(7), "Defining user and group ID
    mappings: writing to uid_map and gid_map". */
module MapRules {
  import opened Wrappers
  import opened IdMappings

  /** A text must be shorter than a page. */
  const PAGE_SIZE := 4096

  const MAX_LINES := 340

  const ID_LIMIT := 0x1_0000_0000

  /** Two ranges of ids have one in common. */
  predicate Overlap(a: nat, n: nat, b: nat, m: nat) {
    a < b + m && b < a + n
  }

  /** Neither empty nor wrapping around. */
  predicate ProperLine(m: IdMapping) {
    m.remapCount > 0 && m.baseNsid + m.remapCount < ID_LIMIT && m.baseHostid + m.remapCount < ID_LIMIT
  }

  predicate Disjoint(a: IdMapping, b: IdMapping) {
    && !Overlap(a.baseNsid, a.remapCount, b.baseNsid, b.remapCount)
    && !Overlap(a.baseHostid, a.remapCount, b.baseHostid, b.remapCount)
  }

  predicate WellFormed(list: seq<IdMapping>) {
    && 1 <= |list| <= MAX_LINES
    && (forall i :: 0 <= i < |list| ==> ProperLine(list[i]))
    && (forall i, j :: 0 <= i < j < |list| ==> Disjoint(list[i], list[j]))
  }

  /** What the kernel reads out of a text that it accepts. */
  function KernelReads(text: string): Option<seq<IdMapping>> {
    match ReadMap(text)
    case None => None
    case Some(list) => if |text| < PAGE_SIZE && WellFormed(list) then Some(list) else None
  }

  /** What decides about the writes of the supervisor: its ids as its own user namespace names
      them, whether it has CAP_SETUID, CAP_SETGID and CAP_SETFCAP there, the maps of that
      namespace, and whether setgroups(2) is denied in it, which the new one inherits. */
  datatype Writer = Writer(
    uid: nat, gid: nat,
    setUids: bool, setGids: bool, setFcaps: bool,
    uids: seq<IdMapping>, gids: seq<IdMapping>,
    groupsDenied: bool)

  /** A range of host ids that the parent namespace maps as a whole. */
  predicate HostMaps(host: seq<IdMapping>, m: IdMapping) {
    exists h :: h in host && h.baseNsid <= m.baseHostid && m.baseHostid + m.remapCount <= h.baseNsid + h.remapCount
  }

  /** An id of a namespace that the map of the namespace covers. */
  predicate MapsId(list: seq<IdMapping>, id: nat) {
    exists m :: m in list && m.baseNsid <= id < m.baseNsid + m.remapCount
  }

  /** A single line that maps a single id: one's own. */
  predicate MapsOnly(list: seq<IdMapping>, id: nat) {
    |list| == 1 && list[0].remapCount == 1 && list[0].baseHostid == id
  }

  /** Whether a writer, in the parent namespace or inside the new one, may install a uid map.
      Inside it has no capability in the parent. */
  predicate UidMapAllowed(w: Writer, inside: bool, list: seq<IdMapping>) {
    && ((exists m :: m in list && m.baseHostid == 0) ==> w.setFcaps)
    && (forall m :: m in list ==> HostMaps(w.uids, m))
    && (MapsOnly(list, w.uid) || (!inside && w.setUids))
  }

  /** The same for a gid map; one's own group without privilege only once setgroups(2) is
      denied. */
  predicate GidMapAllowed(w: Writer, inside: bool, denied: bool, list: seq<IdMapping>) {
    && (forall m :: m in list ==> HostMaps(w.gids, m))
    && ((denied && MapsOnly(list, w.gid)) || (!inside && w.setGids))
  }

  /** The parent namespace of an ordinary host maps every id. */
  const ALL_IDS := [IdMapping(0, 0, 0xFFFF_FFFF)]

  /** From inside the new namespace, one line for one id is all that can be mapped. */
  lemma InsideIff(w: Writer, list: seq<IdMapping>)
    requires w.uids == ALL_IDS && WellFormed(list)
    ensures UidMapAllowed(w, true, list) <==> MapsOnly(list, w.uid) && (w.uid == 0 ==> w.setFcaps)
  {
    forall m | m in list
      ensures HostMaps(w.uids, m)
    {
      var i :| 0 <= i < |list| && list[i] == m;
      assert ProperLine(list[i]);
      assert ALL_IDS[0] in ALL_IDS;
    }
    if MapsOnly(list, w.uid) {
      assert list[0] in list;
    }
  }
}
