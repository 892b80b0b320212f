/** What the container sees, from the request and the host alone (`pivot_fs`, src/wrap.rs). */
module ContainerResults {
  import opened Wrappers
  import opened Paths
  import opened MountTable
  import opened Hardening
  import opened MountCalls
  import opened PivotFs
  import opened StableNodes
  import opened TreeView
  import opened MountAcceptance
  import opened ContainerView
  import opened HardenedTree

  /** The container paths that are made read-only on request. */
  function Listed(req: FsRequest): set<Path> {
    Named(req.readonlyPaths.GetOr([]))
  }

  function MaskedIn(req: FsRequest): set<Path> {
    Named(req.maskedPaths.GetOr([]))
  }

  // ----- the root file system -----

  /** A container path apart from /proc, from the requested mounts and from the masked paths is
      what the root file system had there, in the same place, with the attributes it had, and
      read-only besides exactly if a read-only root covers it or it is at or below a read-only
      path. */
  lemma ContainerShowsRootfs(sb: Superblock, start: Space, req: FsRequest, r: Path)
    requires Realistic(sb) && Sane(start) && Apart(Covers(req), r) && Apart(MaskedIn(req), r)
    ensures var after, q := PivotedTree(sb, start, req), Source(req) + r;
      after.Some? ==>
      && (StatAt(start, q).Exists? ==> StatAt(after.value, r) == StatAt(start, q))
      && (StatAt(after.value, r).Exists? ==>
          && Where(after.value, r) == Where(start, q)
          && Attrs(after.value, r) == Covered(RootCovers(start, req, r) || ListedAbove(Listed(req), r), Attrs(start, q)))
  {
    PivotedTreeIff(sb, start, req);
    if PivotedTree(sb, start, req).Some? {
      AssembledShows(sb, start, req, r);
      AssembledHolds(sb, start, req, r);
      UnmaskedSight(Assembled(sb, start, req).value, PivotedTree(sb, start, req).value, req, r);
    }
  }

  // ----- requested mounts -----

  /** At and below the target of a requested mount that no later one covers, the container shows
      what the source of the mount holds, under the attributes asked for. */
  lemma ContainerShowsMount(sb: Superblock, start: Space, req: FsRequest, i: nat, t: Path)
    requires Realistic(sb) && Sane(start) && i < |req.mounts.GetOr([])|
    requires var mounts := req.mounts.GetOr([]);
      && (mounts[i].bind || !mounts[i].unshare)
      && Apart(Targets(mounts[i + 1..]), Components(mounts[i].target) + t)
      && Apart(MaskedIn(req), Components(mounts[i].target) + t)
    ensures var m, made, after := req.mounts.GetOr([])[i], BeforeMount(sb, start, req, i), PivotedTree(sb, start, req);
            var r := Components(m.target) + t;
      after.Some? ==>
      && made.Some? && Mountable(sb, m)
      && (SourceStat(sb, made.value, m, t).Exists? ==> StatAt(after.value, r) == SourceStat(sb, made.value, m, t))
      && (StatAt(after.value, r).Exists? ==>
          && Where(after.value, r) == SourceSight(made.value, m, t).0
          && Attrs(after.value, r)
             == Covered(ListedAbove(Listed(req), r), SourceSight(made.value, m, t).1.With(Added(m))))
  {
    PivotedTreeIff(sb, start, req);
    if PivotedTree(sb, start, req).Some? {
      RequestedMountSight(sb, start, req, i, t);
      RequestedMountHolds(sb, start, req, i, t);
      UnmaskedSight(Assembled(sb, start, req).value, PivotedTree(sb, start, req).value, req,
                    Components(req.mounts.GetOr([])[i].target) + t);
    }
  }

  /** The source of a recursive bind, if it is outside the tree, is the host's. */
  lemma HostSource(sb: Superblock, start: Space, req: FsRequest, i: nat, t: Path)
    requires Sane(start) && i < |req.mounts.GetOr([])|
    requires var m := req.mounts.GetOr([])[i];
      m.bind && m.recurse && m.source.Some? && Outside(req, Components(m.source.value) + t)
    ensures var m, made := req.mounts.GetOr([])[i], BeforeMount(sb, start, req, i);
            var q := Components(m.source.value) + t;
      made.Some? ==> SourceSight(made.value, m, t) == (Where(start, q), Attrs(start, q))
  {
    BeforeMountOutside(sb, start, req, i, Components(req.mounts.GetOr([])[i].source.value) + t);
  }

  lemma {:induction false} HostSourceStat(sb: Superblock, start: Space, req: FsRequest, i: nat, t: Path)
    requires Sane(start) && i < |req.mounts.GetOr([])| && Mountable(sb, req.mounts.GetOr([])[i])
    requires var m := req.mounts.GetOr([])[i];
      && m.bind && m.recurse && Outside(req, Components(m.source.value) + t)
      && StatAt(start, Components(m.source.value) + t).Exists?
    ensures var m, made := req.mounts.GetOr([])[i], BeforeMount(sb, start, req, i);
      made.Some? ==> SourceStat(sb, made.value, m, t) == StatAt(start, Components(m.source.value) + t)
    decreases |t|
  {
    var m, made := req.mounts.GetOr([])[i], BeforeMount(sb, start, req, i);
    var src := Components(m.source.value);
    HostSource(sb, start, req, i, t);
    BeforeMountGrows(sb, start, req, i);
    assert NodeAt(start, src + t) == StatAt(start, src + t);
    if t != [] {
      var parent := t[..|t| - 1];
      assert (src + t)[..|src + t| - 1] == src + parent;
      OutsideAbove(req, src + parent, src + t);
      HostSourceStat(sb, start, req, i, parent);
    }
  }

  lemma OutsideAbove(req: FsRequest, p: Path, q: Path)
    requires Outside(req, q) && p <= q
    ensures Outside(req, p)
  {
    assert Components(req.Root()) <= p ==> Components(req.Root()) <= q;
    assert Components(req.StageBase()) <= p ==> Components(req.StageBase()) <= q;
  }

  /** A path of the host bound recursively into the container is there with all it holds. */
  lemma ContainerShowsHostPath(sb: Superblock, start: Space, req: FsRequest, i: nat, t: Path)
    requires Realistic(sb) && Sane(start) && i < |req.mounts.GetOr([])|
    requires var mounts := req.mounts.GetOr([]);
      && mounts[i].bind && mounts[i].recurse && mounts[i].source.Some?
      && Outside(req, Components(mounts[i].source.value) + t)
      && StatAt(start, Components(mounts[i].source.value) + t).Exists?
      && Apart(Targets(mounts[i + 1..]), Components(mounts[i].target) + t)
      && Apart(MaskedIn(req), Components(mounts[i].target) + t)
    ensures var m, after := req.mounts.GetOr([])[i], PivotedTree(sb, start, req);
            var q, r := Components(m.source.value) + t, Components(m.target) + t;
      after.Some? ==>
      && StatAt(after.value, r) == StatAt(start, q)
      && Where(after.value, r) == Where(start, q)
      && Attrs(after.value, r) == Covered(ListedAbove(Listed(req), r), Attrs(start, q).With(Added(m)))
  {
    ContainerShowsMount(sb, start, req, i, t);
    if PivotedTree(sb, start, req).Some? {
      HostSource(sb, start, req, i, t);
      HostSourceStat(sb, start, req, i, t);
    }
  }

  /** A requested directory whose target is not absolute is there in the container, unless it is at
      or below a masked path. */
  lemma ContainerShowsDirectory(sb: Superblock, start: Space, req: FsRequest, i: nat)
    requires Realistic(sb) && Sane(start) && i < |req.mutations.GetOr([])|
    requires var target := req.mutations.GetOr([])[i];
      (target == "" || target[0] != '/') && Apart(MaskedIn(req), Components(target))
    ensures var after := PivotedTree(sb, start, req);
      after.Some? ==> StatAt(after.value, Components(req.mutations.GetOr([])[i])) == Exists(Dir)
  {
    PivotedTreeIff(sb, start, req);
    if PivotedTree(sb, start, req).Some? {
      var target := req.mutations.GetOr([])[i];
      AssembledMakes(sb, start, req, i);
      MutationInsideIff(req.Root(), target);
      UnmaskedSight(Assembled(sb, start, req).value, PivotedTree(sb, start, req).value, req, Components(target));
    }
  }

  // ----- /proc -----

  /** Apart from requested mounts and masks, the container's /proc is a new instance of procfs,
      with all it holds, read-only exactly at and below a read-only path. */
  lemma ContainerShowsProc(sb: Superblock, start: Space, req: FsRequest, p: Path)
    requires Realistic(sb) && Sane(start)
    requires Apart(Targets(req.mounts.GetOr([])), PROC + p) && Apart(MaskedIn(req), PROC + p)
    ensures var after, bound := PivotedTree(sb, start, req), RootBound(sb, start, req);
      after.Some? ==>
      && bound.Some?
      && bound.value.nextFs in after.value.procs && start.nextFs <= bound.value.nextFs
      && (ProcStat(sb, p).Exists? ==> StatAt(after.value, PROC + p) == ProcStat(sb, p))
      && (StatAt(after.value, PROC + p).Exists? ==>
          && Where(after.value, PROC + p) == Loc(bound.value.nextFs, p)
          && Attrs(after.value, PROC + p) == MountAttrs(true, ListedAbove(Listed(req), PROC + p)))
  {
    PivotedTreeIff(sb, start, req);
    if PivotedTree(sb, start, req).Some? {
      RootBoundGrows(sb, start, req);
      ProcOfContainer(sb, start, req, p);
      ProcHolds(sb, start, req, p);
      UnmaskedSight(Assembled(sb, start, req).value, PivotedTree(sb, start, req).value, req, PROC + p);
    }
  }
}
