/** Blast radius of shutting a port: what lies behind its neighbours and which
    neighbours lose their way to the root. */
module ShutBlast {
  import opened Graph
  import opened Search
  import opened LeastPath
  import opened Bfs
  import opened Downhill
  import opened Topology
  import VlanBlast

  datatype DownstreamHit = DownstreamHit(deviceID: int, hop: nat, path: seq<int>, redundant: bool)

  datatype CutPath = CutPath(neighborID: int, pathViaY: seq<int>, alternatePath: seq<int>, redundant: bool)

  method SamePath(a: seq<int>, b: seq<int>) returns (same: bool)
    ensures same <==> a == b
  {
    if |a| != |b| {
      return false;
    }
    for i := 0 to |a|
      invariant forall j :: 0 <= j < i ==> a[j] == b[j]
    {
      if a[i] != b[i] {
        return false;
      }
    }
    return true;
  }

  ghost predicate Resolved(deviceID: int, nid: int) {
    nid > 0 && nid != deviceID
  }

  /** `id` lies `depth` downhill steps behind the neighbour `nid`. */
  ghost predicate Below(adj: Adj, deviceID: int, dist: Option<map<int, nat>>, limit: nat, nid: int, id: int,
                        depth: nat) {
    id != nid && depth <= limit && IsDistance(DownEdges(adj, deviceID, dist), nid, id, depth)
  }

  /** A downstream hit carries the least shortest path from its neighbour around
      the switch, and the right redundancy flag. */
  ghost predicate HitRight(adj: Adj, rootID: int, deviceID: int, dist: Option<map<int, nat>>, limit: nat, nid: int,
                           h: DownstreamHit) {
    && Resolved(deviceID, nid) && Below(adj, deviceID, dist, limit, nid, h.deviceID, h.hop)
    && PathExists(adj, nid, h.deviceID, deviceID) && IsLeastShortest(adj, nid, h.deviceID, deviceID, h.path)
    && (h.redundant <==> rootID > 0 && PathExists(adj, h.deviceID, rootID, deviceID))
  }

  ghost predicate CutRight(adj: Adj, rootID: int, deviceID: int, c: CutPath) {
    && IsPathAnswer(adj, c.neighborID, rootID, 0, c.pathViaY)
    && IsPathAnswer(adj, c.neighborID, rootID, deviceID, c.alternatePath)
    && (c.redundant <==> c.alternatePath != [] && (c.pathViaY == [] || c.pathViaY != c.alternatePath))
  }

  /** Whatever lies downhill behind a neighbour has a path from it that avoids
      the switch, so a second search without the restriction is never needed. */
  lemma BelowHasPath(adj: Adj, deviceID: int, dist: Option<map<int, nat>>, limit: nat, nid: int, id: int, depth: nat)
    requires PositiveIds(adj) && Resolved(deviceID, nid) && Below(adj, deviceID, dist, limit, nid, id, depth)
    ensures PathExists(adj, nid, id, deviceID) && depth > 0
  {
    var g := DownEdges(adj, deviceID, dist);
    var w :| IsWalk(g, w, nid, id) && |w| == depth + 1;
    assert Step(g, w, |w| - 2);
    DownWalkAvoids(adj, deviceID, dist, w, nid, id);
  }

  method HitFor(adj: Adj, rootID: int, deviceID: int, ghost dist: Option<map<int, nat>>, ghost limit: nat, nid: int,
                d: Item)
    returns (h: DownstreamHit)
    requires PositiveIds(adj) && Resolved(deviceID, nid) && Below(adj, deviceID, dist, limit, nid, d.id, d.depth)
    ensures HitRight(adj, rootID, deviceID, dist, limit, nid, h) && h.deviceID == d.id
  {
    PositiveIsZeroFree(adj);
    BelowHasPath(adj, deviceID, dist, limit, nid, d.id, d.depth);
    var path := ShortestPath(adj, nid, d.id, deviceID);
    if |path| == 0 {
      assert false;
    }
    var red := false;
    if rootID > 0 {
      var altN := ShortestPath(adj, d.id, rootID, deviceID);
      red := |altN| > 0;
    }
    h := DownstreamHit(d.id, d.depth, path, red);
  }

  method CutFor(adj: Adj, rootID: int, deviceID: int, nid: int) returns (c: CutPath)
    requires PositiveIds(adj)
    ensures CutRight(adj, rootID, deviceID, c) && c.neighborID == nid
  {
    PositiveIsZeroFree(adj);
    var pathVia := ShortestPath(adj, nid, rootID, 0);
    var alt := ShortestPath(adj, nid, rootID, deviceID);
    var same := SamePath(pathVia, alt);
    c := CutPath(nid, pathVia, alt, |alt| > 0 && (|pathVia| == 0 || !same));
  }

  /** Every hit belongs to one of the neighbours looked at so far. */
  ghost predicate HitsRight(adj: Adj, rootID: int, deviceID: int, dist: Option<map<int, nat>>, limit: nat,
                            neighborIDs: seq<int>, hits: seq<DownstreamHit>) {
    forall i :: 0 <= i < |hits| ==>
                  exists nid :: nid in neighborIDs && HitRight(adj, rootID, deviceID, dist, limit, nid, hits[i])
  }

  /** `seen` is the set of reported devices, each reported once. */
  ghost predicate SeenRight(hits: seq<DownstreamHit>, seen: set<int>) {
    && (forall i :: 0 <= i < |hits| ==> hits[i].deviceID in seen)
    && (forall id :: id in seen ==> exists i :: 0 <= i < |hits| && hits[i].deviceID == id)
    && (forall i, j :: 0 <= i < j < |hits| ==> hits[i].deviceID != hits[j].deviceID)
  }

  lemma SeenGrows(hits: seq<DownstreamHit>, seen: set<int>, h: DownstreamHit)
    requires SeenRight(hits, seen) && h.deviceID !in seen
    ensures SeenRight(hits + [h], seen + {h.deviceID})
  {
    var all := hits + [h];
    assert all[|hits|] == h;
    forall id | id in seen
      ensures exists i :: 0 <= i < |all| && all[i].deviceID == id
    {
      var i :| 0 <= i < |hits| && hits[i].deviceID == id;
      assert all[i].deviceID == id;
    }
  }

  ghost predicate Reported(adj: Adj, deviceID: int, dist: Option<map<int, nat>>, limit: nat, nid: int, seen: set<int>) {
    forall id, depth: nat :: Below(adj, deviceID, dist, limit, nid, id, depth) ==> id in seen
  }

  method DownstreamOf(adj: Adj, rootID: int, deviceID: int, dist: Option<map<int, nat>>, limit: nat,
                      neighborIDs: seq<int>, nid: int,
                      hits0: seq<DownstreamHit>, seen0: set<int>)
    returns (hits: seq<DownstreamHit>, seen: set<int>)
    requires PositiveIds(adj) && Resolved(deviceID, nid) && nid in neighborIDs && limit > 0
    requires HitsRight(adj, rootID, deviceID, dist, limit, neighborIDs, hits0) && SeenRight(hits0, seen0)
    ensures HitsRight(adj, rootID, deviceID, dist, limit, neighborIDs, hits) && SeenRight(hits, seen)
    ensures seen0 <= seen && Reported(adj, deviceID, dist, limit, nid, seen)
  {
    hide HitRight, Below, SeenRight, IsReport, HitsRight, PositiveIds, Reported;
    hits, seen := hits0, seen0;
    var desc := WalkDownWithVLAN(adj, nid, deviceID, limit, dist, x => true);
    BelowIsReported(adj, deviceID, dist, limit, nid, desc);
    for i := 0 to |desc|
      invariant HitsRight(adj, rootID, deviceID, dist, limit, neighborIDs, hits) && SeenRight(hits, seen)
      invariant seen0 <= seen && forall j :: 0 <= j < i ==> desc[j].id in seen
    {
      var d := desc[i];
      if d.id in seen {
        continue;
      }
      var h := HitFor(adj, rootID, deviceID, dist, limit, nid, d);
      HitsGrow(adj, rootID, deviceID, dist, limit, neighborIDs, hits, nid, h);
      SeenGrows(hits, seen, h);
      seen := seen + {d.id};
      hits := hits + [h];
    }
    AllReported(adj, deviceID, dist, limit, nid, desc, seen);
  }

  lemma HitsGrow(adj: Adj, rootID: int, deviceID: int, dist: Option<map<int, nat>>, limit: nat,
                 neighborIDs: seq<int>, hits: seq<DownstreamHit>, nid: int, h: DownstreamHit)
    requires HitsRight(adj, rootID, deviceID, dist, limit, neighborIDs, hits)
    requires nid in neighborIDs && HitRight(adj, rootID, deviceID, dist, limit, nid, h)
    ensures HitsRight(adj, rootID, deviceID, dist, limit, neighborIDs, hits + [h])
  {
    hide HitRight;
    var all := hits + [h];
    forall i | 0 <= i < |all|
      ensures exists nid :: nid in neighborIDs && HitRight(adj, rootID, deviceID, dist, limit, nid, all[i])
    {
      if i < |hits| {
        assert all[i] == hits[i];
      }
    }
  }

  lemma AllReported(adj: Adj, deviceID: int, dist: Option<map<int, nat>>, limit: nat, nid: int, desc: seq<Item>,
                    seen: set<int>)
    requires forall id, depth: nat :: Below(adj, deviceID, dist, limit, nid, id, depth) ==>
        exists i :: 0 <= i < |desc| && desc[i].id == id
    requires forall i :: 0 <= i < |desc| ==> desc[i].id in seen
    ensures Reported(adj, deviceID, dist, limit, nid, seen)
  {
  }

  lemma BelowIsReported(adj: Adj, deviceID: int, dist: Option<map<int, nat>>, limit: nat, nid: int, desc: seq<Item>)
    requires var always := (x: int) => true;
             IsReport(desc, DownEdges(adj, deviceID, dist), nid, limit, Wanted(nid, always))
    ensures forall i :: 0 <= i < |desc| ==> Below(adj, deviceID, dist, limit, nid, desc[i].id, desc[i].depth)
    ensures forall id, depth: nat :: Below(adj, deviceID, dist, limit, nid, id, depth) ==>
        exists i :: 0 <= i < |desc| && desc[i].id == id
  {
    forall i | 0 <= i < |desc|
      ensures Below(adj, deviceID, dist, limit, nid, desc[i].id, desc[i].depth)
    {
      assert Item(desc[i].id, desc[i].depth) in desc;
    }
    forall id, depth: nat | Below(adj, deviceID, dist, limit, nid, id, depth)
      ensures exists i :: 0 <= i < |desc| && desc[i].id == id
    {
      assert Item(id, depth) in desc;
    }
  }

  /** The neighbours that are known devices other than the switch, in order. */
  ghost function ResolvedIDs(deviceID: int, ids: seq<int>): (r: seq<int>)
    ensures forall nid :: nid in r <==> nid in ids && Resolved(deviceID, nid)
    decreases |ids|
  {
    if |ids| == 0 then []
    else
      var last := ids[|ids| - 1];
      assert ids == ids[..|ids| - 1] + [last];
      ResolvedIDs(deviceID, ids[..|ids| - 1]) + (if Resolved(deviceID, last) then [last] else [])
  }

  lemma ResolvedNext(deviceID: int, ids: seq<int>, k: nat)
    requires k < |ids|
    ensures ResolvedIDs(deviceID, ids[..k + 1]) ==
            if Resolved(deviceID, ids[k]) then ResolvedIDs(deviceID, ids[..k]) + [ids[k]]
            else ResolvedIDs(deviceID, ids[..k])
  {
    assert ids[..k + 1][..k] == ids[..k];
  }

  ghost function CutIDs(cutPaths: seq<CutPath>): seq<int> {
    seq(|cutPaths|, i requires 0 <= i < |cutPaths| => cutPaths[i].neighborID)
  }

  lemma CutIDsGrow(cutPaths: seq<CutPath>, c: CutPath)
    ensures CutIDs(cutPaths + [c]) == CutIDs(cutPaths) + [c.neighborID]
  {
  }

  method BuildShutBlast(adj: Adj, rootID: int, dist: Option<map<int, nat>>, deviceID: int, neighborIDs: seq<int>,
                        maxDepth: int)
    returns (downstream: seq<DownstreamHit>, cutPaths: seq<CutPath>, ghost seen: set<int>)
    requires PositiveIds(adj)
    ensures var limit := VlanBlast.EffectiveMaxDepth(maxDepth);
            && HitsRight(adj, rootID, deviceID, dist, limit, neighborIDs, downstream) && SeenRight(downstream, seen)
            && forall nid :: nid in neighborIDs && Resolved(deviceID, nid) ==>
                Reported(adj, deviceID, dist, limit, nid, seen)
    ensures forall i :: 0 <= i < |cutPaths| ==> CutRight(adj, rootID, deviceID, cutPaths[i])
    ensures CutIDs(cutPaths) == if rootID > 0 then ResolvedIDs(deviceID, neighborIDs) else []
  {
    var limit := VlanBlast.EffectiveMaxDepth(maxDepth);
    downstream, cutPaths := [], [];
    var seenDown: set<int> := {};
    hide HitsRight, SeenRight, Reported, CutRight, PositiveIds, CutIDs, ResolvedIDs;
    NoHits(adj, rootID, deviceID, dist, limit, neighborIDs);
    for k := 0 to |neighborIDs|
      invariant HitsRight(adj, rootID, deviceID, dist, limit, neighborIDs, downstream)
      invariant SeenRight(downstream, seenDown)
      invariant forall i :: 0 <= i < |cutPaths| ==> CutRight(adj, rootID, deviceID, cutPaths[i])
      invariant forall j :: 0 <= j < k && Resolved(deviceID, neighborIDs[j]) ==>
                              Reported(adj, deviceID, dist, limit, neighborIDs[j], seenDown)
      invariant CutIDs(cutPaths) == if rootID > 0 then ResolvedIDs(deviceID, neighborIDs[..k]) else []
    {
      var nid := neighborIDs[k];
      ResolvedNext(deviceID, neighborIDs, k);
      if nid <= 0 || nid == deviceID {
        continue;
      }
      ghost var before := seenDown;
      var c := CutFor(adj, rootID, deviceID, nid);
      if rootID > 0 {
        CutIDsGrow(cutPaths, c);
        cutPaths := cutPaths + [c];
      }
      downstream, seenDown := DownstreamOf(adj, rootID, deviceID, dist, limit, neighborIDs, nid, downstream, seenDown);
      forall j | 0 <= j < k && Resolved(deviceID, neighborIDs[j])
        ensures Reported(adj, deviceID, dist, limit, neighborIDs[j], seenDown)
      {
        MoreSeen(adj, deviceID, dist, limit, neighborIDs[j], before, seenDown);
      }
    }
    assert neighborIDs[..|neighborIDs|] == neighborIDs;
    seen := seenDown;
  }

  lemma NoHits(adj: Adj, rootID: int, deviceID: int, dist: Option<map<int, nat>>, limit: nat, neighborIDs: seq<int>)
    ensures HitsRight(adj, rootID, deviceID, dist, limit, neighborIDs, []) && SeenRight([], {})
    ensures CutIDs([]) == [] == ResolvedIDs(deviceID, neighborIDs[..0])
  {
  }

  lemma MoreSeen(adj: Adj, deviceID: int, dist: Option<map<int, nat>>, limit: nat, nid: int, before: set<int>,
                 seen: set<int>)
    requires Reported(adj, deviceID, dist, limit, nid, before) && before <= seen
    ensures Reported(adj, deviceID, dist, limit, nid, seen)
  {
  }

  /** With true distances on a symmetric graph, or without any distances, the hop
      count of a downstream hit is the number of edges of its path. */
  lemma HopIsPathLength(adj: Adj, rootID: int, deviceID: int, dist: Option<map<int, nat>>, limit: nat, nid: int,
                        h: DownstreamHit)
    requires Symmetric(EdgesOf(adj)) && deviceID > 0 && HitRight(adj, rootID, deviceID, dist, limit, nid, h)
    requires dist.Some? ==> IsDistanceMap(EdgesOf(adj), rootID, dist.value)
    ensures h.hop == |h.path| - 1
  {
    var g, a := DownEdges(adj, deviceID, dist), Avoiding(adj, deviceID);
    var w :| IsWalk(g, w, nid, h.deviceID) && |w| == h.hop + 1;
    DownWalkAvoids(adj, deviceID, dist, w, nid, h.deviceID);
    assert |h.path| <= |w|;
    if dist.Some? && nid in dist.value {
      DownWalkDepth(adj, deviceID, rootID, dist.value, w, nid, h.deviceID);
      WalkRelaxes(adj, deviceID, rootID, dist.value, h.path, nid, h.deviceID);
    } else {
      AvoidingWalks(adj, deviceID, h.path, nid, h.deviceID);
      UnknownIsUnrestricted(adj, deviceID, rootID, dist, h.path, nid, h.deviceID);
    }
  }

  /** Any walk of n edges lengthens the distance from the root by at most n. */
  lemma {:induction false} WalkRelaxes(adj: Adj, y: int, root: int, dist: map<int, nat>, w: seq<int>, s: int, t: int)
    requires IsDistanceMap(EdgesOf(adj), root, dist) && s in dist && IsWalk(Avoiding(adj, y), w, s, t)
    ensures t in dist && dist[t] < dist[s] + |w|
    decreases |w|
  {
    if |w| > 1 {
      var n := |w| - 2;
      WalkPrefix(Avoiding(adj, y), w, s, t, n);
      WalkRelaxes(adj, y, root, dist, w[..n + 1], s, w[n]);
      assert Step(Avoiding(adj, y), w, n);
      assert (w[n], t) in EdgesOf(adj);
      EdgeRelaxes(EdgesOf(adj), root, dist, w[n], t);
    }
  }

  /** Where the distances say nothing about a neighbour they say nothing about
      anything it reaches, so every walk around the switch counts as downhill. */
  lemma {:induction false} UnknownIsUnrestricted(adj: Adj, y: int, root: int, dist: Option<map<int, nat>>, w: seq<int>,
                                                 s: int, t: int)
    requires Symmetric(EdgesOf(adj))
    requires (dist.Some? ==> IsDistanceMap(EdgesOf(adj), root, dist.value) && s !in dist.value)
    requires IsWalk(Avoiding(adj, y), w, s, t) && s != y && y !in w
    ensures IsWalk(DownEdges(adj, y, dist), w, s, t) && (dist.Some? ==> t !in dist.value)
    decreases |w|
  {
    var a, g := Avoiding(adj, y), DownEdges(adj, y, dist);
    if |w| > 1 {
      var n := |w| - 2;
      WalkPrefix(a, w, s, t, n);
      UnknownIsUnrestricted(adj, y, root, dist, w[..n + 1], s, w[n]);
      assert Step(a, w, n);
      assert (w[n], t) in g;
      WalkExtend(g, w[..n + 1], s, w[n], t);
      assert w == w[..n + 1] + [t];
      if dist.Some? && t in dist.value {
        assert (t, w[n]) in EdgesOf(adj);
        EdgeRelaxes(EdgesOf(adj), root, dist.value, t, w[n]);
        assert false;
      }
    }
  }

  /** The flag of a cut path, exactly: there is a bypass and the switch lies on
      the path the search picked.  A bypass alone does not set it. */
  lemma CutFlagMeans(adj: Adj, rootID: int, deviceID: int, c: CutPath)
    requires CutRight(adj, rootID, deviceID, c) && deviceID > 0
    ensures c.redundant <==> PathExists(adj, c.neighborID, rootID, deviceID) && deviceID in c.pathViaY
  {
    var nid, via, alt := c.neighborID, c.pathViaY, c.alternatePath;
    var a := Avoiding(adj, deviceID);
    if PathExists(adj, nid, rootID, deviceID) {
      NothingAvoided(adj, 0);
      AvoidingWalks(adj, deviceID, alt, nid, rootID);
      assert PathExists(adj, nid, rootID, 0);
      if deviceID !in via {
        AvoidingWalks(adj, deviceID, via, nid, rootID);
        assert |via| == |alt|;
        forall w | IsWalk(a, w, nid, rootID) && |w| == |via|
          ensures w == via || Before(adj, via, w)
        {
          AvoidingWalks(adj, deviceID, w, nid, rootID);
        }
        assert Least(adj, a, via, nid, rootID);
        LeastUnique(adj, a, via, alt, nid, rootID);
      }
    }
  }

  /** A neighbour that is the root itself keeps its way to the root, yet its flag
      stays off: the reported path never went through the switch. */
  lemma BypassWithoutFlag(c: CutPath)
    requires CutRight(map[1 := [2], 2 := [1]], 2, 1, c) && c.neighborID == 2
    ensures PathExists(map[1 := [2], 2 := [1]], 2, 2, 1) && !c.redundant && c.pathViaY != []
  {
    var adj := map[1 := [2], 2 := [1]];
    assert IsWalk(Avoiding(adj, 1), [2], 2, 2);
    assert IsWalk(Avoiding(adj, 0), [2], 2, 2);
    assert PathExists(adj, 2, 2, 0);
    assert |c.pathViaY| == 1;
    CutFlagMeans(adj, 2, 1, c);
  }
}
