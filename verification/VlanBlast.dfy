/** Blast radius of deleting VLANs from a switch Y. */
module VlanBlast {
  import opened Graph
  import opened Search
  import opened Bfs
  import opened Downhill
  import opened Topology

  datatype Override = NoOverride | Uplink | Downlink

  datatype Direction = Up | Down | Peer | Unknown | OverrideUp | OverrideDown

  datatype NeighborEdge = NeighborEdge(ifIndex: int, protocol: string, remoteID: int)

  datatype Hit = Hit(vlan: int, ifIndex: int, protocol: string, direction: Direction, descendant: bool, hop: nat,
                     redundant: bool,
                     deviceID: int, pathViaY: seq<int>, alternatePath: seq<int>)

  datatype Reason = UnresolvedNeighbor | VlanNotOnLink | NeighborNoVlan | TowardCore | NotDownward

  datatype Skip = Skip(vlan: int, ifIndex: int, protocol: string, reason: Reason, neighborID: int)

  datatype HitKey = NeighborKey(vlan: int, edge: NeighborEdge) | DescendantKey(vlan: int, ifIndex: int, id: int)

  /** Everything the analysis reads; the VLAN inventories are two predicates. */
  datatype Input = Input(deviceID: int, vlanIDs: seq<int>, rootID: int, dist: Option<map<int, nat>>, adj: Option<Adj>,
                         overrides: map<int, Override>, neighbors: seq<NeighborEdge>, maxDepth: int,
                         onLink: (NeighborEdge, int) -> bool, hasVLAN: (int, int) -> bool)

  function EffectiveMaxDepth(configured: int): (depth: nat)
    ensures depth > 0 && (configured > 0 ==> depth == configured)
    ensures configured < 0 ==> depth == 32
    ensures configured == 0 ==> depth == 1_000_000
  {
    if configured < 0 then 32 else if configured == 0 then 1_000_000 else configured
  }

  function OrientLink(distY: Option<nat>, distN: Option<nat>, override: Override): Direction {
    match override
    case Uplink => OverrideUp
    case Downlink => OverrideDown
    case NoOverride =>
      if distY.None? || distN.None? then Unknown
      else if distN.value < distY.value then Up
      else if distN.value > distY.value then Down
      else Peer
  }

  predicate IsTowardCore(dir: Direction) {
    dir == Up || dir == OverrideUp
  }

  predicate IsDownwardRisk(dir: Direction) {
    dir == Down || dir == Peer || dir == Unknown || dir == OverrideDown
  }

  function Lookup(dist: Option<map<int, nat>>, id: int): Option<nat> {
    if dist.Some? && id in dist.value then Some(dist.value[id]) else None
  }

  function DirectionOf(in_: Input, n: NeighborEdge): Direction {
    OrientLink(Lookup(in_.dist, in_.deviceID), Lookup(in_.dist, n.remoteID),
               if n.ifIndex in in_.overrides then in_.overrides[n.ifIndex] else NoOverride)
  }

  function AdjOf(in_: Input): (adj: Adj)
    ensures in_.adj == Some(adj) || (in_.adj == None && adj == map[])
  {
    if in_.adj.Some? then in_.adj.value else map[]
  }

  /** What the callers guarantee of the graph. */
  ghost predicate WellFormed(in_: Input) {
    PositiveIds(AdjOf(in_)) && Symmetric(EdgesOf(AdjOf(in_)))
  }

  ghost predicate RootKnown(in_: Input) {
    in_.rootID > 0 && in_.adj.Some?
  }

  ghost predicate Resolved(in_: Input, n: NeighborEdge) {
    n.remoteID > 0 && n.remoteID != in_.deviceID
  }

  /** The port's description names a direction. */
  ghost predicate Says(in_: Input, n: NeighborEdge, o: Override) {
    n.ifIndex in in_.overrides && in_.overrides[n.ifIndex] == o
  }

  ghost predicate BothPlaced(in_: Input, n: NeighborEdge) {
    in_.dist.Some? && in_.deviceID in in_.dist.value && n.remoteID in in_.dist.value
  }

  /** The neighbour is known to be nearer to the root than the switch. */
  ghost predicate Nearer(in_: Input, n: NeighborEdge) {
    BothPlaced(in_, n) && in_.dist.value[n.remoteID] < in_.dist.value[in_.deviceID]
  }

  /** The VLAN goes over the link to a device that has it, and the link does not
      lead towards the core; what the port says goes before the distances. */
  ghost predicate Qualifies(in_: Input, n: NeighborEdge, vid: int) {
    && Resolved(in_, n) && in_.onLink(n, vid) && in_.hasVLAN(n.remoteID, vid)
    && (Says(in_, n, Downlink) || (!Says(in_, n, Uplink) && !Nearer(in_, n)))
  }

  ghost predicate PointsTo(in_: Input, n: NeighborEdge, dir: Direction) {
    && (Says(in_, n, Uplink) ==> dir == OverrideUp)
    && (Says(in_, n, Downlink) ==> dir == OverrideDown)
    && (!Says(in_, n, Uplink) && !Says(in_, n, Downlink) ==>
          if !BothPlaced(in_, n) then dir == Unknown
          else
            var here, there := in_.dist.value[in_.deviceID], in_.dist.value[n.remoteID];
            (dir == Up <==> there < here) && (dir == Down <==> there > here) && (dir == Peer <==> there == here))
  }

  lemma DirectionPoints(in_: Input, n: NeighborEdge)
    ensures PointsTo(in_, n, DirectionOf(in_, n))
    ensures IsTowardCore(DirectionOf(in_, n)) <==>
            Says(in_, n, Uplink) || (!Says(in_, n, Downlink) && Nearer(in_, n))
    ensures IsTowardCore(DirectionOf(in_, n)) != IsDownwardRisk(DirectionOf(in_, n))
  {
  }

  /** The device lies `depth` downhill steps behind the neighbour and carries the VLAN. */
  ghost predicate Behind(in_: Input, n: NeighborEdge, vid: int, id: int, depth: nat) {
    && id != n.remoteID && in_.hasVLAN(id, vid) && depth <= EffectiveMaxDepth(in_.maxDepth)
    && IsDistance(DownEdges(AdjOf(in_), in_.deviceID, in_.dist), n.remoteID, id, depth)
  }

  /** The flags and paths of a hit say whether the device reaches the root
      around Y. */
  ghost predicate FlagsRight(in_: Input, h: Hit) {
    && (h.redundant <==> RootKnown(in_) && PathExists(AdjOf(in_), h.deviceID, in_.rootID, in_.deviceID))
    && (h.alternatePath != [] <==> h.redundant)
    && (h.redundant ==> IsLeastShortest(AdjOf(in_), h.deviceID, in_.rootID, in_.deviceID, h.alternatePath))
    && (if RootKnown(in_) then IsPathAnswer(AdjOf(in_), h.deviceID, in_.rootID, 0, h.pathViaY) else h.pathViaY == [])
  }

  ghost predicate IsNeighborHit(in_: Input, n: NeighborEdge, vid: int, h: Hit) {
    && h.vlan == vid && h.ifIndex == n.ifIndex && h.protocol == n.protocol && PointsTo(in_, n, h.direction)
    && !h.descendant && h.hop == 1 && h.deviceID == n.remoteID
  }

  ghost predicate IsDescendantHit(in_: Input, n: NeighborEdge, vid: int, h: Hit) {
    && h.vlan == vid && h.ifIndex == n.ifIndex && h.protocol == n.protocol && PointsTo(in_, n, h.direction)
    && h.descendant && h.hop >= 1 && Behind(in_, n, vid, h.deviceID, h.hop - 1)
  }

  /** A hit comes from a qualifying link and its flags are right. */
  ghost predicate Justified(in_: Input, h: Hit) {
    && FlagsRight(in_, h)
    && exists n, vid :: n in in_.neighbors && vid in in_.vlanIDs && Qualifies(in_, n, vid) &&
                        (IsNeighborHit(in_, n, vid, h) || IsDescendantHit(in_, n, vid, h))
  }

  ghost predicate AllJustified(in_: Input, hits: seq<Hit>) {
    forall i :: 0 <= i < |hits| ==> Justified(in_, hits[i])
  }

  ghost predicate HasDescendant(hits: seq<Hit>, vid: int, ifIndex: int, id: int) {
    exists i :: 0 <= i < |hits| && hits[i].descendant && hits[i].vlan == vid && hits[i].ifIndex == ifIndex &&
        hits[i].deviceID == id
  }

  ghost function NeighborKeyOf(h: Hit): HitKey {
    NeighborKey(h.vlan, NeighborEdge(h.ifIndex, h.protocol, h.deviceID))
  }

  /** The neighbour itself is among the hits. */
  ghost predicate HasNeighbor(hits: seq<Hit>, vid: int, n: NeighborEdge) {
    exists i :: 0 <= i < |hits| && !hits[i].descendant && hits[i].vlan == vid && hits[i].ifIndex == n.ifIndex &&
        hits[i].protocol == n.protocol && hits[i].deviceID == n.remoteID
  }

  /** Nothing at risk behind this link is missing from the hits. */
  ghost predicate Covered(in_: Input, hits: seq<Hit>, n: NeighborEdge, vid: int) {
    && HasNeighbor(hits, vid, n)
    && forall id, depth: nat :: Behind(in_, n, vid, id, depth) ==> HasDescendant(hits, vid, n.ifIndex, id)
  }

  /** The skip names this link, and the first thing that keeps it from a hit. */
  ghost predicate Explains(in_: Input, n: NeighborEdge, vid: int, s: Skip) {
    && s.vlan == vid && s.ifIndex == n.ifIndex && s.protocol == n.protocol
    && (!Resolved(in_, n) ==> s.reason == UnresolvedNeighbor && s.neighborID == 0)
    && (Resolved(in_, n) ==>
          && s.neighborID == n.remoteID
          && (s.reason == VlanNotOnLink <==> !in_.onLink(n, vid))
          && (s.reason == NeighborNoVlan <==> in_.onLink(n, vid) && !in_.hasVLAN(n.remoteID, vid))
          && (s.reason == TowardCore <==> in_.onLink(n, vid) && in_.hasVLAN(n.remoteID, vid)))
  }

  ghost predicate HasSkip(in_: Input, skips: seq<Skip>, n: NeighborEdge, vid: int) {
    exists i :: 0 <= i < |skips| && Explains(in_, n, vid, skips[i])
  }

  /** A link is covered by hits when it qualifies and explained by its own skip when it does not. */
  ghost predicate Accounted(in_: Input, hits: seq<Hit>, skips: seq<Skip>, n: NeighborEdge, vid: int) {
    if Qualifies(in_, n, vid) then Covered(in_, hits, n, vid) else HasSkip(in_, skips, n, vid)
  }

  /** A skip names a link that does not qualify, with the reason. */
  ghost predicate SkipRight(in_: Input, s: Skip) {
    exists n, vid :: n in in_.neighbors && vid in in_.vlanIDs && !Qualifies(in_, n, vid) && Explains(in_, n, vid, s)
  }

  ghost predicate SkipsRight(in_: Input, skips: seq<Skip>) {
    forall i :: 0 <= i < |skips| ==> SkipRight(in_, skips[i])
  }

  ghost predicate KeysRight(in_: Input, hits: seq<Hit>, skips: seq<Skip>, seen: set<HitKey>) {
    && (forall vid, n :: NeighborKey(vid, n) in seen ==> Accounted(in_, hits, skips, n, vid))
    && (forall vid, ifIndex, id :: DescendantKey(vid, ifIndex, id) in seen ==> HasDescendant(hits, vid, ifIndex, id))
  }

  /** Growing the two lists loses nothing. */
  lemma StillAccounted(in_: Input, hits: seq<Hit>, more: seq<Hit>, skips: seq<Skip>, others: seq<Skip>, n: NeighborEdge,
                       vid: int)
    requires Accounted(in_, hits, skips, n, vid)
    ensures Accounted(in_, hits + more, skips + others, n, vid)
  {
    if Qualifies(in_, n, vid) {
      StillHasNeighbor(hits, more, vid, n);
      forall id, depth: nat | Behind(in_, n, vid, id, depth)
        ensures HasDescendant(hits + more, vid, n.ifIndex, id)
      {
        StillHasDescendant(hits, more, vid, n.ifIndex, id);
      }
    } else {
      StillHasSkip(in_, skips, others, n, vid);
    }
  }

  lemma StillHasSkip(in_: Input, skips: seq<Skip>, others: seq<Skip>, n: NeighborEdge, vid: int)
    requires HasSkip(in_, skips, n, vid)
    ensures HasSkip(in_, skips + others, n, vid)
  {
    hide Explains;
    var i :| 0 <= i < |skips| && Explains(in_, n, vid, skips[i]);
    assert (skips + others)[i] == skips[i];
  }

  lemma StillHasNeighbor(hits: seq<Hit>, more: seq<Hit>, vid: int, n: NeighborEdge)
    requires HasNeighbor(hits, vid, n)
    ensures HasNeighbor(hits + more, vid, n)
  {
    var i :| 0 <= i < |hits| && !hits[i].descendant && hits[i].vlan == vid && hits[i].ifIndex == n.ifIndex &&
        hits[i].protocol == n.protocol && hits[i].deviceID == n.remoteID;
    assert (hits + more)[i] == hits[i];
  }

  lemma StillHasDescendant(hits: seq<Hit>, more: seq<Hit>, vid: int, ifIndex: int, id: int)
    requires HasDescendant(hits, vid, ifIndex, id)
    ensures HasDescendant(hits + more, vid, ifIndex, id)
  {
    var i :| 0 <= i < |hits| && hits[i].descendant && hits[i].vlan == vid && hits[i].ifIndex == ifIndex &&
        hits[i].deviceID == id;
    assert (hits + more)[i] == hits[i];
  }

  lemma KeysStayRight(in_: Input, hits: seq<Hit>, more: seq<Hit>, skips: seq<Skip>, others: seq<Skip>,
                      seen: set<HitKey>)
    requires KeysRight(in_, hits, skips, seen)
    ensures KeysRight(in_, hits + more, skips + others, seen)
  {
    forall vid, n | NeighborKey(vid, n) in seen
      ensures Accounted(in_, hits + more, skips + others, n, vid)
    {
      StillAccounted(in_, hits, more, skips, others, n, vid);
    }
    forall vid, ifIndex, id | DescendantKey(vid, ifIndex, id) in seen
      ensures HasDescendant(hits + more, vid, ifIndex, id)
    {
      StillHasDescendant(hits, more, vid, ifIndex, id);
    }
  }

  method HasPathAvoiding(adj: Adj, from: int, to: int, avoid: int) returns (b: bool)
    requires ZeroFree(adj)
    ensures b <==> PathExists(adj, from, to, avoid)
  {
    var path := ShortestPath(adj, from, to, avoid);
    b := |path| > 0;
  }

  predicate HasPaths(h: Hit, id: int, redundant: bool, pathVia: seq<int>, altPath: seq<int>) {
    h.deviceID == id && h.redundant == redundant && h.pathViaY == pathVia && h.alternatePath == altPath
  }

  /** Whether the device reaches the root around Y, and by which paths. */
  method RootPaths(in_: Input, id: int) returns (redundant: bool, pathVia: seq<int>, altPath: seq<int>)
    requires WellFormed(in_)
    ensures forall h: Hit :: HasPaths(h, id, redundant, pathVia, altPath) ==> FlagsRight(in_, h)
  {
    redundant, pathVia, altPath := false, [], [];
    PositiveIsZeroFree(AdjOf(in_));
    if in_.rootID > 0 && in_.adj.Some? {
      pathVia := ShortestPath(AdjOf(in_), id, in_.rootID, 0);
      redundant := HasPathAvoiding(AdjOf(in_), id, in_.rootID, in_.deviceID);
      if redundant {
        altPath := ShortestPath(AdjOf(in_), id, in_.rootID, in_.deviceID);
      }
    }
  }

  lemma BehindIsPositive(in_: Input, n: NeighborEdge, vid: int, id: int, depth: nat)
    requires WellFormed(in_) && Behind(in_, n, vid, id, depth)
    ensures id > 0 && Reaches(DownEdges(AdjOf(in_), in_.deviceID, in_.dist), n.remoteID, id)
  {
    var g := DownEdges(AdjOf(in_), in_.deviceID, in_.dist);
    var w :| IsWalk(g, w, n.remoteID, id) && |w| == depth + 1;
    assert Step(g, w, |w| - 2);
  }

  /** A descendant's flag, taken over from the neighbour or computed afresh,
      is right either way. */
  method DescendantHit(in_: Input, n: NeighborEdge, vid: int, redundant: bool, d: Item) returns (h: Hit)
    requires WellFormed(in_) && Resolved(in_, n) && Behind(in_, n, vid, d.id, d.depth)
    requires redundant <==> RootKnown(in_) && PathExists(AdjOf(in_), n.remoteID, in_.rootID, in_.deviceID)
    ensures IsDescendantHit(in_, n, vid, h) && FlagsRight(in_, h) && h.deviceID == d.id && h.redundant == redundant
  {
    BehindIsPositive(in_, n, vid, d.id, d.depth);
    InheritedRedundancy(AdjOf(in_), in_.deviceID, in_.dist, n.remoteID, d.id, in_.rootID);
    PositiveIsZeroFree(AdjOf(in_));
    var hop := 1 + d.depth;
    assert d.depth > 0 by {
      var w :| IsWalk(DownEdges(AdjOf(in_), in_.deviceID, in_.dist), w, n.remoteID, d.id) && |w| == d.depth + 1;
    }
    if hop < 2 {
      hop := 2;
    }
    var dRedundant := redundant;
    var dPath, dAlt := [], [];
    if in_.rootID > 0 && in_.adj.Some? {
      dPath := ShortestPath(AdjOf(in_), d.id, in_.rootID, 0);
      if !dRedundant {
        dRedundant := HasPathAvoiding(AdjOf(in_), d.id, in_.rootID, in_.deviceID);
      }
      if dRedundant {
        dAlt := ShortestPath(AdjOf(in_), d.id, in_.rootID, in_.deviceID);
      }
    }
    h := Hit(vid, n.ifIndex, n.protocol, DirectionOf(in_, n), true, hop, dRedundant, d.id, dPath, dAlt);
  }

  ghost function DescKey(h: Hit): HitKey {
    DescendantKey(h.vlan, h.ifIndex, h.deviceID)
  }

  /** No device is reported twice below the same port for the same VLAN. */
  ghost predicate DescendantsOnce(hits: seq<Hit>, seen: set<HitKey>) {
    && (forall i :: 0 <= i < |hits| && hits[i].descendant ==> DescKey(hits[i]) in seen)
    && (forall i, j :: 0 <= i < j < |hits| && hits[i].descendant && hits[j].descendant ==>
          DescKey(hits[i]) != DescKey(hits[j]))
  }

  ghost predicate AffectedRight(hits: seq<Hit>, affected: set<int>) {
    forall id :: id in affected <==> exists i :: 0 <= i < |hits| && hits[i].deviceID == id
  }

  ghost predicate Progress(in_: Input, hits: seq<Hit>, skips: seq<Skip>, seen: set<HitKey>, affected: set<int>) {
    && AllJustified(in_, hits) && SkipsRight(in_, skips) && KeysRight(in_, hits, skips, seen)
    && DescendantsOnce(hits, seen) && AffectedRight(hits, affected)
  }

  lemma AddSkip(in_: Input, hits: seq<Hit>, skips: seq<Skip>, seen: set<HitKey>, affected: set<int>, s: Skip)
    requires Progress(in_, hits, skips, seen, affected) && SkipRight(in_, s)
    ensures Progress(in_, hits, skips + [s], seen, affected)
    ensures forall n, vid :: Explains(in_, n, vid, s) ==> HasSkip(in_, skips + [s], n, vid)
  {
    hide Explains, SkipRight, Justified, Accounted, HasDescendant;
    assert hits + [] == hits;
    KeysStayRight(in_, hits, [], skips, [s], seen);
    assert (skips + [s])[|skips|] == s;
  }

  lemma AddHit(in_: Input, hits: seq<Hit>, skips: seq<Skip>, seen: set<HitKey>, affected: set<int>, h: Hit)
    requires Progress(in_, hits, skips, seen, affected) && Justified(in_, h)
    requires h.descendant ==> DescKey(h) !in seen
    ensures Progress(in_, hits + [h], skips,
                     if h.descendant then seen + {DescKey(h)} else seen, affected + {h.deviceID})
  {
    hide Justified, Accounted, SkipRight;
    assert skips + [] == skips;
    KeysStayRight(in_, hits, [h], skips, [], seen);
    var all := hits + [h];
    assert all[|hits|] == h;
    forall i | 0 <= i < |hits|
      ensures all[i] == hits[i]
    {
    }
    if h.descendant {
      assert HasDescendant(all, h.vlan, h.ifIndex, h.deviceID);
    }
    forall id
      ensures id in affected + {h.deviceID} <==> exists i :: 0 <= i < |all| && all[i].deviceID == id
    {
      if id in affected {
        var i :| 0 <= i < |hits| && hits[i].deviceID == id;
        assert all[i].deviceID == id;
      }
    }
  }

  /** The loop over the devices found behind one neighbour. */
  method DescendantHits(in_: Input, n: NeighborEdge, vid: int, redundant: bool, desc: seq<Item>,
                        hits0: seq<Hit>, seen0: set<HitKey>, affected0: set<int>, ghost skips: seq<Skip>)
    returns (hits: seq<Hit>, seen: set<HitKey>, affected: set<int>)
    requires WellFormed(in_) && n in in_.neighbors && vid in in_.vlanIDs && Qualifies(in_, n, vid)
    requires redundant <==> RootKnown(in_) && PathExists(AdjOf(in_), n.remoteID, in_.rootID, in_.deviceID)
    requires Progress(in_, hits0, skips, seen0, affected0) && HasNeighbor(hits0, vid, n)
    requires forall i :: 0 <= i < |desc| ==> Behind(in_, n, vid, desc[i].id, desc[i].depth)
    ensures Progress(in_, hits, skips, seen, affected) && HasNeighbor(hits, vid, n)
    ensures forall i :: 0 <= i < |desc| ==> HasDescendant(hits, vid, n.ifIndex, desc[i].id)
    ensures hits0 <= hits && seen0 <= seen && forall i :: |hits0| <= i < |hits| ==> hits[i].descendant
  {
    hits, seen, affected := hits0, seen0, affected0;
    hide Progress, Justified, HasDescendant, HasNeighbor, Behind, Qualifies, WellFormed, FlagsRight, IsDescendantHit,
      PathExists, RootKnown;
    for i := 0 to |desc|
      invariant Progress(in_, hits, skips, seen, affected) && HasNeighbor(hits, vid, n)
      invariant forall j :: 0 <= j < i ==> HasDescendant(hits, vid, n.ifIndex, desc[j].id)
      invariant hits0 <= hits && seen0 <= seen && forall j :: |hits0| <= j < |hits| ==> hits[j].descendant
    {
      var d := desc[i];
      var dd := DescendantKey(vid, n.ifIndex, d.id);
      if dd in seen {
        SeenDescendant(in_, hits, skips, seen, affected, vid, n.ifIndex, d.id);
        continue;
      }
      QualifiesResolved(in_, n, vid);
      var h := DescendantHit(in_, n, vid, redundant, d);
      DescendantJustified(in_, n, vid, h);
      AddHit(in_, hits, skips, seen, affected, h);
      AddedDescendant(hits, h, vid, n);
      forall j | 0 <= j < i
        ensures HasDescendant(hits + [h], vid, n.ifIndex, desc[j].id)
      {
        StillHasDescendant(hits, [h], vid, n.ifIndex, desc[j].id);
      }
      StillHasNeighbor(hits, [h], vid, n);
      seen := seen + {dd};
      hits := hits + [h];
      affected := affected + {d.id};
    }
  }

  lemma SeenDescendant(in_: Input, hits: seq<Hit>, skips: seq<Skip>, seen: set<HitKey>, affected: set<int>, vid: int,
                       ifIndex: int, id: int)
    requires Progress(in_, hits, skips, seen, affected) && DescendantKey(vid, ifIndex, id) in seen
    ensures HasDescendant(hits, vid, ifIndex, id)
  {
  }

  lemma QualifiesResolved(in_: Input, n: NeighborEdge, vid: int)
    requires Qualifies(in_, n, vid)
    ensures Resolved(in_, n)
  {
  }

  lemma DescendantJustified(in_: Input, n: NeighborEdge, vid: int, h: Hit)
    requires n in in_.neighbors && vid in in_.vlanIDs && Qualifies(in_, n, vid)
    requires FlagsRight(in_, h) && (IsDescendantHit(in_, n, vid, h) || IsNeighborHit(in_, n, vid, h))
    ensures Justified(in_, h)
    ensures IsDescendantHit(in_, n, vid, h) ==> h.descendant && DescKey(h) == DescendantKey(vid, n.ifIndex, h.deviceID)
  {
  }

  lemma AddedDescendant(hits: seq<Hit>, h: Hit, vid: int, n: NeighborEdge)
    requires h.descendant && h.vlan == vid && h.ifIndex == n.ifIndex
    ensures HasDescendant(hits + [h], vid, n.ifIndex, h.deviceID)
  {
    assert (hits + [h])[|hits|] == h;
  }

  lemma AddedNeighbor(hits: seq<Hit>, h: Hit, vid: int, n: NeighborEdge)
    requires !h.descendant && NeighborKeyOf(h) == NeighborKey(vid, n)
    ensures HasNeighbor(hits + [h], vid, n)
  {
    assert (hits + [h])[|hits|] == h;
  }

  /** The walk behind the neighbour returns exactly the devices at risk there. */
  lemma ReportIsBehind(in_: Input, n: NeighborEdge, vid: int, desc: seq<Item>)
    requires IsReport(desc, DownEdges(AdjOf(in_), in_.deviceID, in_.dist), n.remoteID, EffectiveMaxDepth(in_.maxDepth),
                      Wanted(n.remoteID, id => in_.hasVLAN(id, vid)))
    ensures forall i :: 0 <= i < |desc| ==> Behind(in_, n, vid, desc[i].id, desc[i].depth)
    ensures forall id, depth: nat :: Behind(in_, n, vid, id, depth) ==> Item(id, depth) in desc
  {
    forall i | 0 <= i < |desc|
      ensures Behind(in_, n, vid, desc[i].id, desc[i].depth)
    {
      assert Item(desc[i].id, desc[i].depth) in desc;
    }
  }

  /** Marking a link as seen once it is accounted for. */
  lemma MarkLink(in_: Input, hits: seq<Hit>, skips: seq<Skip>, seen: set<HitKey>, affected: set<int>, n: NeighborEdge,
                 vid: int)
    requires Progress(in_, hits, skips, seen, affected) && Accounted(in_, hits, skips, n, vid)
    ensures Progress(in_, hits, skips, seen + {NeighborKey(vid, n)}, affected)
  {
  }

  lemma CoveredByReport(in_: Input, hits: seq<Hit>, n: NeighborEdge, vid: int, desc: seq<Item>)
    requires HasNeighbor(hits, vid, n)
    requires forall id, depth: nat :: Behind(in_, n, vid, id, depth) ==> Item(id, depth) in desc
    requires forall i :: 0 <= i < |desc| ==> HasDescendant(hits, vid, n.ifIndex, desc[i].id)
    ensures Covered(in_, hits, n, vid)
  {
    forall id, depth: nat | Behind(in_, n, vid, id, depth)
      ensures HasDescendant(hits, vid, n.ifIndex, id)
    {
      var i :| 0 <= i < |desc| && desc[i] == Item(id, depth);
    }
  }

  /** The hits of one qualifying link: the neighbour, then what lies behind it. */
  method LinkHits(in_: Input, n: NeighborEdge, vid: int, hits0: seq<Hit>, seen0: set<HitKey>, affected0: set<int>,
                  ghost skips: seq<Skip>)
    returns (hits: seq<Hit>, seen: set<HitKey>, affected: set<int>)
    requires WellFormed(in_) && n in in_.neighbors && vid in in_.vlanIDs && Qualifies(in_, n, vid)
    requires Progress(in_, hits0, skips, seen0, affected0)
    ensures Progress(in_, hits, skips, seen, affected) && Covered(in_, hits, n, vid)
    ensures OneNeighborMore(hits0, hits, NeighborKey(vid, n)) && seen0 <= seen
  {
    var redundant, pathVia, altPath := RootPaths(in_, n.remoteID);
    var hit := Hit(vid, n.ifIndex, n.protocol, DirectionOf(in_, n), false, 1, redundant, n.remoteID, pathVia, altPath);
    assert FlagsRight(in_, hit) && IsNeighborHit(in_, n, vid, hit);
    assert n.remoteID > 0;
    assert NeighborKeyOf(hit) == NeighborKey(vid, n);
    hide Progress, Justified, HasDescendant, HasNeighbor, Behind, Qualifies, WellFormed, IsNeighborHit, PathExists,
      RootKnown, IsReport, Covered,
      OneNeighborMore, NeighborKeyOf, FlagsRight;
    DescendantJustified(in_, n, vid, hit);
    AddHit(in_, hits0, skips, seen0, affected0, hit);
    AddedNeighbor(hits0, hit, vid, n);
    hits := hits0 + [hit];
    affected := affected0 + {n.remoteID};
    var desc := WalkDownWithVLAN(AdjOf(in_), n.remoteID, in_.deviceID, EffectiveMaxDepth(in_.maxDepth), in_.dist,
                                 id => in_.hasVLAN(id, vid));
    SameReport(in_, n, vid, desc);
    ReportIsBehind(in_, n, vid, desc);
    hits, seen, affected := DescendantHits(in_, n, vid, redundant, desc, hits, seen0, affected, skips);
    CoveredByReport(in_, hits, n, vid, desc);
    OnlyOneMore(hits0, hit, hits, NeighborKey(vid, n));
  }

  lemma SameReport(in_: Input, n: NeighborEdge, vid: int, desc: seq<Item>)
    requires var has := id => in_.hasVLAN(id, vid);
             IsReport(desc, DownEdges(AdjOf(in_), in_.deviceID, in_.dist), n.remoteID, EffectiveMaxDepth(in_.maxDepth),
                      Wanted(n.remoteID, has))
    ensures IsReport(desc, DownEdges(AdjOf(in_), in_.deviceID, in_.dist), n.remoteID, EffectiveMaxDepth(in_.maxDepth),
                     Wanted(n.remoteID, id => in_.hasVLAN(id, vid)))
  {
  }

  lemma SeenLink(in_: Input, hits: seq<Hit>, skips: seq<Skip>, seen: set<HitKey>, affected: set<int>, n: NeighborEdge,
                 vid: int)
    requires Progress(in_, hits, skips, seen, affected) && NeighborKey(vid, n) in seen
    ensures Accounted(in_, hits, skips, n, vid)
  {
  }

  lemma SkipIsRight(in_: Input, n: NeighborEdge, vid: int, s: Skip)
    requires n in in_.neighbors && vid in in_.vlanIDs && !Qualifies(in_, n, vid) && Explains(in_, n, vid, s)
    ensures SkipRight(in_, s)
  {
  }

  /** No neighbour is reported twice for the same VLAN, port and protocol. */
  ghost predicate NeighborsOnce(hits: seq<Hit>, seen: set<HitKey>) {
    && (forall i :: 0 <= i < |hits| && !hits[i].descendant ==> NeighborKeyOf(hits[i]) in seen)
    && (forall i, j :: 0 <= i < j < |hits| && !hits[i].descendant && !hits[j].descendant ==>
          NeighborKeyOf(hits[i]) != NeighborKeyOf(hits[j]))
  }

  /** What one link adds: its neighbour, then only devices behind it. */
  ghost predicate OneNeighborMore(hits0: seq<Hit>, hits: seq<Hit>, key: HitKey) {
    && hits0 <= hits && |hits0| < |hits| && !hits[|hits0|].descendant && NeighborKeyOf(hits[|hits0|]) == key
    && forall i :: |hits0| < i < |hits| ==> hits[i].descendant
  }

  lemma OnlyOneMore(hits0: seq<Hit>, hit: Hit, hits: seq<Hit>, key: HitKey)
    requires hits0 + [hit] <= hits && !hit.descendant && NeighborKeyOf(hit) == key
    requires forall i :: |hits0| + 1 <= i < |hits| ==> hits[i].descendant
    ensures OneNeighborMore(hits0, hits, key)
  {
    var some := hits0 + [hit];
    assert some[|hits0|] == hit && hits[|hits0|] == some[|hits0|];
    assert hits0 <= hits;
  }

  lemma NeighborsStayOnce(hits0: seq<Hit>, hits: seq<Hit>, seen0: set<HitKey>, seen: set<HitKey>, key: HitKey)
    requires NeighborsOnce(hits0, seen0) && OneNeighborMore(hits0, hits, key) && key !in seen0 && seen0 <= seen
    requires key in seen
    ensures NeighborsOnce(hits, seen) && hits0 <= hits
  {
    hide NeighborKeyOf;
    forall i | 0 <= i < |hits0| ensures hits[i] == hits0[i] {
    }
  }

  /** One link and one VLAN: skipped with a reason, already dealt with, or reported. */
  method AnalyzeLink(in_: Input, n: NeighborEdge, vid: int,
                     hits0: seq<Hit>, skips0: seq<Skip>, seen0: set<HitKey>, affected0: set<int>)
    returns (hits: seq<Hit>, skips: seq<Skip>, seen: set<HitKey>, affected: set<int>)
    requires WellFormed(in_) && n in in_.neighbors && vid in in_.vlanIDs && Resolved(in_, n)
    requires Progress(in_, hits0, skips0, seen0, affected0) && NeighborsOnce(hits0, seen0)
    ensures Progress(in_, hits, skips, seen, affected) && NeighborsOnce(hits, seen)
    ensures Accounted(in_, hits, skips, n, vid)
    ensures hits0 <= hits && skips0 <= skips
  {
    hits, skips, seen, affected := hits0, skips0, seen0, affected0;
    hide Progress, Covered, WellFormed, OneNeighborMore, SkipRight;
    var dir := DirectionOf(in_, n);
    DirectionPoints(in_, n);
    if !in_.onLink(n, vid) {
      var s := Skip(vid, n.ifIndex, n.protocol, VlanNotOnLink, n.remoteID);
      SkipIsRight(in_, n, vid, s);
      AddSkip(in_, hits, skips, seen, affected, s);
      skips := skips + [s];
      return;
    }
    if !in_.hasVLAN(n.remoteID, vid) {
      var s := Skip(vid, n.ifIndex, n.protocol, NeighborNoVlan, n.remoteID);
      SkipIsRight(in_, n, vid, s);
      AddSkip(in_, hits, skips, seen, affected, s);
      skips := skips + [s];
      return;
    }
    if NeighborKey(vid, n) in seen {
      SeenLink(in_, hits, skips, seen, affected, n, vid);
      return;
    }
    if IsTowardCore(dir) {
      var s := Skip(vid, n.ifIndex, n.protocol, TowardCore, n.remoteID);
      SkipIsRight(in_, n, vid, s);
      AddSkip(in_, hits, skips, seen, affected, s);
      skips := skips + [s];
    } else if !IsDownwardRisk(dir) {
      assert false;
    } else {
      hits, seen, affected := LinkHits(in_, n, vid, hits, seen, affected, skips);
      NeighborsStayOnce(hits0, hits, seen0, seen + {NeighborKey(vid, n)}, NeighborKey(vid, n));
    }
    MarkLink(in_, hits, skips, seen, affected, n, vid);
    seen := seen + {NeighborKey(vid, n)};
  }

  ghost predicate AllAccounted(in_: Input, hits: seq<Hit>, skips: seq<Skip>, n: NeighborEdge, k: nat)
    requires k <= |in_.vlanIDs|
  {
    forall j :: 0 <= j < k ==> Accounted(in_, hits, skips, n, in_.vlanIDs[j])
  }

  lemma AllStillAccounted(in_: Input, hits: seq<Hit>, hits': seq<Hit>, skips: seq<Skip>, skips': seq<Skip>,
                          n: NeighborEdge, k: nat)
    requires k <= |in_.vlanIDs| && AllAccounted(in_, hits, skips, n, k) && hits <= hits' && skips <= skips'
    ensures AllAccounted(in_, hits', skips', n, k)
  {
    assert hits' == hits + hits'[|hits|..] && skips' == skips + skips'[|skips|..];
    forall j | 0 <= j < k
      ensures Accounted(in_, hits', skips', n, in_.vlanIDs[j])
    {
      StillAccounted(in_, hits, hits'[|hits|..], skips, skips'[|skips|..], n, in_.vlanIDs[j]);
    }
  }

  /** All VLANs on one neighbour. */
  method AnalyzeNeighbor(in_: Input, n: NeighborEdge, hits0: seq<Hit>, skips0: seq<Skip>, seen0: set<HitKey>,
                         affected0: set<int>)
    returns (hits: seq<Hit>, skips: seq<Skip>, seen: set<HitKey>, affected: set<int>)
    requires WellFormed(in_) && n in in_.neighbors && Progress(in_, hits0, skips0, seen0, affected0)
    requires NeighborsOnce(hits0, seen0)
    ensures Progress(in_, hits, skips, seen, affected) && NeighborsOnce(hits, seen)
    ensures AllAccounted(in_, hits, skips, n, |in_.vlanIDs|)
    ensures hits0 <= hits && skips0 <= skips
  {
    hits, skips, seen, affected := hits0, skips0, seen0, affected0;
    assert AllAccounted(in_, hits, skips, n, 0);
    hide Progress, WellFormed, Covered, NeighborsOnce, SkipRight;
    for k := 0 to |in_.vlanIDs|
      invariant Progress(in_, hits, skips, seen, affected) && NeighborsOnce(hits, seen)
      invariant AllAccounted(in_, hits, skips, n, k)
      invariant hits0 <= hits && skips0 <= skips
    {
      var vid := in_.vlanIDs[k];
      ghost var h, s := hits, skips;
      if n.remoteID <= 0 || n.remoteID == in_.deviceID {
        var sk := Skip(vid, n.ifIndex, n.protocol, UnresolvedNeighbor, 0);
        SkipIsRight(in_, n, vid, sk);
        AddSkip(in_, hits, skips, seen, affected, sk);
        skips := skips + [sk];
      } else {
        hits, skips, seen, affected := AnalyzeLink(in_, n, vid, hits, skips, seen, affected);
      }
      AllStillAccounted(in_, h, hits, s, skips, n, k);
    }
  }

  method AnalyzeVLANDeleteBlast(in_: Input) returns (hits: seq<Hit>, skips: seq<Skip>, affected: set<int>)
    requires WellFormed(in_)
    ensures AllJustified(in_, hits) && SkipsRight(in_, skips) && AffectedRight(hits, affected)
    ensures forall n, vid :: n in in_.neighbors && vid in in_.vlanIDs ==>
        Accounted(in_, hits, skips, n, vid) &&
          (HasNeighbor(hits, vid, n) <==> Qualifies(in_, n, vid)) &&
          (HasSkip(in_, skips, n, vid) <==> !Qualifies(in_, n, vid))
    ensures forall i, j :: 0 <= i < j < |hits| && hits[i].descendant && hits[j].descendant ==>
        DescKey(hits[i]) != DescKey(hits[j])
    ensures forall i, j :: 0 <= i < j < |hits| && !hits[i].descendant && !hits[j].descendant ==>
        NeighborKeyOf(hits[i]) != NeighborKeyOf(hits[j])
  {
    hide Qualifies, HasNeighbor, HasSkip, Progress, AllAccounted, Accounted, WellFormed, AllJustified, AffectedRight,
      SkipsRight, NeighborKeyOf, NeighborsOnce, DescKey;
    hits, skips, affected := [], [], {};
    var seen: set<HitKey> := {};
    AnalysisStarts(in_);
    for k := 0 to |in_.neighbors|
      invariant Progress(in_, hits, skips, seen, affected) && NeighborsOnce(hits, seen)
      invariant forall i :: 0 <= i < k ==> AllAccounted(in_, hits, skips, in_.neighbors[i], |in_.vlanIDs|)
    {
      ghost var h, s := hits, skips;
      hits, skips, seen, affected := AnalyzeNeighbor(in_, in_.neighbors[k], hits, skips, seen, affected);
      forall i | 0 <= i < k
        ensures AllAccounted(in_, hits, skips, in_.neighbors[i], |in_.vlanIDs|)
      {
        AllStillAccounted(in_, h, hits, s, skips, in_.neighbors[i], |in_.vlanIDs|);
      }
    }
    AnalysisEnds(in_, hits, skips, seen, affected);
    forall n, vid | n in in_.neighbors && vid in in_.vlanIDs
      ensures HasNeighbor(hits, vid, n) <==> Qualifies(in_, n, vid)
      ensures HasSkip(in_, skips, n, vid) <==> !Qualifies(in_, n, vid)
    {
      HitIffQualifies(in_, hits, skips, n, vid);
      SkipIffNot(in_, hits, skips, n, vid);
    }
  }

  /** A neighbour is reported exactly when its link qualifies. */
  lemma HitIffQualifies(in_: Input, hits: seq<Hit>, skips: seq<Skip>, n: NeighborEdge, vid: int)
    requires AllJustified(in_, hits) && Accounted(in_, hits, skips, n, vid)
    ensures HasNeighbor(hits, vid, n) <==> Qualifies(in_, n, vid)
  {
    hide Qualifies, PointsTo, FlagsRight, IsDistance;
    if HasNeighbor(hits, vid, n) {
      var i :| 0 <= i < |hits| && !hits[i].descendant && hits[i].vlan == vid && hits[i].ifIndex == n.ifIndex &&
          hits[i].protocol == n.protocol && hits[i].deviceID == n.remoteID;
      assert Justified(in_, hits[i]);
      var m, v :| m in in_.neighbors && v in in_.vlanIDs && Qualifies(in_, m, v) &&
                  (IsNeighborHit(in_, m, v, hits[i]) || IsDescendantHit(in_, m, v, hits[i]));
      assert m == n && v == vid;
    }
  }

  /** A link is skipped, with the reason, exactly when it does not qualify. */
  lemma SkipIffNot(in_: Input, hits: seq<Hit>, skips: seq<Skip>, n: NeighborEdge, vid: int)
    requires SkipsRight(in_, skips) && Accounted(in_, hits, skips, n, vid)
    ensures HasSkip(in_, skips, n, vid) <==> !Qualifies(in_, n, vid)
  {
    hide Says, Nearer;
    if HasSkip(in_, skips, n, vid) {
      var i :| 0 <= i < |skips| && Explains(in_, n, vid, skips[i]);
      assert SkipRight(in_, skips[i]);
      var m, v :| m in in_.neighbors && v in in_.vlanIDs && !Qualifies(in_, m, v) && Explains(in_, m, v, skips[i]);
      assert Resolved(in_, n) ==> m == n && v == vid;
    }
  }

  lemma AnalysisStarts(in_: Input)
    ensures Progress(in_, [], [], {}, {}) && NeighborsOnce([], {})
  {
  }

  lemma AnalysisEnds(in_: Input, hits: seq<Hit>, skips: seq<Skip>, seen: set<HitKey>, affected: set<int>)
    requires Progress(in_, hits, skips, seen, affected) && NeighborsOnce(hits, seen)
    requires forall i :: 0 <= i < |in_.neighbors| ==> AllAccounted(in_, hits, skips, in_.neighbors[i], |in_.vlanIDs|)
    ensures AllJustified(in_, hits) && SkipsRight(in_, skips) && AffectedRight(hits, affected)
    ensures forall n, vid :: n in in_.neighbors && vid in in_.vlanIDs ==> Accounted(in_, hits, skips, n, vid)
    ensures forall i, j :: 0 <= i < j < |hits| && hits[i].descendant && hits[j].descendant ==>
        DescKey(hits[i]) != DescKey(hits[j])
    ensures forall i, j :: 0 <= i < j < |hits| && !hits[i].descendant && !hits[j].descendant ==>
        NeighborKeyOf(hits[i]) != NeighborKeyOf(hits[j])
  {
    hide Accounted, NeighborKeyOf, DescKey, Justified, SkipRight;
    forall n, vid | n in in_.neighbors && vid in in_.vlanIDs
      ensures Accounted(in_, hits, skips, n, vid)
    {
      var i :| 0 <= i < |in_.neighbors| && in_.neighbors[i] == n;
      var j :| 0 <= j < |in_.vlanIDs| && in_.vlanIDs[j] == vid;
      assert AllAccounted(in_, hits, skips, in_.neighbors[i], |in_.vlanIDs|);
    }
  }

  /** The whole answer for one hit, in terms of the network: with a known root
      the flag says whether the device has a walk to the root that does not
      visit Y, and the alternate path is such a walk. */
  lemma HitMeansBypass(in_: Input, h: Hit)
    requires WellFormed(in_) && Justified(in_, h) && RootKnown(in_) && in_.deviceID > 0
    ensures h.redundant <==> exists w :: IsWalk(EdgesOf(AdjOf(in_)), w, h.deviceID, in_.rootID) && in_.deviceID !in w
    ensures h.redundant ==>
        IsWalk(EdgesOf(AdjOf(in_)), h.alternatePath, h.deviceID, in_.rootID) && in_.deviceID !in h.alternatePath
    ensures !h.redundant ==> forall w :: IsWalk(EdgesOf(AdjOf(in_)), w, h.deviceID, in_.rootID) ==> in_.deviceID in w
  {
    var n, vid :| n in in_.neighbors && vid in in_.vlanIDs && Qualifies(in_, n, vid) &&
                  (IsNeighborHit(in_, n, vid, h) || IsDescendantHit(in_, n, vid, h));
    if IsDescendantHit(in_, n, vid, h) {
      BehindIsPositive(in_, n, vid, h.deviceID, h.hop - 1);
      InheritedRedundancy(AdjOf(in_), in_.deviceID, in_.dist, n.remoteID, h.deviceID, in_.rootID);
    }
    CutDeviceOnEveryWalk(AdjOf(in_), h.deviceID, in_.rootID, in_.deviceID);
    if h.redundant {
      AvoidingWalks(AdjOf(in_), in_.deviceID, h.alternatePath, h.deviceID, in_.rootID);
    }
  }

  /** A device behind a neighbour that the root does not reach is not reached either. */
  lemma UnknownStaysUnknown(in_: Input, n: int, id: int, depth: nat)
    requires WellFormed(in_) && in_.dist.Some? && IsDistanceMap(EdgesOf(AdjOf(in_)), in_.rootID, in_.dist.value)
    requires n !in in_.dist.value && IsDistance(DownEdges(AdjOf(in_), in_.deviceID, in_.dist), n, id, depth)
    ensures id !in in_.dist.value
  {
    var g, h := DownEdges(AdjOf(in_), in_.deviceID, in_.dist), EdgesOf(AdjOf(in_));
    if id in in_.dist.value {
      var w :| IsWalk(g, w, n, id) && |w| == depth + 1;
      WalkInSubgraph(g, h, w, n, id);
      WalkReverse(h, w, n, id);
      var p :| IsWalk(h, p, in_.rootID, id);
      WalkJoin(h, p, Reversed(w), in_.rootID, id, n);
      assert Reaches(h, in_.rootID, n);
    }
  }

  lemma RootIsKnown(g: set<(int, int)>, root: int, dist: map<int, nat>)
    requires IsDistanceMap(g, root, dist)
    ensures root in dist
  {
    assert IsWalk(g, [root], root, root);
  }

  /** The hit lies behind this qualifying neighbour, and the hop fits the distances. */
  ghost predicate HopMatches(in_: Input, n: NeighborEdge, h: Hit)
    requires in_.dist.Some?
  {
    var dist := in_.dist.value;
    && Qualifies(in_, n, h.vlan) && IsDescendantHit(in_, n, h.vlan, h)
    && (n.remoteID in dist <==> h.deviceID in dist)
    && (n.remoteID in dist ==> dist[h.deviceID] == dist[n.remoteID] + h.hop - 1)
  }

  /** With true distances a descendant hit says how much further from the root than
      its neighbour the device is; both or neither are connected to the root, and
      the root itself is never a descendant hit. */
  lemma HopIsDistance(in_: Input, h: Hit)
    requires WellFormed(in_) && Justified(in_, h) && h.descendant
    requires in_.dist.Some? && IsDistanceMap(EdgesOf(AdjOf(in_)), in_.rootID, in_.dist.value)
    ensures h.deviceID != in_.rootID
    ensures exists n :: n in in_.neighbors && HopMatches(in_, n, h)
  {
    hide IsDistanceMap, IsDistance, Qualifies, WellFormed;
    var n, vid :| n in in_.neighbors && vid in in_.vlanIDs && Qualifies(in_, n, vid) &&
                  (IsNeighborHit(in_, n, vid, h) || IsDescendantHit(in_, n, vid, h));
    RootIsKnown(EdgesOf(AdjOf(in_)), in_.rootID, in_.dist.value);
    if n.remoteID in in_.dist.value {
      ReportedDepth(AdjOf(in_), in_.deviceID, in_.rootID, in_.dist.value, n.remoteID, h.deviceID, h.hop - 1);
    } else {
      UnknownStaysUnknown(in_, n.remoteID, h.deviceID, h.hop - 1);
    }
    assert HopMatches(in_, n, h);
  }
}
