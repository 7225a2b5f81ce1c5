/** The loop report over the live neighbour graph, and two devices joined by
    parallel links. */
module LiveLoops {
  import opened Graph
  import opened CycleKey
  import opened DfsForest
  import opened LoopTheorems
  import opened Loops
  import opened CycleReport
  import opened LoopReport

  datatype LiveEdge = LiveEdge(localID: int, localIf: int, remoteID: Option<int>, stale: bool, protocol: string)

  /** A fresh entry that names an inventory device, with neither end offline. */
  ghost predicate Current(online: Option<map<int, bool>>, e: LiveEdge) {
    && e.remoteID.Some? && e.remoteID.value > 0 && !e.stale
    && Up(online, e.localID) && Up(online, e.remoteID.value)
  }

  /** What the store guarantees: an entry belongs to a device and never names it. */
  ghost predicate Proper(edges: seq<LiveEdge>) {
    forall k :: 0 <= k < |edges| ==> edges[k].localID > 0 && edges[k].remoteID != Some(edges[k].localID)
  }

  /** The edge as a link from the lower to the higher id; only the local port is known. */
  function LiveLink(e: LiveEdge): TopoLink
    requires e.remoteID.Some?
  {
    if e.localID > e.remoteID.value then TopoLink(e.remoteID.value, e.localID, 0, e.localIf, e.protocol)
    else TopoLink(e.localID, e.remoteID.value, e.localIf, 0, e.protocol)
  }

  datatype LinkKey = LinkKey(a: int, aIf: int, b: int, bIf: int)

  function KeyOfLink(l: TopoLink): LinkKey {
    LinkKey(l.a, l.aIf, l.b, l.bIf)
  }

  // ----- the graph

  /** Some current edge among the first `n` joins the two devices. */
  ghost predicate LiveJoined(edges: seq<LiveEdge>, n: nat, online: Option<map<int, bool>>, u: int, v: int) {
    exists k :: 0 <= k < n && k < |edges| && Current(online, edges[k]) &&
                Joins(edges[k].localID, edges[k].remoteID.value, u, v)
  }

  /** The link lies along the entry: its port on its own device, none on the other. */
  ghost predicate LiesOn(l: TopoLink, e: LiveEdge) {
    && e.remoteID.Some? && l.a <= l.b
    && (|| (l.a == e.localID && l.aIf == e.localIf && l.b == e.remoteID.value && l.bIf == 0)
        || (l.a == e.remoteID.value && l.aIf == 0 && l.b == e.localID && l.bIf == e.localIf))
  }

  /** The `k`-th entry is the first current one the link lies on. */
  ghost predicate FromEntry(edges: seq<LiveEdge>, k: nat, online: Option<map<int, bool>>, l: TopoLink)
    requires k < |edges|
  {
    && Current(online, edges[k]) && LiesOn(l, edges[k]) && l.protocol == edges[k].protocol
    && forall j :: 0 <= j < k && Current(online, edges[j]) ==> !LiesOn(l, edges[j])
  }

  ghost predicate FromLive(edges: seq<LiveEdge>, n: nat, online: Option<map<int, bool>>, l: TopoLink) {
    exists k :: 0 <= k < n && k < |edges| && FromEntry(edges, k, online, l)
  }

  /** One link per key, each from a current edge, and one for every current edge. */
  ghost predicate Gathered(seen: map<LinkKey, TopoLink>, edges: seq<LiveEdge>, n: nat, online: Option<map<int, bool>>) {
    && (forall key :: key in seen ==> KeyOfLink(seen[key]) == key && FromLive(edges, n, online, seen[key]))
    && (forall k :: 0 <= k < n && k < |edges| && Current(online, edges[k]) ==> KeyOfLink(LiveLink(edges[k])) in seen)
  }

  ghost predicate HasLiveLink(links: seq<TopoLink>, e: LiveEdge) {
    exists i :: 0 <= i < |links| && LiesOn(links[i], e)
  }

  ghost predicate SamePorts(l: TopoLink, m: TopoLink) {
    l.a == m.a && l.aIf == m.aIf && l.b == m.b && l.bIf == m.bIf
  }

  ghost predicate LiveLinksRight(links: seq<TopoLink>, edges: seq<LiveEdge>, online: Option<map<int, bool>>) {
    && (forall i :: 0 <= i < |links| ==> FromLive(edges, |edges|, online, links[i]))
    && (forall k :: 0 <= k < |edges| && Current(online, edges[k]) ==> HasLiveLink(links, edges[k]))
    && (forall i, j :: 0 <= i < j < |links| ==> !SamePorts(links[i], links[j]))
  }

  /** Links with one key are those that lie on the same entries. */
  lemma LinkLies(e: LiveEdge, l: TopoLink)
    requires e.remoteID.Some?
    ensures LiesOn(LiveLink(e), e)
    ensures LiesOn(l, e) && l.a != l.b ==> KeyOfLink(l) == KeyOfLink(LiveLink(e))
  {
  }

  lemma PortsAreKeys(l: TopoLink, m: TopoLink)
    ensures SamePorts(l, m) <==> KeyOfLink(l) == KeyOfLink(m)
  {
  }

  lemma GatherNext(seen: map<LinkKey, TopoLink>, edges: seq<LiveEdge>, k: nat, online: Option<map<int, bool>>)
    requires k < |edges| && Gathered(seen, edges, k, online) && Proper(edges)
    ensures var e := edges[k];
            Current(online, e) && KeyOfLink(LiveLink(e)) !in seen ==>
              Gathered(seen[KeyOfLink(LiveLink(e)) := LiveLink(e)], edges, k + 1, online)
    ensures !Current(online, edges[k]) || KeyOfLink(LiveLink(edges[k])) in seen ==>
        Gathered(seen, edges, k + 1, online)
  {
    hide FromEntry, KeyOfLink, LiveLink, Up;
    forall key | key in seen
      ensures FromLive(edges, k + 1, online, seen[key])
    {
      assert FromLive(edges, k, online, seen[key]);
    }
    if Current(online, edges[k]) && KeyOfLink(LiveLink(edges[k])) !in seen {
      NewEntry(seen, edges, k, online);
    }
  }

  lemma NewEntry(seen: map<LinkKey, TopoLink>, edges: seq<LiveEdge>, k: nat, online: Option<map<int, bool>>)
    requires k < |edges| && Gathered(seen, edges, k, online) && Proper(edges) && Current(online, edges[k])
    requires KeyOfLink(LiveLink(edges[k])) !in seen
    ensures FromLive(edges, k + 1, online, LiveLink(edges[k])) && LiveLink(edges[k]).a != LiveLink(edges[k]).b
  {
    var l := LiveLink(edges[k]);
    assert l.a != l.b;
    LinkLies(edges[k], l);
    assert l.protocol == edges[k].protocol;
    hide LiesOn, KeyOfLink, LiveLink, Proper;
    forall j | 0 <= j < k && Current(online, edges[j])
      ensures !LiesOn(l, edges[j])
    {
      LinkLies(edges[j], l);
    }
    assert FromEntry(edges, k, online, l);
  }

  lemma CurrentMeans(online: Option<map<int, bool>>, e: LiveEdge)
    ensures Current(online, e) <==>
            e.remoteID.Some? && e.remoteID.value > 0 && !e.stale && BothOnline(online, e.localID, e.remoteID.value)
  {
  }

  lemma NothingGathered(edges: seq<LiveEdge>, online: Option<map<int, bool>>)
    ensures Gathered(map[], edges, 0, online)
  {
  }

  method GatherLinks(edges: seq<LiveEdge>, online: Option<map<int, bool>>) returns (seen: map<LinkKey, TopoLink>)
    requires Proper(edges)
    ensures Gathered(seen, edges, |edges|, online)
  {
    hide Gathered, Proper, KeyOfLink, LiveLink, Current, BothOnline;
    seen := map[];
    NothingGathered(edges, online);
    for k := 0 to |edges|
      invariant Gathered(seen, edges, k, online)
    {
      GatherNext(seen, edges, k, online);
      var e := edges[k];
      CurrentMeans(online, e);
      if e.remoteID.None? || e.remoteID.value <= 0 {
        continue;
      }
      if e.stale {
        continue;
      }
      if !BothOnline(online, e.localID, e.remoteID.value) {
        continue;
      }
      var key := KeyOfLink(LiveLink(e));
      if key in seen {
        continue;
      }
      seen := seen[key := LiveLink(e)];
    }
  }

  /** The links taken from the map so far, in whatever order it yields them. */
  ghost predicate Taken(seen: map<LinkKey, TopoLink>, rest: set<LinkKey>, links: seq<TopoLink>) {
    && (forall i :: 0 <= i < |links| ==>
          KeyOfLink(links[i]) in seen && KeyOfLink(links[i]) !in rest && links[i] == seen[KeyOfLink(links[i])])
    && (forall key :: key in seen && key !in rest ==> exists i :: 0 <= i < |links| && links[i] == seen[key])
    && (forall i, j :: 0 <= i < j < |links| ==> KeyOfLink(links[i]) != KeyOfLink(links[j]))
  }

  lemma NothingTaken(seen: map<LinkKey, TopoLink>, rest: set<LinkKey>)
    requires forall key :: key in seen ==> key in rest
    ensures Taken(seen, rest, []) && AdjRight(map[], {}) && forall u, v :: !Tied([], u, v)
  {
  }

  lemma TakeOne(seen: map<LinkKey, TopoLink>, rest: set<LinkKey>, links: seq<TopoLink>, key: LinkKey)
    requires Taken(seen, rest, links) && key in rest && key in seen && KeyOfLink(seen[key]) == key
    ensures Taken(seen, rest - {key}, links + [seen[key]])
    ensures forall u, v :: Tied(links + [seen[key]], u, v) <==> Tied(links, u, v) || Ends(seen[key]) == Pair(u, v)
  {
    hide KeyOfLink;
    var all := links + [seen[key]];
    assert all[|links|] == seen[key] && forall i :: 0 <= i < |links| ==> all[i] == links[i];
    forall x | x in seen && x !in rest - {key}
      ensures exists i :: 0 <= i < |all| && all[i] == seen[x]
    {
      if x != key {
        var i :| 0 <= i < |links| && links[i] == seen[x];
        assert all[i] == seen[x];
      }
    }
    forall u, v
      ensures Tied(all, u, v) <==> Tied(links, u, v) || Ends(seen[key]) == Pair(u, v)
    {
      if Tied(links, u, v) {
        var k :| 0 <= k < |links| && Ends(links[k]) == Pair(u, v);
        assert Ends(all[k]) == Pair(u, v);
      }
    }
  }

  lemma SameKeyLies(l: TopoLink, e: LiveEdge)
    requires e.remoteID.Some? && KeyOfLink(l) == KeyOfLink(LiveLink(e))
    ensures LiesOn(l, e)
  {
  }

  lemma AllTaken(seen: map<LinkKey, TopoLink>, links: seq<TopoLink>, edges: seq<LiveEdge>,
                 online: Option<map<int, bool>>)
    requires Gathered(seen, edges, |edges|, online) && Taken(seen, {}, links)
    ensures LiveLinksRight(links, edges, online)
  {
    hide FromLive, LiveLink, SamePorts;
    forall k | 0 <= k < |edges| && Current(online, edges[k])
      ensures HasLiveLink(links, edges[k])
    {
      var key := KeyOfLink(LiveLink(edges[k]));
      var i :| 0 <= i < |links| && links[i] == seen[key];
      SameKeyLies(links[i], edges[k]);
    }
    forall i, j | 0 <= i < j < |links|
      ensures !SamePorts(links[i], links[j])
    {
      PortsAreKeys(links[i], links[j]);
    }
  }

  /** The links tie exactly the joined devices, and their ends are online. */
  lemma LiveTies(links: seq<TopoLink>, edges: seq<LiveEdge>, online: Option<map<int, bool>>)
    requires LiveLinksRight(links, edges, online)
    ensures LinksOnline(links, online)
    ensures forall u, v :: Tied(links, u, v) <==> LiveJoined(edges, |edges|, online, u, v)
  {
    forall i | 0 <= i < |links|
      ensures Up(online, links[i].a) && Up(online, links[i].b)
    {
      assert FromLive(edges, |edges|, online, links[i]);
    }
    forall u, v
      ensures Tied(links, u, v) <==> LiveJoined(edges, |edges|, online, u, v)
    {
      LiveTie(links, edges, online, u, v);
    }
  }

  lemma LiveEnds(l: TopoLink, e: LiveEdge, u: int, v: int)
    requires LiesOn(l, e)
    ensures Ends(l) == Pair(u, v) <==> Joins(e.localID, e.remoteID.value, u, v)
  {
  }

  lemma EntryLies(edges: seq<LiveEdge>, k: nat, online: Option<map<int, bool>>, l: TopoLink)
    requires k < |edges| && FromEntry(edges, k, online, l)
    ensures Current(online, edges[k]) && LiesOn(l, edges[k])
    ensures edges[k].remoteID.Some? && l.protocol == edges[k].protocol
  {
  }

  lemma LiveTie(links: seq<TopoLink>, edges: seq<LiveEdge>, online: Option<map<int, bool>>, u: int, v: int)
    requires LiveLinksRight(links, edges, online)
    ensures Tied(links, u, v) <==> LiveJoined(edges, |edges|, online, u, v)
  {
    hide LiesOn, Pair, Joins, Up, SamePorts, Ends, FromEntry;
    if Tied(links, u, v) {
      var i :| 0 <= i < |links| && Ends(links[i]) == Pair(u, v);
      assert FromLive(edges, |edges|, online, links[i]);
      var k :| 0 <= k < |edges| && FromEntry(edges, k, online, links[i]);
      EntryLies(edges, k, online, links[i]);
      LiveEnds(links[i], edges[k], u, v);
    }
    if LiveJoined(edges, |edges|, online, u, v) {
      var k :| 0 <= k < |edges| && Current(online, edges[k]) &&
               Joins(edges[k].localID, edges[k].remoteID.value, u, v);
      assert HasLiveLink(links, edges[k]);
      var i :| 0 <= i < |links| && LiesOn(links[i], edges[k]);
      LiveEnds(links[i], edges[k], u, v);
      assert Ends(links[i]) == Pair(u, v);
    }
  }

  lemma GatheredEnds(seen: map<LinkKey, TopoLink>, edges: seq<LiveEdge>, online: Option<map<int, bool>>, key: LinkKey)
    requires Gathered(seen, edges, |edges|, online) && Proper(edges) && key in seen
    ensures KeyOfLink(seen[key]) == key && 0 < seen[key].a < seen[key].b
  {
    assert FromLive(edges, |edges|, online, seen[key]);
  }

  method BuildUndirectedLLDPGraph(edges: seq<LiveEdge>,
                                  online: Option<map<int, bool>>) returns (links: seq<TopoLink>, adj: Adj)
    requires Proper(edges)
    ensures Simple(adj) && forall u, v :: Linked(adj, u, v) <==> u != v && Tied(links, u, v)
    ensures forall u, v :: Tied(links, u, v) <==> LiveJoined(edges, |edges|, online, u, v)
    ensures LiveLinksRight(links, edges, online) && LinksOnline(links, online)
    ensures forall u :: u in adj ==> Increasing(adj[u])
  {
    hide Gathered, Taken, Tied, AdjRight, Proper, Increasing, Simple, LiveLinksRight, LinksOnline, LiveJoined,
      KeyOfLink, Append, LiveLink, Linked;
    var seen := GatherLinks(edges, online);
    links, adj := [], map[];
    var pairSeen: set<(int, int)> := {};
    var rest := set key | key in seen;
    NothingTaken(seen, rest);
    while rest != {}
      invariant forall key :: key in rest ==> key in seen
      invariant Taken(seen, rest, links) && AdjRight(adj, pairSeen)
      invariant forall u, v :: Pair(u, v) in pairSeen <==> Tied(links, u, v)
      decreases |rest|
    {
      ghost var some := Member(rest);
      var key :| key in rest;
      GatheredEnds(seen, edges, online, key);
      TakeOne(seen, rest, links, key);
      var l := seen[key];
      rest := rest - {key};
      links := links + [l];
      var p := (l.a, l.b);
      if p in pairSeen {
        continue;
      }
      AddPair(adj, pairSeen, l.a, l.b);
      pairSeen := pairSeen + {p};
      adj := Append(adj, l.a, l.b);
      adj := Append(adj, l.b, l.a);
    }
    AllTaken(seen, links, edges, online);
    LiveTies(links, edges, online);
    SortedAdjacency(adj, pairSeen);
    adj := SortAdjacency(adj);
    AdjFacts(adj, pairSeen);
  }

  // ----- parallel links

  /** `a` sees `b` on its port. */
  ghost predicate Sees(edges: seq<LiveEdge>, n: nat, online: Option<map<int, bool>>, a: int, b: int, port: int) {
    exists k :: 0 <= k < n && k < |edges| && Current(online, edges[k]) &&
                edges[k].localID == a && edges[k].remoteID.value == b && edges[k].localIf == port
  }

  /** One of the devices sees the other on two ports of its own; the two ends of one
      cable are not two ports. */
  ghost predicate Parallel(edges: seq<LiveEdge>, online: Option<map<int, bool>>, a: int, b: int) {
    exists p, q :: p != q && Sees(edges, |edges|, online, a, b, p) && Sees(edges, |edges|, online, a, b, q)
  }

  /** For every pair of devices and each of its ends, the ports it sees the other on. */
  type Sides = map<(int, int), map<int, set<int>>>

  function PortsOf(sides: Sides, a: int, b: int): set<int> {
    if Pair(a, b) in sides && a in sides[Pair(a, b)] then sides[Pair(a, b)][a] else {}
  }

  function NotePort(sides: Sides, a: int, b: int, port: int): Sides {
    var side := if Pair(a, b) in sides then sides[Pair(a, b)] else map[];
    sides[Pair(a, b) := side[a := PortsOf(sides, a, b) + {port}]]
  }

  ghost predicate SidesRight(sides: Sides, edges: seq<LiveEdge>, n: nat, online: Option<map<int, bool>>) {
    && (forall a, b, port :: port in PortsOf(sides, a, b) <==> Sees(edges, n, online, a, b, port))
    && (forall p :: p in sides ==> 0 < p.0 < p.1)
  }

  lemma NoteNext(sides: Sides, edges: seq<LiveEdge>, k: nat, online: Option<map<int, bool>>)
    requires k < |edges| && Proper(edges) && SidesRight(sides, edges, k, online)
    ensures var e := edges[k];
            SidesRight(if Current(online, e) then NotePort(sides, e.localID, e.remoteID.value, e.localIf) else sides,
                       edges, k + 1, online)
  {
    var e := edges[k];
    var next := if Current(online, e) then NotePort(sides, e.localID, e.remoteID.value, e.localIf) else sides;
    forall a, b, port
      ensures port in PortsOf(next, a, b) <==> Sees(edges, k + 1, online, a, b, port)
    {
      assert Sees(edges, k + 1, online, a, b, port) <==>
        Sees(edges, k, online, a, b, port) ||
        (Current(online, e) && e.localID == a && e.remoteID.value == b && e.localIf == port);
      if Current(online, e) {
        NotedPorts(sides, e.localID, e.remoteID.value, e.localIf, a, b);
      }
    }
  }

  lemma NotedPorts(sides: Sides, a: int, b: int, port: int, x: int, y: int)
    requires a != b
    ensures PortsOf(NotePort(sides, a, b, port), x, y) ==
            if x == a && y == b then PortsOf(sides, a, b) + {port} else PortsOf(sides, x, y)
  {
    if Pair(x, y) == Pair(a, b) && x == a {
      assert y == b;
    }
  }

  ghost predicate CurrentBetween(online: Option<map<int, bool>>, e: LiveEdge, a: int, b: int) {
    Current(online, e) && Joins(e.localID, e.remoteID.value, a, b)
  }

  /** The first protocol that a current entry between the two devices names. */
  ghost predicate PairProtocol(edges: seq<LiveEdge>, n: nat, online: Option<map<int, bool>>, a: int, b: int,
                               protocol: string) {
    || (|protocol| == 0 && SilentUntil(edges, n, online, a, b))
    || (|protocol| > 0 && exists k :: 0 <= k < n && k < |edges| && CurrentBetween(online, edges[k], a, b) &&
                                      edges[k].protocol == protocol && SilentUntil(edges, k, online, a, b))
  }

  ghost predicate SilentUntil(edges: seq<LiveEdge>, n: nat, online: Option<map<int, bool>>, a: int, b: int) {
    forall j :: 0 <= j < n && j < |edges| && CurrentBetween(online, edges[j], a, b) ==> |edges[j].protocol| == 0
  }

  /** The protocols noted so far; none reads as empty. */
  ghost predicate ProtocolsRight(protoByPair: map<(int, int), string>, edges: seq<LiveEdge>, n: nat,
                                 online: Option<map<int, bool>>) {
    forall p: (int, int) :: p.0 <= p.1 ==>
      PairProtocol(edges, n, online, p.0, p.1, if p in protoByPair then protoByPair[p] else "")
  }

  function NoteProtocol(protoByPair: map<(int, int), string>, p: (int, int),
                        protocol: string): map<(int, int), string> {
    if p !in protoByPair || protoByPair[p] == "" then protoByPair[p := protocol] else protoByPair
  }

  lemma NoteProtocolNext(protos: map<(int, int), string>, edges: seq<LiveEdge>, k: nat, online: Option<map<int, bool>>)
    requires k < |edges| && ProtocolsRight(protos, edges, k, online)
    ensures !Current(online, edges[k]) ==> ProtocolsRight(protos, edges, k + 1, online)
    ensures var e := edges[k];
            Current(online, e) ==>
              ProtocolsRight(NoteProtocol(protos, Pair(e.localID, e.remoteID.value), e.protocol), edges, k + 1, online)
  {
    var e := edges[k];
    forall p: (int, int) | p.0 <= p.1
      ensures !CurrentBetween(online, e, p.0, p.1) ==>
                PairProtocol(edges, k + 1, online, p.0, p.1, if p in protos then protos[p] else "")
      ensures CurrentBetween(online, e, p.0, p.1) ==>
                var next := NoteProtocol(protos, p, e.protocol);
                PairProtocol(edges, k + 1, online, p.0, p.1, if p in next then next[p] else "")
    {
      hide CurrentBetween;
      assert PairProtocol(edges, k, online, p.0, p.1, if p in protos then protos[p] else "");
    }
    if Current(online, e) {
      forall p: (int, int) | p.0 <= p.1
        ensures CurrentBetween(online, e, p.0, p.1) <==> Pair(e.localID, e.remoteID.value) == p
      {
        PairJoins(e.localID, e.remoteID.value, p.0, p.1);
      }
    }
  }

  method CollectSides(edges: seq<LiveEdge>,
                      online: Option<map<int, bool>>) returns (sides: Sides, protoByPair: map<(int, int), string>)
    requires Proper(edges)
    ensures SidesRight(sides, edges, |edges|, online) && ProtocolsRight(protoByPair, edges, |edges|, online)
    ensures forall p :: p in sides ==> p in protoByPair
  {
    hide SidesRight, ProtocolsRight, Proper, Current, BothOnline;
    sides, protoByPair := map[], map[];
    NothingNoted(edges, online);
    for k := 0 to |edges|
      invariant SidesRight(sides, edges, k, online) && ProtocolsRight(protoByPair, edges, k, online)
      invariant forall p :: p in sides ==> p in protoByPair
    {
      var e := edges[k];
      NoteNext(sides, edges, k, online);
      NoteProtocolNext(protoByPair, edges, k, online);
      CurrentMeans(online, e);
      if e.remoteID.None? || e.remoteID.value <= 0 || e.stale {
        continue;
      }
      if !BothOnline(online, e.localID, e.remoteID.value) {
        continue;
      }
      var p := Pair(e.localID, e.remoteID.value);
      sides := NotePort(sides, e.localID, e.remoteID.value, e.localIf);
      if p !in protoByPair || protoByPair[p] == "" {
        protoByPair := protoByPair[p := e.protocol];
      }
    }
  }

  lemma NothingNoted(edges: seq<LiveEdge>, online: Option<map<int, bool>>)
    ensures SidesRight(map[], edges, 0, online) && ProtocolsRight(map[], edges, 0, online)
  {
  }

  ghost predicate OnePerPort(hops: seq<Hop>, from: int, to: int, ports: set<int>, protocol: string) {
    && (forall i, j :: 0 <= i < j < |hops| ==> hops[i] != hops[j])
    && (forall h :: h in hops <==> h == Hop(from, h.fromIf, to, None, protocol) && h.fromIf in ports)
  }

  /** One hop per port, from one device to the other. */
  method PortHops(from: int, to: int, ports: set<int>, protocol: string) returns (hops: seq<Hop>)
    ensures OnePerPort(hops, from, to, ports, protocol)
  {
    hops := [];
    var rest := ports;
    while rest != {}
      invariant forall port :: port in rest ==> port in ports
      invariant forall i, j :: 0 <= i < j < |hops| ==> hops[i] != hops[j]
      invariant forall h :: h in hops <==>
          h == Hop(from, h.fromIf, to, None, protocol) && h.fromIf in ports && h.fromIf !in rest
      decreases |rest|
    {
      ghost var some := Member(rest);
      var port :| port in rest;
      hops := hops + [Hop(from, port, to, None, protocol)];
      rest := rest - {port};
    }
  }

  ghost predicate HasHop(hops: seq<Hop>, a: int, b: int, port: int) {
    exists i :: 0 <= i < |hops| && hops[i].fromID == a && hops[i].toID == b && hops[i].fromIf == port
  }

  /** No hop twice; the far port is left open and the protocol is the pair's. */
  ghost predicate PlainHops(hops: seq<Hop>, edges: seq<LiveEdge>, online: Option<map<int, bool>>, a: int, b: int) {
    && (forall i, j :: 0 <= i < j < |hops| ==> hops[i] != hops[j])
    && (forall i :: 0 <= i < |hops| ==>
          hops[i].toIf == None && PairProtocol(edges, |edges|, online, a, b, hops[i].protocol))
  }

  /** The two devices, and one hop for every port either sees the other on. */
  ghost predicate ParallelRight(c: TopologyCycle, edges: seq<LiveEdge>, online: Option<map<int, bool>>) {
    && |c.deviceIDs| == 2 && 0 < c.deviceIDs[0] < c.deviceIDs[1]
    && (Parallel(edges, online, c.deviceIDs[0], c.deviceIDs[1]) ||
          Parallel(edges, online, c.deviceIDs[1], c.deviceIDs[0]))
    && (forall a, b, port :: HasHop(c.hops, a, b, port) <==>
          Joins(a, b, c.deviceIDs[0], c.deviceIDs[1]) && Sees(edges, |edges|, online, a, b, port))
    && PlainHops(c.hops, edges, online, c.deviceIDs[0], c.deviceIDs[1])
  }

  ghost predicate HasPair(cycles: seq<TopologyCycle>, a: int, b: int) {
    exists i :: 0 <= i < |cycles| && cycles[i].deviceIDs == [a, b]
  }

  /** Exactly the pairs with parallel links, each once. */
  ghost predicate IsParallelReport(cycles: seq<TopologyCycle>, edges: seq<LiveEdge>, online: Option<map<int, bool>>) {
    && (forall i :: 0 <= i < |cycles| ==> ParallelRight(cycles[i], edges, online))
    && (forall a, b :: a < b && (Parallel(edges, online, a, b) || Parallel(edges, online, b, a)) ==>
          HasPair(cycles, a, b))
    && (forall i, j :: 0 <= i < j < |cycles| ==> cycles[i].deviceIDs != cycles[j].deviceIDs)
  }

  lemma TwoMembers(s: set<int>)
    ensures |s| >= 2 <==> exists p, q :: p != q && p in s && q in s
  {
    if |s| >= 2 {
      var p := Member(s);
      assert |s - {p}| >= 1;
      var q := Member(s - {p});
    }
    if p, q :| p != q && p in s && q in s {
      assert {p, q} <= s;
      assert s == {p, q} + (s - {p, q});
    }
  }

  lemma ParallelIsTwoPorts(sides: Sides, edges: seq<LiveEdge>, online: Option<map<int, bool>>, a: int, b: int)
    requires SidesRight(sides, edges, |edges|, online)
    ensures |PortsOf(sides, a, b)| >= 2 <==> Parallel(edges, online, a, b)
  {
    TwoMembers(PortsOf(sides, a, b));
    hide PortsOf, Sees;
  }

  /** The hops of both devices of a pair. */
  lemma PairHops(sides: Sides, edges: seq<LiveEdge>, online: Option<map<int, bool>>, a: int, b: int, protocol: string,
                 there: seq<Hop>, back: seq<Hop>)
    requires SidesRight(sides, edges, |edges|, online) && a < b
    requires OnePerPort(there, a, b, PortsOf(sides, a, b), protocol)
    requires OnePerPort(back, b, a, PortsOf(sides, b, a), protocol)
    ensures forall x, y, port :: HasHop(there + back, x, y, port) <==>
        Joins(x, y, a, b) && Sees(edges, |edges|, online, x, y, port)
  {
    hide PortsOf, Sees;
    var hops := there + back;
    forall x, y, port
      ensures HasHop(hops, x, y, port) <==> Joins(x, y, a, b) && Sees(edges, |edges|, online, x, y, port)
    {
      if HasHop(hops, x, y, port) {
        var i :| 0 <= i < |hops| && hops[i].fromID == x && hops[i].toID == y && hops[i].fromIf == port;
        assert hops[i] in there || hops[i] in back;
      }
      if Joins(x, y, a, b) && Sees(edges, |edges|, online, x, y, port) {
        assert port in PortsOf(sides, x, y);
        var h := Hop(x, port, y, None, protocol);
        assert h in there || h in back;
        assert h in hops;
      }
    }
  }

  predicate TwoPorts(sides: Sides, p: (int, int)) {
    |PortsOf(sides, p.0, p.1)| >= 2 || |PortsOf(sides, p.1, p.0)| >= 2
  }

  predicate Outside(ids: seq<int>, rest: set<(int, int)>) {
    |ids| == 2 && (ids[0], ids[1]) !in rest
  }

  /** The pairs looked at so far. */
  ghost predicate Reporting(cycles: seq<TopologyCycle>, sides: Sides, rest: set<(int, int)>, edges: seq<LiveEdge>,
                            online: Option<map<int, bool>>) {
    && (forall i :: 0 <= i < |cycles| ==>
          ParallelRight(cycles[i], edges, online) && Outside(cycles[i].deviceIDs, rest))
    && (forall p :: p in sides && p !in rest && TwoPorts(sides, p) ==> HasPair(cycles, p.0, p.1))
    && (forall i, j :: 0 <= i < j < |cycles| ==> cycles[i].deviceIDs != cycles[j].deviceIDs)
  }

  lemma PassPair(cycles: seq<TopologyCycle>, sides: Sides, rest: set<(int, int)>, edges: seq<LiveEdge>,
                 online: Option<map<int, bool>>,
                 p: (int, int))
    requires Reporting(cycles, sides, rest, edges, online) && !TwoPorts(sides, p)
    ensures Reporting(cycles, sides, rest - {p}, edges, online)
  {
    hide ParallelRight, TwoPorts;
  }

  lemma ReportPair(cycles: seq<TopologyCycle>, sides: Sides, rest: set<(int, int)>, edges: seq<LiveEdge>,
                   online: Option<map<int, bool>>, p: (int, int), c: TopologyCycle)
    requires Reporting(cycles, sides, rest, edges, online) && p in rest
    requires c.deviceIDs == [p.0, p.1] && ParallelRight(c, edges, online)
    ensures Reporting(cycles + [c], sides, rest - {p}, edges, online)
  {
    hide TwoPorts, ParallelRight, HasPair;
    var all := cycles + [c];
    assert all[|cycles|] == c && forall i :: 0 <= i < |cycles| ==> all[i] == cycles[i];
    forall i | 0 <= i < |cycles|
      ensures cycles[i].deviceIDs != c.deviceIDs
    {
      assert Outside(cycles[i].deviceIDs, rest);
    }
    forall x | x in sides && x !in rest - {p} && TwoPorts(sides, x)
      ensures HasPair(all, x.0, x.1)
    {
      PairAdded(cycles, c, x.0, x.1);
    }
  }

  lemma PairAdded(cycles: seq<TopologyCycle>, c: TopologyCycle, a: int, b: int)
    requires HasPair(cycles, a, b) || c.deviceIDs == [a, b]
    ensures HasPair(cycles + [c], a, b)
  {
    var all := cycles + [c];
    assert all[|cycles|] == c;
    if i :| 0 <= i < |cycles| && cycles[i].deviceIDs == [a, b] {
      assert all[i].deviceIDs == [a, b];
    }
  }

  lemma AllPairs(cycles: seq<TopologyCycle>, sides: Sides, edges: seq<LiveEdge>, online: Option<map<int, bool>>)
    requires Reporting(cycles, sides, {}, edges, online) && SidesRight(sides, edges, |edges|, online)
    ensures IsParallelReport(cycles, edges, online)
  {
    hide ParallelRight, HasPair, SidesRight, Parallel;
    forall a, b | a < b && (Parallel(edges, online, a, b) || Parallel(edges, online, b, a))
      ensures HasPair(cycles, a, b)
    {
      ParallelIsTwoPorts(sides, edges, online, a, b);
      ParallelIsTwoPorts(sides, edges, online, b, a);
      assert TwoPorts(sides, (a, b));
      assert (a, b) in sides;
    }
  }

  lemma PairPlain(edges: seq<LiveEdge>, online: Option<map<int, bool>>, a: int, b: int, ports: set<int>,
                  farPorts: set<int>, protocol: string,
                  there: seq<Hop>, back: seq<Hop>)
    requires a < b && PairProtocol(edges, |edges|, online, a, b, protocol)
    requires OnePerPort(there, a, b, ports, protocol) && OnePerPort(back, b, a, farPorts, protocol)
    ensures PlainHops(there + back, edges, online, a, b)
  {
    hide PairProtocol;
    var hops := there + back;
    forall i | 0 <= i < |hops|
      ensures hops[i].toIf == None && hops[i].protocol == protocol
      ensures hops[i].fromID == if i < |there| then a else b
    {
      assert if i < |there| then hops[i] in there else hops[i] in back;
    }
    forall i, j | 0 <= i < j < |hops|
      ensures hops[i] != hops[j]
    {
      if j < |there| {
        assert there[i] != there[j];
      } else if i >= |there| {
        assert back[i - |there|] != back[j - |there|];
      }
    }
  }

  lemma PairIsRight(sides: Sides, edges: seq<LiveEdge>, online: Option<map<int, bool>>, p: (int, int), protocol: string,
                    there: seq<Hop>, back: seq<Hop>)
    requires SidesRight(sides, edges, |edges|, online) && p in sides && TwoPorts(sides, p)
    requires OnePerPort(there, p.0, p.1, PortsOf(sides, p.0, p.1), protocol)
    requires OnePerPort(back, p.1, p.0, PortsOf(sides, p.1, p.0), protocol)
    requires PairProtocol(edges, |edges|, online, p.0, p.1, protocol)
    ensures ParallelRight(TopologyCycle([p.0, p.1], there + back, ""), edges, online)
  {
    assert 0 < p.0 < p.1;
    PairPlain(edges, online, p.0, p.1, PortsOf(sides, p.0, p.1), PortsOf(sides, p.1, p.0), protocol, there, back);
    hide SidesRight, PortsOf, Sees, HasHop, Parallel, PlainHops, PairProtocol;
    PairHops(sides, edges, online, p.0, p.1, protocol, there, back);
    ParallelIsTwoPorts(sides, edges, online, p.0, p.1);
    ParallelIsTwoPorts(sides, edges, online, p.1, p.0);
  }

  lemma PairOrder(sides: Sides, edges: seq<LiveEdge>, online: Option<map<int, bool>>, p: (int, int))
    requires SidesRight(sides, edges, |edges|, online) && p in sides
    ensures p.0 < p.1
  {
  }

  method ParallelLinkCyclesFromEdges(edges: seq<LiveEdge>,
                                     online: Option<map<int, bool>>) returns (cycles: seq<TopologyCycle>)
    requires Proper(edges)
    ensures IsParallelReport(cycles, edges, online)
  {
    var sides, protoByPair := CollectSides(edges, online);
    cycles := [];
    var rest := set p | p in sides;
    assert Reporting(cycles, sides, rest, edges, online);
    hide Reporting, IsParallelReport, Proper, SidesRight, ParallelRight, PortsOf, PairProtocol;
    while rest != {}
      invariant forall p :: p in rest ==> p in sides
      invariant Reporting(cycles, sides, rest, edges, online)
      decreases |rest|
    {
      ghost var some := Member(rest);
      var p :| p in rest;
      if |PortsOf(sides, p.0, p.1)| < 2 && |PortsOf(sides, p.1, p.0)| < 2 {
        PassPair(cycles, sides, rest, edges, online, p);
      } else {
        var there := PortHops(p.0, p.1, PortsOf(sides, p.0, p.1), protoByPair[p]);
        var back := PortHops(p.1, p.0, PortsOf(sides, p.1, p.0), protoByPair[p]);
        var c := TopologyCycle([p.0, p.1], there + back, "");
        PairOrder(sides, edges, online, p);
        PairIsRight(sides, edges, online, p, protoByPair[p], there, back);
        ReportPair(cycles, sides, rest, edges, online, p, c);
        cycles := cycles + [c];
      }
      rest := rest - {p};
    }
    AllPairs(cycles, sides, edges, online);
  }

  // ----- the report

  lemma PairsDiffer(a: seq<int>, b: seq<int>)
    requires |a| == |b| == 2 && a[0] < a[1] && b[0] < b[1] && a != b
    ensures !SameLoop(a, b)
  {
    forall k | 0 <= k <= 2
      ensures b != Rotation(a, k) && b != Rotation(Reversed(a), k)
    {
    }
  }

  lemma SameLoopSameLength(a: seq<int>, b: seq<int>)
    requires SameLoop(a, b)
    ensures |a| == |b|
  {
  }

  ghost predicate IsPair(ids: seq<int>) {
    |ids| == 2 && ids[0] < ids[1]
  }

  lemma ParallelShapes(pairs: seq<TopologyCycle>, edges: seq<LiveEdge>, online: Option<map<int, bool>>)
    requires IsParallelReport(pairs, edges, online)
    ensures forall k :: 0 <= k < |pairs| ==> IsPair(pairs[k].deviceIDs)
    ensures forall i, j :: 0 <= i < j < |pairs| ==> pairs[i].deviceIDs != pairs[j].deviceIDs
  {
    hide HasPair, Parallel, Sees, HasHop;
    forall k | 0 <= k < |pairs|
      ensures IsPair(pairs[k].deviceIDs)
    {
      assert ParallelRight(pairs[k], edges, online);
    }
  }

  lemma LoopOrPairKeys(a: seq<int>, b: seq<int>)
    requires |a| >= 3 || (IsPair(a) && a != b)
    requires Distinct(a) && IsPair(b)
    ensures KeyFor(a) != KeyFor(b)
  {
    hide KeyFor, SameLoop;
    KeyForIsCanonical(a, b);
    if |a| == 2 {
      PairsDiffer(a, b);
    } else if SameLoop(a, b) {
      SameLoopSameLength(a, b);
    }
  }

  /** Loops of three or more devices and pairs never share a key. */
  lemma LiveKeysDiffer(found: seq<TopologyCycle>, pairs: seq<TopologyCycle>)
    requires KeysDiffer(found)
    requires forall k :: 0 <= k < |found| ==> |found[k].deviceIDs| >= 3 && Distinct(found[k].deviceIDs)
    requires forall k :: 0 <= k < |pairs| ==> IsPair(pairs[k].deviceIDs)
    requires forall i, j :: 0 <= i < j < |pairs| ==> pairs[i].deviceIDs != pairs[j].deviceIDs
    ensures KeysDiffer(found + pairs)
    ensures forall k :: 0 <= k < |found + pairs| ==>
        |(found + pairs)[k].deviceIDs| > 0 && Distinct((found + pairs)[k].deviceIDs)
  {
    hide KeyFor;
    var all := found + pairs;
    forall i, j | 0 <= i < j < |all|
      ensures KeyFor(all[i].deviceIDs) != KeyFor(all[j].deviceIDs)
    {
      if j >= |found| {
        assert i >= |found| ==> all[i] == pairs[i - |found|];
        assert all[j] == pairs[j - |found|];
        LoopOrPairKeys(all[i].deviceIDs, all[j].deviceIDs);
      }
    }
  }

  /** What a report over the cached topology holds. */
  ghost predicate OverCache(cycles: seq<TopologyCycle>, edges: seq<BlastEdge>, online: Option<map<int, bool>>,
                            adj: Adj) {
    && Simple(adj) && (forall u, v :: Linked(adj, u, v) <==> u != v && Joined(edges, |edges|, online, u, v))
    && IsLoopReport(adj, Devices(cycles))
    && (forall k :: 0 <= k < |cycles| ==> RunsOverEdges(cycles[k], edges, online))
  }

  /** What a report over the live graph holds: the loops and the parallel pairs. */
  ghost predicate OverLive(cycles: seq<TopologyCycle>, edges: seq<LiveEdge>, online: Option<map<int, bool>>,
                           summary: Summary,
                           adj: Adj, found: seq<TopologyCycle>, pairs: seq<TopologyCycle>) {
    && Simple(adj) && (forall u, v :: Linked(adj, u, v) <==> u != v && LiveJoined(edges, |edges|, online, u, v))
    && IsLoopReport(adj, Devices(found)) && IsParallelReport(pairs, edges, online)
    && (forall k :: 0 <= k < |found| ==> RunsOverEntries(found[k], edges, online))
    && IsFinished(found + pairs, cycles, summary)
  }

  /** The hop follows the entry: on the device the entry belongs to it has the
      entry's port, on the other device none. */
  ghost predicate HopOn(h: Hop, e: LiveEdge) {
    && e.remoteID.Some? && h.protocol == e.protocol
    && (|| (h.fromID == e.localID && h.fromIf == e.localIf && h.toID == e.remoteID.value && h.toIf == None)
        || (&& h.fromID == e.remoteID.value && h.fromIf == 0 && h.toID == e.localID
            && h.toIf == (if e.localIf > 0 then Some(e.localIf) else None)))
  }

  ghost predicate OverEntry(h: Hop, u: int, v: int, edges: seq<LiveEdge>, online: Option<map<int, bool>>) {
    && h.fromID == u && h.toID == v
    && exists k :: 0 <= k < |edges| && Current(online, edges[k]) && HopOn(h, edges[k])
  }

  /** From each device of the cycle one hop leads to the next, over a current entry. */
  ghost predicate RunsOverEntries(c: TopologyCycle, edges: seq<LiveEdge>, online: Option<map<int, bool>>) {
    && |c.hops| == |c.deviceIDs|
    && forall i :: 0 <= i < |c.hops| ==>
        OverEntry(c.hops[i], c.deviceIDs[i], c.deviceIDs[if i + 1 < |c.deviceIDs| then i + 1 else 0], edges, online)
  }

  lemma HopOnEntry(h: Hop, l: TopoLink, e: LiveEdge)
    requires HopRight(h, l) && LiesOn(l, e) && l.protocol == e.protocol
    ensures HopOn(h, e)
  {
  }

  lemma HopFollowsEntry(h: Hop, u: int, v: int, links: seq<TopoLink>, edges: seq<LiveEdge>,
                        online: Option<map<int, bool>>)
    requires LiveLinksRight(links, edges, online) && HopFits(h, u, v, links, online)
    ensures OverEntry(h, u, v, edges, online)
  {
    hide Current, HopRight, LiesOn, Up, HasLiveLink, SamePorts, Pair, Ends;
    var l :| FirstBetween(links, Pair(u, v), l) && HopRight(h, l);
    var i :| 0 <= i < |links| && links[i] == l;
    assert FromLive(edges, |edges|, online, links[i]);
    var k :| 0 <= k < |edges| && FromEntry(edges, k, online, l);
    HopOnEntry(h, l, edges[k]);
  }

  lemma CycleFollowsEntries(c: TopologyCycle, links: seq<TopoLink>, edges: seq<LiveEdge>,
                            online: Option<map<int, bool>>)
    requires LiveLinksRight(links, edges, online) && HopsRight(c, links, online)
    ensures RunsOverEntries(c, edges, online)
  {
    hide LiveLinksRight, HopFits, OverEntry;
    forall i | 0 <= i < |c.hops|
      ensures OverEntry(c.hops[i], c.deviceIDs[i], c.deviceIDs[if i + 1 < |c.deviceIDs| then i + 1 else 0], edges,
                        online)
    {
      HopFollowsEntry(c.hops[i], c.deviceIDs[i], Next(c.deviceIDs, i), links, edges, online);
    }
  }

  /** Every hop of a cycle rests on a fresh entry, and its device is online. */
  lemma EntryIsFresh(c: TopologyCycle, edges: seq<LiveEdge>, online: Option<map<int, bool>>, i: nat)
    requires RunsOverEntries(c, edges, online) && i < |c.deviceIDs|
    ensures online.Some? ==> c.deviceIDs[i] in online.value && online.value[c.deviceIDs[i]]
    ensures exists e :: e in edges && !e.stale && HopOn(c.hops[i], e)
  {
    assert OverEntry(c.hops[i], c.deviceIDs[i], c.deviceIDs[if i + 1 < |c.deviceIDs| then i + 1 else 0], edges, online);
    var k :| 0 <= k < |edges| && Current(online, edges[k]) && HopOn(c.hops[i], edges[k]);
    assert edges[k] in edges;
  }

  /** The report over the live graph: the search's cycles and the parallel pairs,
      all of them and nothing else, named and in order. */
  method BuildLiveReport(edges: seq<LiveEdge>, online: Option<map<int, bool>>, summary: Summary)
    returns (cycles: seq<TopologyCycle>, ghost adj: Adj, ghost found: seq<TopologyCycle>,
             ghost pairs: seq<TopologyCycle>)
    requires Proper(edges)
    ensures OverLive(cycles, edges, online, summary, adj, found, pairs)
    ensures forall k :: 0 <= k < |cycles| ==> WellNamed(cycles[k])
  {
    var links, a := BuildUndirectedLLDPGraph(edges, online);
    adj := a;
    hide Proper, LiveLinksRight, IsIndex, LiveJoined, Simple, LinksOnline, IsLoopReport, HopsRight, WellNamed, Tied,
      Linked,
      IsParallelReport, IsFinished, KeysDiffer, RunsOverEntries;
    var loops, index := FindUndirectedCycles(a, links);
    found := loops;
    DistinctKeys(a, loops);
    FoundHops(a, links, index, online, loops);
    forall k | 0 <= k < |loops|
      ensures RunsOverEntries(loops[k], edges, online)
    {
      CycleFollowsEntries(loops[k], links, edges, online);
    }
    var parallel := ParallelLinkCyclesFromEdges(edges, online);
    pairs := parallel;
    ParallelShapes(parallel, edges, online);
    LiveKeysDiffer(loops, parallel);
    cycles := FinishReport(loops + parallel, summary);
    FinishedIsWellNamed(loops + parallel, cycles, summary);
  }

  /** The cached topology is preferred; without it the live graph is used, and
      without either there is no report. */
  method BuildLoopReport(cache: Option<seq<BlastEdge>>, live: Option<seq<LiveEdge>>, online: Option<map<int, bool>>,
                         summary: Summary)
    returns (report: Option<seq<TopologyCycle>>)
    requires live.Some? ==> Proper(live.value)
    ensures report.Some? <==> cache.Some? || live.Some?
    ensures report.Some? ==> KeysDiffer(report.value) && Ordered(report.value, summary)
    ensures report.Some? ==> forall k :: 0 <= k < |report.value| ==> WellNamed(report.value[k])
    ensures cache.Some? ==> exists adj :: OverCache(report.value, cache.value, online, adj)
    ensures cache.None? && live.Some? ==>
        exists adj, found, pairs :: OverLive(report.value, live.value, online, summary, adj, found, pairs)
  {
    hide Ordered, WellNamed, Proper, Simple, Joined, LiveJoined, Linked, IsLoopReport, KeysDiffer, IsParallelReport,
      RunsOverEdges, RunsOverEntries;
    if cache.Some? {
      var cycles, adj := BuildCachedReport(cache.value, online, summary);
      DistinctKeys(adj, cycles);
      assert OverCache(cycles, cache.value, online, adj);
      return Some(cycles);
    }
    if live.None? {
      return None;
    }
    var cycles, adj, found, pairs := BuildLiveReport(live.value, online, summary);
    return Some(cycles);
  }
}
