/** The loop report over the cached topology. */
module LoopReport {
  import opened Graph
  import opened DfsForest
  import opened LoopTheorems
  import opened Loops
  import opened CycleReport

  datatype BlastEdge = BlastEdge(aID: int, bID: int, aIf: int, bIf: int, protocols: string)

  /** The edge can be followed: two devices of the inventory, none of them offline. */
  ghost predicate Usable(online: Option<map<int, bool>>, e: BlastEdge) {
    e.aID > 0 && e.bID > 0 && e.aID != e.bID && Up(online, e.aID) && Up(online, e.bID)
  }

  ghost predicate UsableBetween(online: Option<map<int, bool>>, e: BlastEdge, u: int, v: int) {
    Usable(online, e) && Joins(e.aID, e.bID, u, v)
  }

  /** Some usable edge among the first `n` joins the two devices. */
  ghost predicate Joined(edges: seq<BlastEdge>, n: nat, online: Option<map<int, bool>>, u: int, v: int) {
    exists k :: 0 <= k < n && k < |edges| && UsableBetween(online, edges[k], u, v)
  }

  /** `e` is the first usable edge between the two devices. */
  ghost predicate FirstUsable(edges: seq<BlastEdge>, n: nat, online: Option<map<int, bool>>, u: int, v: int,
                              e: BlastEdge) {
    exists k :: 0 <= k < n && k < |edges| && edges[k] == e && UsableBetween(online, e, u, v) &&
                forall j :: 0 <= j < k ==> !UsableBetween(online, edges[j], u, v)
  }

  /** The edge as a link from the lower to the higher id. */
  function LinkOf(e: BlastEdge): TopoLink {
    var proto := if e.protocols == "" then "lldp+cdp+manual" else e.protocols;
    if e.aID > e.bID then TopoLink(e.bID, e.aID, e.bIf, e.aIf, proto) else TopoLink(e.aID, e.bID, e.aIf, e.bIf, proto)
  }

  ghost predicate FoundBy(protocol: string, e: BlastEdge) {
    if |e.protocols| > 0 then protocol == e.protocols else protocol == "lldp+cdp+manual"
  }

  /** The link lies along the edge, each interface index on its own device. */
  ghost predicate LiesAlong(l: TopoLink, e: BlastEdge) {
    && l.a < l.b && FoundBy(l.protocol, e)
    && (|| (l.a == e.aID && l.aIf == e.aIf && l.b == e.bID && l.bIf == e.bIf)
        || (l.a == e.bID && l.aIf == e.bIf && l.b == e.aID && l.bIf == e.aIf))
  }

  ghost predicate Derived(edges: seq<BlastEdge>, n: nat, online: Option<map<int, bool>>, l: TopoLink) {
    exists k :: 0 <= k < n && k < |edges| && Usable(online, edges[k]) && LiesAlong(l, edges[k])
  }

  ghost predicate FirstDerived(edges: seq<BlastEdge>, n: nat, online: Option<map<int, bool>>, l: TopoLink) {
    exists e :: FirstUsable(edges, n, online, l.a, l.b, e) && LiesAlong(l, e)
  }

  ghost predicate HasLink(links: seq<TopoLink>, e: BlastEdge) {
    exists i :: 0 <= i < |links| && LiesAlong(links[i], e)
  }

  /** Every link comes from a usable edge, every usable edge gives a link, and the
      first link of two devices lies along their first usable edge. */
  ghost predicate LinksRight(links: seq<TopoLink>, edges: seq<BlastEdge>, n: nat, online: Option<map<int, bool>>) {
    && (forall i :: 0 <= i < |links| ==> Derived(edges, n, online, links[i]))
    && (forall k :: 0 <= k < n && k < |edges| && Usable(online, edges[k]) ==> HasLink(links, edges[k]))
    && (forall p, l :: FirstBetween(links, p, l) ==> FirstDerived(edges, n, online, l))
  }

  ghost predicate AdjRight(adj: Adj, pairs: set<(int, int)>) {
    && Simple(adj)
    && (forall u, v :: Linked(adj, u, v) <==> u != v && Pair(u, v) in pairs)
    && (forall p :: p in pairs ==> 0 < p.0 < p.1)
  }

  function Append(adj: Adj, u: int, v: int): Adj {
    adj[u := Nbrs(adj, u) + [v]]
  }

  lemma AppendLinked(adj: Adj, u: int, v: int, x: int, y: int)
    ensures Linked(Append(adj, u, v), x, y) <==> Linked(adj, x, y) || (x == u && y == v)
  {
    if x == u {
      assert forall z :: z in Nbrs(adj, u) + [v] <==> z in Nbrs(adj, u) || z == v;
    }
  }

  /** Adding a new pair of devices in both directions. */
  lemma AddPair(adj: Adj, pairs: set<(int, int)>, lo: int, hi: int)
    requires AdjRight(adj, pairs) && 0 < lo < hi && (lo, hi) !in pairs
    ensures AdjRight(Append(Append(adj, lo, hi), hi, lo), pairs + {(lo, hi)})
  {
    var adj1 := Append(adj, lo, hi);
    var adj2 := Append(adj1, hi, lo);
    forall x, y
      ensures Linked(adj2, x, y) <==> Linked(adj, x, y) || (x == lo && y == hi) || (x == hi && y == lo)
    {
      AppendLinked(adj, lo, hi, x, y);
      AppendLinked(adj1, hi, lo, x, y);
    }
    assert !Linked(adj, lo, hi) && !Linked(adj, hi, lo);
    forall u | u in adj2
      ensures u > 0 && Distinct(adj2[u])
    {
      if u == lo || u == hi {
        DistinctAppend(Nbrs(adj, u), if u == lo then hi else lo);
      }
    }
    forall u, v | u in adj2 && v in adj2[u]
      ensures v in adj2 && v != u && u in adj2[v]
    {
      assert Linked(adj2, u, v);
      assert Linked(adj2, v, u) by {
        if Linked(adj, u, v) {
          assert u in adj && v in adj[u] && u in adj[v];
          assert Linked(adj, v, u);
        }
      }
    }
  }

  lemma DistinctAppend(s: seq<int>, x: int)
    requires Distinct(s) && x !in s
    ensures Distinct(s + [x])
  {
  }

  /** The adjacency with every neighbour list in ascending order. */
  function SortAdjacency(adj: Adj): (r: Adj)
    ensures forall u :: u in r <==> u in adj
    ensures forall u :: u in adj ==> r[u] == Ascending(adj[u])
  {
    map u | u in adj :: Ascending(adj[u])
  }

  lemma SortedAdjacency(adj: Adj, pairs: set<(int, int)>)
    requires AdjRight(adj, pairs)
    ensures AdjRight(SortAdjacency(adj), pairs)
    ensures forall u :: u in adj ==> Increasing(SortAdjacency(adj)[u])
  {
    var r := SortAdjacency(adj);
    forall u | u in adj
      ensures Increasing(r[u]) && (forall v :: v in r[u] <==> v in adj[u]) && Distinct(r[u])
    {
      AscendingSorts(adj[u]);
    }
    forall u, v
      ensures Linked(r, u, v) <==> Linked(adj, u, v)
    {
    }
  }

  method BuildUndirectedFromBlast(edges: seq<BlastEdge>,
                                  online: Option<map<int, bool>>) returns (links: seq<TopoLink>, adj: Adj)
    ensures Simple(adj) && forall u, v :: Linked(adj, u, v) <==> u != v && Joined(edges, |edges|, online, u, v)
    ensures LinksRight(links, edges, |edges|, online)
    ensures forall u :: u in adj ==> Increasing(adj[u])
  {
    links, adj := [], map[];
    var pairSeen: set<(int, int)> := {};
    hide AdjRight, LinksRight, Joined, Increasing;
    NothingYet(edges, online);
    for k := 0 to |edges|
      invariant AdjRight(adj, pairSeen) && LinksRight(links, edges, k, online)
      invariant forall u, v :: Pair(u, v) in pairSeen <==> Joined(edges, k, online, u, v)
    {
      var e := edges[k];
      NextEdge(links, edges, k, online);
      if e.aID <= 0 || e.bID <= 0 || e.aID == e.bID {
        continue;
      }
      if !BothOnline(online, e.aID, e.bID) {
        continue;
      }
      var l := LinkOf(e);
      EdgePair(e);
      links := links + [l];
      var p := (l.a, l.b);
      if p in pairSeen {
        continue;
      }
      AddPair(adj, pairSeen, l.a, l.b);
      pairSeen := pairSeen + {p};
      adj := Append(adj, l.a, l.b);
      adj := Append(adj, l.b, l.a);
    }
    SortedAdjacency(adj, pairSeen);
    adj := SortAdjacency(adj);
    AdjFacts(adj, pairSeen);
  }

  lemma NothingYet(edges: seq<BlastEdge>, online: Option<map<int, bool>>)
    ensures AdjRight(map[], {}) && LinksRight([], edges, 0, online) && forall u, v :: !Joined(edges, 0, online, u, v)
  {
  }

  lemma AdjFacts(adj: Adj, pairs: set<(int, int)>)
    requires AdjRight(adj, pairs)
    ensures Simple(adj) && forall u, v :: Linked(adj, u, v) <==> u != v && Pair(u, v) in pairs
  {
  }

  lemma EdgePair(e: BlastEdge)
    requires e.aID != e.bID
    ensures LiesAlong(LinkOf(e), e)
    ensures forall u, v :: Ends(LinkOf(e)) == Pair(u, v) <==> Joins(e.aID, e.bID, u, v)
  {
  }

  lemma LinkEnds(l: TopoLink, e: BlastEdge)
    requires LiesAlong(l, e)
    ensures forall u, v :: Ends(l) == Pair(u, v) <==> Joins(e.aID, e.bID, u, v)
    ensures forall u, v :: Joins(e.aID, e.bID, u, v) <==> Joins(l.a, l.b, u, v)
    ensures Ends(l) == (l.a, l.b)
  {
  }

  lemma LinkIsUp(l: TopoLink, e: BlastEdge, online: Option<map<int, bool>>)
    requires LiesAlong(l, e) && Usable(online, e)
    ensures Up(online, l.a) && Up(online, l.b)
  {
  }

  lemma NextJoined(edges: seq<BlastEdge>, k: nat, online: Option<map<int, bool>>)
    requires k < |edges|
    ensures forall u, v :: Joined(edges, k + 1, online, u, v) <==>
                             Joined(edges, k, online, u, v) || UsableBetween(online, edges[k], u, v)
  {
    hide UsableBetween;
  }

  lemma NextEdge(links: seq<TopoLink>, edges: seq<BlastEdge>, k: nat, online: Option<map<int, bool>>)
    requires k < |edges| && LinksRight(links, edges, k, online)
    ensures Usable(online, edges[k]) ==> LinksRight(links + [LinkOf(edges[k])], edges, k + 1, online)
    ensures !Usable(online, edges[k]) ==> LinksRight(links, edges, k + 1, online)
    ensures forall u, v :: Joined(edges, k + 1, online, u, v) <==>
                             Joined(edges, k, online, u, v) || UsableBetween(online, edges[k], u, v)
  {
    hide FirstBetween, FirstDerived, Derived, LinkOf, Joins, LiesAlong, Joined, UsableBetween;
    NextJoined(edges, k, online);
    MoreEdges(links, edges, k, online);
    if Usable(online, edges[k]) {
      var l := LinkOf(edges[k]);
      var all := links + [l];
      EdgePair(edges[k]);
      hide Usable;
      assert all[|links|] == l && forall i :: 0 <= i < |links| ==> all[i] == links[i];
      DerivedLast(edges, k, online);
      forall j | 0 <= j < k + 1 && Usable(online, edges[j])
        ensures HasLink(all, edges[j])
      {
        KeepsLink(links, l, edges[j]);
      }
      forall p, m | FirstBetween(all, p, m)
        ensures FirstDerived(edges, k + 1, online, m)
      {
        AppendedFirst(links, l, p, m);
        if !FirstBetween(links, p, m) {
          NewFirst(links, edges, k, online);
        }
      }
    }
  }

  lemma DerivedLast(edges: seq<BlastEdge>, k: nat, online: Option<map<int, bool>>)
    requires k < |edges| && Usable(online, edges[k])
    ensures Derived(edges, k + 1, online, LinkOf(edges[k]))
  {
    EdgePair(edges[k]);
  }

  lemma KeepsLink(links: seq<TopoLink>, l: TopoLink, e: BlastEdge)
    requires HasLink(links, e) || LiesAlong(l, e)
    ensures HasLink(links + [l], e)
  {
    hide LiesAlong;
    var all := links + [l];
    assert all[|links|] == l;
    if HasLink(links, e) {
      var i :| 0 <= i < |links| && LiesAlong(links[i], e);
      assert all[i] == links[i];
    }
  }

  lemma AppendedFirst(links: seq<TopoLink>, l: TopoLink, p: (int, int), m: TopoLink)
    requires FirstBetween(links + [l], p, m)
    ensures FirstBetween(links, p, m) ||
            (m == l && p == Ends(l) && forall j :: 0 <= j < |links| ==> Ends(links[j]) != p)
  {
    hide Ends;
    var all := links + [l];
    assert forall j :: 0 <= j < |links| ==> links[j] == all[j];
    var i :| 0 <= i < |all| && all[i] == m && Ends(m) == p && forall j :: 0 <= j < i ==> Ends(all[j]) != p;
  }

  lemma MoreEdges(links: seq<TopoLink>, edges: seq<BlastEdge>, k: nat, online: Option<map<int, bool>>)
    requires k < |edges| && LinksRight(links, edges, k, online)
    ensures forall i :: 0 <= i < |links| ==> Derived(edges, k + 1, online, links[i])
    ensures forall p, l :: FirstBetween(links, p, l) ==> FirstDerived(edges, k + 1, online, l)
  {
    hide Usable, LiesAlong, HasLink, UsableBetween;
    forall i | 0 <= i < |links|
      ensures Derived(edges, k + 1, online, links[i])
    {
      assert Derived(edges, k, online, links[i]);
    }
    forall p, l | FirstBetween(links, p, l)
      ensures FirstDerived(edges, k + 1, online, l)
    {
      assert FirstDerived(edges, k, online, l);
      var e :| FirstUsable(edges, k, online, l.a, l.b, e) && LiesAlong(l, e);
      assert FirstUsable(edges, k + 1, online, l.a, l.b, e);
    }
  }

  /** The link of a usable edge is the first of its pair only if the edge is. */
  lemma NewFirst(links: seq<TopoLink>, edges: seq<BlastEdge>, k: nat, online: Option<map<int, bool>>)
    requires k < |edges| && LinksRight(links, edges, k, online) && Usable(online, edges[k])
    requires forall j :: 0 <= j < |links| ==> Ends(links[j]) != Ends(LinkOf(edges[k]))
    ensures FirstDerived(edges, k + 1, online, LinkOf(edges[k]))
  {
    var l := LinkOf(edges[k]);
    EdgePair(edges[k]);
    LinkEnds(l, edges[k]);
    hide LinkOf, Usable, LiesAlong, FirstDerived, Derived, Joins, Ends;
    forall j | 0 <= j < k
      ensures !UsableBetween(online, edges[j], l.a, l.b)
    {
      if UsableBetween(online, edges[j], l.a, l.b) {
        assert HasLink(links, edges[j]);
        var x :| 0 <= x < |links| && LiesAlong(links[x], edges[j]);
        LinkEnds(links[x], edges[j]);
      }
    }
    SelfJoins(l, edges[k]);
    assert FirstUsable(edges, k + 1, online, l.a, l.b, edges[k]);
    FirstIsDerived(edges, k + 1, online, l, edges[k]);
  }

  lemma SelfJoins(l: TopoLink, e: BlastEdge)
    requires LiesAlong(l, e)
    ensures Joins(e.aID, e.bID, l.a, l.b)
  {
  }

  lemma FirstIsDerived(edges: seq<BlastEdge>, n: nat, online: Option<map<int, bool>>, l: TopoLink, e: BlastEdge)
    requires FirstUsable(edges, n, online, l.a, l.b, e) && LiesAlong(l, e)
    ensures FirstDerived(edges, n, online, l)
  {
  }

  // ----- the report

  /** The links are those of usable edges, so their ends are online, and two devices
      are joined by an edge exactly when a link ties them. */
  lemma LinksOfEdges(links: seq<TopoLink>, edges: seq<BlastEdge>, online: Option<map<int, bool>>)
    requires LinksRight(links, edges, |edges|, online)
    ensures LinksOnline(links, online)
    ensures forall u, v :: Joined(edges, |edges|, online, u, v) ==> Tied(links, u, v)
  {
    hide LiesAlong, Usable, Joins, Pair, Ends, FirstDerived, FirstBetween, Up;
    forall k | 0 <= k < |links|
      ensures Up(online, links[k].a) && Up(online, links[k].b)
    {
      assert Derived(edges, |edges|, online, links[k]);
      var j :| 0 <= j < |edges| && Usable(online, edges[j]) && LiesAlong(links[k], edges[j]);
      LinkIsUp(links[k], edges[j], online);
    }
    forall u, v | Joined(edges, |edges|, online, u, v)
      ensures Tied(links, u, v)
    {
      var k :| 0 <= k < |edges| && UsableBetween(online, edges[k], u, v);
      assert HasLink(links, edges[k]);
      var i :| 0 <= i < |links| && LiesAlong(links[i], edges[k]);
      LinkEnds(links[i], edges[k]);
      assert Ends(links[i]) == Pair(u, v);
    }
  }

  /** The hop follows the edge: it leaves by the index the edge has on the device
      it starts on and arrives at the one on the other device. */
  ghost predicate HopAlong(h: Hop, e: BlastEdge) {
    && FoundBy(h.protocol, e)
    && (|| (&& h.fromID == e.aID && h.fromIf == e.aIf && h.toID == e.bID
            && h.toIf == (if e.bIf > 0 then Some(e.bIf) else None))
        || (&& h.fromID == e.bID && h.fromIf == e.bIf && h.toID == e.aID
            && h.toIf == (if e.aIf > 0 then Some(e.aIf) else None)))
  }

  ghost predicate OverEdge(h: Hop, u: int, v: int, edges: seq<BlastEdge>, online: Option<map<int, bool>>) {
    h.fromID == u && h.toID == v && exists e :: FirstUsable(edges, |edges|, online, u, v, e) && HopAlong(h, e)
  }

  /** From each device of the cycle one hop leads to the next, over the first usable
      edge between them. */
  ghost predicate RunsOverEdges(c: TopologyCycle, edges: seq<BlastEdge>, online: Option<map<int, bool>>) {
    && |c.hops| == |c.deviceIDs|
    && forall i :: 0 <= i < |c.hops| ==>
        OverEdge(c.hops[i], c.deviceIDs[i], c.deviceIDs[if i + 1 < |c.deviceIDs| then i + 1 else 0], edges, online)
  }

  lemma HopFollowsEdge(h: Hop, u: int, v: int, links: seq<TopoLink>, edges: seq<BlastEdge>,
                       online: Option<map<int, bool>>)
    requires LinksRight(links, edges, |edges|, online) && HopFits(h, u, v, links, online)
    ensures OverEdge(h, u, v, edges, online)
  {
    var l :| FirstBetween(links, Pair(u, v), l) && HopRight(h, l);
    assert FirstDerived(edges, |edges|, online, l);
    var e :| FirstUsable(edges, |edges|, online, l.a, l.b, e) && LiesAlong(l, e);
    assert Joins(l.a, l.b, u, v);
    hide Joins, FirstUsable, HopRight, HopAlong, LiesAlong, LinksRight, Up;
    SameBetween(edges, online, l.a, l.b, u, v, e);
    HopAlongEdge(h, l, e);
  }

  lemma HopAlongEdge(h: Hop, l: TopoLink, e: BlastEdge)
    requires HopRight(h, l) && LiesAlong(l, e)
    ensures HopAlong(h, e)
  {
  }

  lemma SameBetween(edges: seq<BlastEdge>, online: Option<map<int, bool>>, a: int, b: int, u: int, v: int, e: BlastEdge)
    requires FirstUsable(edges, |edges|, online, a, b, e) && Joins(a, b, u, v)
    ensures FirstUsable(edges, |edges|, online, u, v, e)
  {
    hide Usable;
    assert forall x: BlastEdge :: UsableBetween(online, x, a, b) == UsableBetween(online, x, u, v);
  }

  lemma CycleFollowsEdges(c: TopologyCycle, links: seq<TopoLink>, edges: seq<BlastEdge>,
                          online: Option<map<int, bool>>)
    requires LinksRight(links, edges, |edges|, online) && HopsRight(c, links, online)
    ensures RunsOverEdges(c, edges, online)
  {
    hide LinksRight, HopFits, OverEdge;
    forall i | 0 <= i < |c.hops|
      ensures OverEdge(c.hops[i], c.deviceIDs[i], c.deviceIDs[if i + 1 < |c.deviceIDs| then i + 1 else 0], edges,
                       online)
    {
      HopFollowsEdge(c.hops[i], c.deviceIDs[i], Next(c.deviceIDs, i), links, edges, online);
    }
  }

  /** An offline or unknown device is on no cycle. */
  lemma CycleDeviceIsUp(c: TopologyCycle, edges: seq<BlastEdge>, online: Option<map<int, bool>>, i: nat)
    requires RunsOverEdges(c, edges, online) && i < |c.deviceIDs|
    ensures c.deviceIDs[i] > 0
    ensures online.Some? ==> c.deviceIDs[i] in online.value && online.value[c.deviceIDs[i]]
  {
    assert OverEdge(c.hops[i], c.deviceIDs[i], c.deviceIDs[if i + 1 < |c.deviceIDs| then i + 1 else 0], edges, online);
  }

  /** The report over the cached topology: the search's cycles, all of them, named
      and in order; removing duplicates removes nothing. */
  method BuildCachedReport(edges: seq<BlastEdge>, online: Option<map<int, bool>>, summary: Summary)
    returns (cycles: seq<TopologyCycle>, ghost adj: Adj)
    ensures Simple(adj) && forall u, v :: Linked(adj, u, v) <==> u != v && Joined(edges, |edges|, online, u, v)
    ensures IsLoopReport(adj, Devices(cycles)) && Ordered(cycles, summary)
    ensures forall k :: 0 <= k < |cycles| ==> RunsOverEdges(cycles[k], edges, online) && WellNamed(cycles[k])
  {
    var links, a := BuildUndirectedFromBlast(edges, online);
    adj := a;
    LinksOfEdges(links, edges, online);
    hide LinksRight, IsIndex, Joined, Simple, LinksOnline, IsLoopReport, HopsRight, WellNamed, Ordered, Tied, Linked,
      RunsOverEdges;
    var found, index := FindUndirectedCycles(a, links);
    DistinctKeys(a, found);
    FoundHops(a, links, index, online, found);
    cycles := FinishReport(found, summary);
    ReportInAnyOrder(a, found, cycles, summary);
    FinishedHops(found, cycles, summary, links, online);
    FinishedIsWellNamed(found, cycles, summary);
    forall k | 0 <= k < |cycles|
      ensures RunsOverEdges(cycles[k], edges, online)
    {
      CycleFollowsEdges(cycles[k], links, edges, online);
    }
  }
}
