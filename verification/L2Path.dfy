/** The labelled path between two devices: each hop names the port it leaves by. */
module L2Path {
  import opened Graph
  import opened Search
  import opened LeastPath
  import opened Bfs

  datatype Edge = Edge(to: int, localIf: int, localName: string)

  datatype Port = Port(ifIndex: int, ifName: string)

  datatype Hop = Hop(device: int, via: Option<Port>)

  datatype Parent = Parent(id: int, via: Edge)

  type EdgeMap = map<int, seq<Edge>>

  function EdgesAt(adj: EdgeMap, u: int): seq<Edge> {
    if u in adj then adj[u] else []
  }

  ghost function Targets(es: seq<Edge>): seq<int> {
    seq(|es|, i requires 0 <= i < |es| => es[i].to)
  }

  /** The same graph without labels. */
  ghost function Plain(adj: EdgeMap): Adj {
    map u | u in adj :: Targets(adj[u])
  }

  function PortOf(e: Edge): Option<Port> {
    if e.localIf > 0 then Some(Port(e.localIf, e.localName)) else None
  }

  /** `e` is the first of possibly several links to `x`. */
  ghost predicate FirstLink(es: seq<Edge>, x: int, e: Edge) {
    exists k :: 0 <= k < |es| && es[k] == e && e.to == x && forall j :: 0 <= j < k ==> es[j].to != x
  }

  /** The link's own port, index and name, or none where the index is not positive. */
  ghost predicate Names(e: Edge, via: Option<Port>) {
    && (e.localIf > 0 ==> via.Some? && via.value.ifIndex == e.localIf && via.value.ifName == e.localName)
    && (e.localIf <= 0 ==> via.None?)
  }

  /** `a` is left towards `b` by the port of the first link between them. */
  ghost predicate LeavesBy(adj: EdgeMap, a: int, b: int, via: Option<Port>) {
    a in adj && exists e :: FirstLink(adj[a], b, e) && Names(e, via)
  }

  function Devices(hops: seq<Hop>): (ids: seq<int>)
    ensures |ids| == |hops| && forall i :: 0 <= i < |hops| ==> ids[i] == hops[i].device
  {
    seq(|hops|, i requires 0 <= i < |hops| => hops[i].device)
  }

  ghost predicate PortsRight(adj: EdgeMap, hops: seq<Hop>) {
    && (forall i :: 0 <= i < |hops| - 1 ==> PortRight(adj, hops, i))
    && (|hops| > 0 ==> hops[|hops| - 1].via.None?)
  }

  ghost predicate PortRight(adj: EdgeMap, hops: seq<Hop>, i: int)
    requires 0 <= i < |hops| - 1
  {
    LeavesBy(adj, hops[i].device, hops[i + 1].device, hops[i].via)
  }

  // ----- the search

  /** A parent and the first link from it, for everything discovered but the start. */
  ghost predicate Labelled(adj: EdgeMap, s: int, d: map<int, nat>, walks: map<int, seq<int>>,
                           parent: map<int, Parent>) {
    forall x :: x in d && x != s ==>
      && x in parent && x in walks && |walks[x]| >= 2 && parent[x].id == walks[x][|walks[x]| - 2]
      && FirstLink(EdgesAt(adj, parent[x].id), x, parent[x].via)
  }

  ghost predicate Going(adj: EdgeMap, from: int, to: int, d: map<int, nat>, walks: map<int, seq<int>>,
                        parent: map<int, Parent>, seen: set<int>, pending: seq<int>) {
    && Searching(Plain(adj), EdgesOf(Plain(adj)), from, d, walks, pending)
    && Labelled(adj, from, d, walks, parent)
    && (forall x :: x in seen <==> x in d) && to !in d
  }

  ghost predicate Arrived(adj: EdgeMap, from: int, to: int, d: map<int, nat>, walks: map<int, seq<int>>,
                          parent: map<int, Parent>) {
    var g := EdgesOf(Plain(adj));
    && Witnessed(g, from, d, walks) && Tree(d, from, walks) && Labelled(adj, from, d, walks, parent)
    && to in d && IsDistance(g, from, to, d[to]) && Least(Plain(adj), g, walks[to], from, to)
  }

  lemma PlainAt(adj: EdgeMap, u: int, k: nat)
    requires k < |EdgesAt(adj, u)|
    ensures Nbrs(Plain(adj), u) == Targets(EdgesAt(adj, u))
    ensures Nbrs(Plain(adj), u)[k] == EdgesAt(adj, u)[k].to
    ensures (u, EdgesAt(adj, u)[k].to) in EdgesOf(Plain(adj))
  {
    assert Plain(adj)[u][k] == adj[u][k].to;
  }

  lemma PlainNbrs(adj: EdgeMap, u: int)
    ensures Nbrs(Plain(adj), u) == Targets(EdgesAt(adj, u))
  {
  }

  lemma LabelledGrows(adj: EdgeMap, s: int, d: map<int, nat>, walks: map<int, seq<int>>, parent: map<int, Parent>,
                      u: int, e: Edge)
    requires Labelled(adj, s, d, walks, parent) && u in d && u in walks && |walks[u]| > 0
    requires walks[u][|walks[u]| - 1] == u
    requires e.to !in d && FirstLink(EdgesAt(adj, u), e.to, e)
    ensures Labelled(adj, s, d[e.to := d[u] + 1], walks[e.to := walks[u] + [e.to]], parent[e.to := Parent(u, e)])
  {
    hide FirstLink;
  }

  lemma StepDiscovers(adj: EdgeMap, from: int, to: int, d: map<int, nat>, walks: map<int, seq<int>>,
                      parent: map<int, Parent>, seen: set<int>, u: int, k: nat, q: seq<int>)
    requires Going(adj, from, to, d, walks, parent, seen, [u] + q)
    requires u in d && u in walks && k < |EdgesAt(adj, u)| && EdgesAt(adj, u)[k].to !in seen
    requires forall j :: 0 <= j < k ==> EdgesAt(adj, u)[j].to in seen
    requires Nbrs(Plain(adj), u) == Targets(EdgesAt(adj, u))
    requires forall j :: 0 <= j < |q| ==> Hangs(Plain(adj), walks, u, k, q[j])
    ensures var e := EdgesAt(adj, u)[k];
            var d', walks', parent' :=
                d[e.to := d[u] + 1], walks[e.to := walks[u] + [e.to]], parent[e.to := Parent(u, e)];
            if e.to == to then Arrived(adj, from, to, d', walks', parent')
            else
              && Going(adj, from, to, d', walks', parent', seen + {e.to}, [u] + (q + [e.to]))
              && forall j :: 0 <= j < |q + [e.to]| ==> Hangs(Plain(adj), walks', u, k + 1, (q + [e.to])[j])
  {
    hide Searching, Labelled, Hangs, Least, IsDistance, Plain;
    var g, e := EdgesOf(Plain(adj)), EdgesAt(adj, u)[k];
    PlainAt(adj, u, k);
    assert FirstLink(EdgesAt(adj, u), e.to, e);
    HeadWalk(Plain(adj), g, from, d, walks, [u] + q, u);
    LabelledGrows(adj, from, d, walks, parent, u, e);
    SearchDiscovers(Plain(adj), g, from, d, walks, u, k, q, e.to);
    var d', walks' := d[e.to := d[u] + 1], walks[e.to := walks[u] + [e.to]];
    if e.to == to {
      DiscoveryIsDistance(Plain(adj), g, from, d', walks', u, q, to);
      HeadWalk(Plain(adj), g, from, d', walks', [u] + (q + [e.to]), u);
    }
  }

  lemma HeadWalk(adj: Adj, g: set<(int, int)>, s: int, d: map<int, nat>, walks: map<int, seq<int>>, pending: seq<int>,
                 u: int)
    requires Searching(adj, g, s, d, walks, pending) && u in d
    ensures u in walks && |walks[u]| > 0 && walks[u][|walks[u]| - 1] == u
    ensures Witnessed(g, s, d, walks) && Tree(d, s, walks)
  {
  }

  lemma StepMovesOn(adj: EdgeMap, from: int, to: int, d: map<int, nat>, walks: map<int, seq<int>>,
                    parent: map<int, Parent>, seen: set<int>, u: int, q: seq<int>)
    requires Going(adj, from, to, d, walks, parent, seen, [u] + q) && u in d && u in walks
    requires forall j :: 0 <= j < |EdgesAt(adj, u)| ==> EdgesAt(adj, u)[j].to in seen
    requires forall j :: 0 <= j < |q| ==> Hangs(Plain(adj), walks, u, |Nbrs(Plain(adj), u)|, q[j])
    ensures Going(adj, from, to, d, walks, parent, seen, q)
    ensures HangingQueue(Plain(adj), walks, q)
  {
    hide Searching, Labelled, Hangs, HangingQueue;
    forall v | (u, v) in EdgesOf(Plain(adj))
      ensures v in d
    {
      var ts := Targets(EdgesAt(adj, u));
      var j :| 0 <= j < |ts| && ts[j] == v;
      assert EdgesAt(adj, u)[j].to in seen;
    }
    SearchMovesOn(Plain(adj), EdgesOf(Plain(adj)), from, d, walks, u, q);
  }

  lemma GoingHead(adj: EdgeMap, from: int, to: int, d: map<int, nat>, walks: map<int, seq<int>>,
                  parent: map<int, Parent>, seen: set<int>, u: int, q: seq<int>)
    requires Going(adj, from, to, d, walks, parent, seen, [u] + q)
    ensures u in d && u in walks && u in seen && forall x :: x in seen <==> x in d
  {
    assert ([u] + q)[0] == u;
  }

  lemma GoingStarts(adj: EdgeMap, from: int, to: int)
    requires from != to
    ensures Going(adj, from, to, map[from := 0], map[from := [from]], map[], {from}, [from])
  {
    hide Searching;
    SearchStarts(Plain(adj), EdgesOf(Plain(adj)), from);
  }

  lemma GoingExhausted(adj: EdgeMap, from: int, to: int, d: map<int, nat>, walks: map<int, seq<int>>,
                       parent: map<int, Parent>, seen: set<int>)
    requires Going(adj, from, to, d, walks, parent, seen, [])
    ensures !Reaches(EdgesOf(Plain(adj)), from, to)
  {
    ExhaustedIsDistanceMap(EdgesOf(Plain(adj)), from, d, walks);
  }

  lemma RoomAt(adj: EdgeMap, d: map<int, nat>, room: nat, u: int, k: nat, n: nat)
    requires Room(Plain(adj), d, room) && k < |EdgesAt(adj, u)| && EdgesAt(adj, u)[k].to !in d
    ensures room > 0 && Room(Plain(adj), d[EdgesAt(adj, u)[k].to := n], room - 1)
  {
    hide Room, Plain;
    PlainAt(adj, u, k);
    RoomShrinks(Plain(adj), d, room, u, k, n);
  }

  /** The loop over the links of the head of the queue. */
  method Expand(adj: EdgeMap, from: int, to: int, u: int, q0: seq<int>, seen0: set<int>, parent0: map<int, Parent>,
                ghost d0: map<int, nat>, ghost walks0: map<int, seq<int>>, ghost room0: nat)
    returns (found: bool, q: seq<int>, seen: set<int>, parent: map<int, Parent>,
             ghost d: map<int, nat>, ghost walks: map<int, seq<int>>, ghost room: nat)
    requires Going(adj, from, to, d0, walks0, parent0, seen0, [u] + q0) && u in walks0
    requires forall j :: 0 <= j < |q0| ==> Hangs(Plain(adj), walks0, u, 0, q0[j])
    requires Room(Plain(adj), d0, room0)
    ensures found ==> Arrived(adj, from, to, d, walks, parent)
    ensures !found ==> Going(adj, from, to, d, walks, parent, seen, q)
    ensures !found ==> HangingQueue(Plain(adj), walks, q)
    ensures Room(Plain(adj), d, room) && room <= room0 && (room == room0 ==> q == q0)
  {
    hide Going, Hangs, Arrived, Room, HangingQueue, Plain, Targets;
    found, q, seen, parent, d, walks, room := false, q0, seen0, parent0, d0, walks0, room0;
    GoingHead(adj, from, to, d, walks, parent, seen, u, q);
    PlainNbrs(adj, u);
    var es := EdgesAt(adj, u);
    TargetsLength(es);
    for i := 0 to |es|
      invariant u in d && u in walks && forall x :: x in seen <==> x in d
      invariant Going(adj, from, to, d, walks, parent, seen, [u] + q)
      invariant forall j :: 0 <= j < i ==> es[j].to in seen
      invariant forall j :: 0 <= j < |q| ==> Hangs(Plain(adj), walks, u, i, q[j])
      invariant Room(Plain(adj), d, room) && room <= room0 && (room == room0 ==> q == q0)
    {
      var e := es[i];
      if e.to in seen {
        HangsOn(Plain(adj), walks, u, i, q);
        continue;
      }
      StepDiscovers(adj, from, to, d, walks, parent, seen, u, i, q);
      RoomAt(adj, d, room, u, i, d[u] + 1);
      room := room - 1;
      seen := seen + {e.to};
      parent := parent[e.to := Parent(u, e)];
      d, walks := d[e.to := d[u] + 1], walks[e.to := walks[u] + [e.to]];
      if e.to == to {
        found, q := true, [];
        return;
      }
      q := q + [e.to];
    }
    StepMovesOn(adj, from, to, d, walks, parent, seen, u, q);
  }

  lemma TargetsLength(es: seq<Edge>)
    ensures |Targets(es)| == |es|
  {
  }

  // ----- following the parents back

  /** The hops from the end: each carries the port its parent is left by. */
  ghost predicate Backwards(adj: EdgeMap, w: seq<int>, rev: seq<Hop>) {
    && |rev| <= |w|
    && (forall i :: 0 <= i < |rev| ==> rev[i].device == w[|w| - 1 - i])
    && (forall i :: 0 <= i < |rev| && i < |w| - 1 ==> LeavesBy(adj, w[|w| - 2 - i], w[|w| - 1 - i], rev[i].via))
  }

  lemma BackwardsGrows(adj: EdgeMap, w: seq<int>, rev: seq<Hop>, e: Edge)
    requires Backwards(adj, w, rev) && |rev| < |w| - 1
    requires FirstLink(EdgesAt(adj, w[|w| - 2 - |rev|]), w[|w| - 1 - |rev|], e)
    ensures Backwards(adj, w, rev + [Hop(w[|w| - 1 - |rev|], PortOf(e))])
  {
    assert w[|w| - 2 - |rev|] in adj;
    hide FirstLink;
    assert Names(e, PortOf(e));
    assert LeavesBy(adj, w[|w| - 2 - |rev|], w[|w| - 1 - |rev|], PortOf(e));
  }

  method CollectHops(adj: EdgeMap, from: int, to: int, parent: map<int, Parent>, ghost d: map<int, nat>,
                     ghost walks: map<int, seq<int>>)
    returns (rev: seq<Hop>)
    requires Arrived(adj, from, to, d, walks, parent)
    ensures to in walks && |rev| == |walks[to]| && Backwards(adj, walks[to], rev)
  {
    hide FirstLink, LeavesBy, PortOf, IsDistance, Least, IsWalk, Backwards;
    ghost var w := walks[to];
    ghost var k := |w| - 1;
    rev := [];
    var cur := to;
    assert w[..k + 1] == w;
    BackwardsStarts(adj, w);
    EndsAt(EdgesOf(Plain(adj)), from, d, walks, to);
    while cur != from
      invariant 0 <= k < |w| && cur in d && cur == w[k] && walks[cur] == w[..k + 1] && |rev| == |w| - 1 - k
      invariant Backwards(adj, w, rev)
      decreases k
    {
      var p := parent[cur];
      BackwardsGrows(adj, w, rev, p.via);
      rev := rev + [Hop(cur, PortOf(p.via))];
      cur := p.id;
      k := k - 1;
      assert walks[cur] == w[..k + 2][..k + 1] == w[..k + 1];
    }
    EndsAt(EdgesOf(Plain(adj)), from, d, walks, from);
    assert k == 0;
    BackwardsEnds(adj, w, rev, from);
    rev := rev + [Hop(from, None)];
  }

  lemma BackwardsStarts(adj: EdgeMap, w: seq<int>)
    ensures Backwards(adj, w, [])
  {
  }

  lemma BackwardsEnds(adj: EdgeMap, w: seq<int>, rev: seq<Hop>, from: int)
    requires Backwards(adj, w, rev) && |rev| == |w| - 1 && w[0] == from
    ensures Backwards(adj, w, rev + [Hop(from, None)])
  {
    hide LeavesBy;
  }

  lemma EndsAt(g: set<(int, int)>, s: int, d: map<int, nat>, walks: map<int, seq<int>>, x: int)
    requires Witnessed(g, s, d, walks) && x in d
    ensures x in walks && |walks[x]| == d[x] + 1 && walks[x][|walks[x]| - 1] == x && walks[x][0] == s
    ensures x == s ==> |walks[x]| == 1
  {
  }

  ghost predicate ShiftedAt(fwd: seq<Hop>, out: seq<Hop>, i: int)
    requires 0 <= i < |fwd| && i < |out|
  {
    out[i] == Hop(fwd[i].device, if i + 1 < |fwd| then fwd[i + 1].via else None)
  }

  /** Moves every port from the device it leads to onto the device it leaves. */
  method ShiftPorts(rev: seq<Hop>) returns (out: seq<Hop>)
    ensures |out| == |rev|
    ensures forall i :: 0 <= i < |rev| ==> ShiftedAt(rev, out, i)
  {
    out := [];
    for i := 0 to |rev|
      invariant |out| == i
      invariant forall j :: 0 <= j < i ==> ShiftedAt(rev, out, j)
    {
      var hop := Hop(rev[i].device, None);
      if i + 1 < |rev| && rev[i + 1].via.Some? {
        hop := hop.(via := rev[i + 1].via);
      }
      ghost var before := out;
      out := out + [hop];
      forall j | 0 <= j <= i ensures ShiftedAt(rev, out, j) {
        if j < i { assert ShiftedAt(rev, before, j); }
      }
    }
  }

  lemma ShiftedIsRight(adj: EdgeMap, w: seq<int>, rev: seq<Hop>, fwd: seq<Hop>, out: seq<Hop>)
    requires |rev| == |w| == |fwd| == |out| && Backwards(adj, w, rev)
    requires forall i :: 0 <= i < |rev| ==> fwd[i] == rev[|rev| - 1 - i]
    requires forall i :: 0 <= i < |fwd| ==> ShiftedAt(fwd, out, i)
    ensures Devices(out) == w && PortsRight(adj, out)
  {
    hide LeavesBy;
    forall i | 0 <= i < |w| ensures out[i].device == w[i] {
      assert ShiftedAt(fwd, out, i) && fwd[i] == rev[|w| - 1 - i];
      assert rev[|w| - 1 - i].device == w[|w| - 1 - (|w| - 1 - i)];
    }
    if |w| > 0 { assert ShiftedAt(fwd, out, |w| - 1); }
    forall i | 0 <= i < |w| - 1 ensures PortRight(adj, out, i) {
      var j := |w| - 2 - i;
      assert ShiftedAt(fwd, out, i) && fwd[i + 1] == rev[j];
      assert LeavesBy(adj, w[|w| - 2 - j], w[|w| - 1 - j], rev[j].via);
    }
  }

  /** Turns the collected hops around and puts the ports where they belong. */
  method TurnAround(adj: EdgeMap, rev: seq<Hop>, ghost w: seq<int>) returns (hops: seq<Hop>)
    requires |rev| == |w| && Backwards(adj, w, rev)
    ensures Devices(hops) == w && PortsRight(adj, hops)
  {
    hide Backwards, PortsRight, Devices;
    var fwd := ReverseSlice(rev);
    hops := ShiftPorts(fwd);
    ShiftedIsRight(adj, w, rev, fwd, hops);
  }

  /** A simple shortest path, the first in link order, with the port every device is left by. */
  ghost predicate IsL2Path(adj: EdgeMap, from: int, to: int, hops: seq<Hop>) {
    var g, path := EdgesOf(Plain(adj)), Devices(hops);
    && IsWalk(g, path, from, to) && Distinct(path) && IsDistance(g, from, to, |path| - 1)
    && Least(Plain(adj), g, path, from, to) && PortsRight(adj, hops)
  }

  lemma ArrivedIsPath(adj: EdgeMap, from: int, to: int, d: map<int, nat>, walks: map<int, seq<int>>,
                      parent: map<int, Parent>)
    requires Arrived(adj, from, to, d, walks, parent)
    ensures var g := EdgesOf(Plain(adj));
            && to in walks && IsWalk(g, walks[to], from, to) && Distinct(walks[to])
            && IsDistance(g, from, to, |walks[to]| - 1)
            && Least(Plain(adj), g, walks[to], from, to)
  {
    hide IsDistance, Least, FirstLink;
    TreeIsSimple(EdgesOf(Plain(adj)), d, from, walks, to);
  }

  /** The search loop. */
  method FindDevice(adj: EdgeMap, from: int, to: int)
    returns (found: bool, parent: map<int, Parent>, ghost d: map<int, nat>, ghost walks: map<int, seq<int>>)
    requires from != to
    ensures found ==> Arrived(adj, from, to, d, walks, parent)
    ensures !found ==> !Reaches(EdgesOf(Plain(adj)), from, to)
  {
    hide Going, Arrived, Room, HangingQueue, Plain, Hangs, Reaches, EdgesOf;
    parent := map[];
    var q := [from];
    var seen := {from};
    found := false;
    d, walks := map[from := 0], map[from := [from]];
    ghost var room := RoomExists(Plain(adj), d);
    GoingStarts(adj, from, to);
    HangingOne(Plain(adj), walks, from);
    while |q| > 0 && !found
      invariant found ==> Arrived(adj, from, to, d, walks, parent)
      invariant !found ==> Going(adj, from, to, d, walks, parent, seen, q) && HangingQueue(Plain(adj), walks, q)
      invariant Room(Plain(adj), d, room)
      decreases room, |q|
    {
      var u, rest := q[0], q[1..];
      assert q == [u] + rest;
      GoingHead(adj, from, to, d, walks, parent, seen, u, rest);
      HangingRest(Plain(adj), walks, q, u, rest);
      found, q, seen, parent, d, walks, room := Expand(adj, from, to, u, rest, seen, parent, d, walks, room);
    }
    if !found {
      GoingExhausted(adj, from, to, d, walks, parent, seen);
    }
  }

  method BfsDevicePath(adj: EdgeMap, from: int, to: int) returns (hops: seq<Hop>, ok: bool)
    ensures ok <==> Reaches(EdgesOf(Plain(adj)), from, to)
    ensures ok ==> IsL2Path(adj, from, to, hops)
    ensures !ok ==> hops == []
  {
    if from == to {
      StaysPut(adj, from);
      return [Hop(from, None)], true;
    }
    hide Arrived, Plain, IsL2Path, Backwards, PortsRight, IsDistance, Least, IsWalk, Distinct, Reaches, Devices,
      EdgesOf;
    var found, parent, d, walks := FindDevice(adj, from, to);
    if !found {
      return [], false;
    }
    var rev := CollectHops(adj, from, to, parent, d, walks);
    hops := TurnAround(adj, rev, walks[to]);
    ArrivedIsPath(adj, from, to, d, walks, parent);
    Conclude(adj, from, to, walks[to], hops);
    ok := true;
  }

  lemma HangingOne(adj: Adj, walks: map<int, seq<int>>, u: int)
    ensures HangingQueue(adj, walks, [u])
  {
  }

  lemma HangingRest(adj: Adj, walks: map<int, seq<int>>, q: seq<int>, u: int, rest: seq<int>)
    requires HangingQueue(adj, walks, q) && q == [u] + rest && u in walks
    ensures forall j :: 0 <= j < |rest| ==> Hangs(adj, walks, u, 0, rest[j])
  {
    hide Hangs;
    assert q[0] == u && forall j :: 0 <= j < |rest| ==> rest[j] == q[j + 1];
  }

  lemma StaysPut(adj: EdgeMap, from: int)
    ensures IsL2Path(adj, from, from, [Hop(from, None)]) && Reaches(EdgesOf(Plain(adj)), from, from)
  {
    var g := EdgesOf(Plain(adj));
    assert Devices([Hop(from, None)]) == [from];
    assert IsWalk(g, [from], from, from);
    forall w | IsWalk(g, w, from, from) && |w| == 1 ensures w == [from] {
    }
  }

  lemma Conclude(adj: EdgeMap, from: int, to: int, w: seq<int>, hops: seq<Hop>)
    requires Devices(hops) == w && PortsRight(adj, hops)
    requires var g := EdgesOf(Plain(adj));
             && IsWalk(g, w, from, to) && Distinct(w) && IsDistance(g, from, to, |w| - 1)
             && Least(Plain(adj), g, w, from, to)
    ensures IsL2Path(adj, from, to, hops) && Reaches(EdgesOf(Plain(adj)), from, to)
  {
    hide IsDistance, Least, PortsRight;
  }

  /** The path through the labelled links is the path `ShortestPath` finds without labels. */
  lemma SameAsShortestPath(adj: EdgeMap, from: int, to: int, hops: seq<Hop>, path: seq<int>)
    requires IsL2Path(adj, from, to, hops) && IsLeastShortest(Plain(adj), from, to, 0, path)
    ensures Devices(hops) == path
  {
    hide Least, PortsRight;
    var g := EdgesOf(Plain(adj));
    assert Avoiding(Plain(adj), 0) == g;
    DistanceUnique(g, from, to, |Devices(hops)| - 1, |path| - 1);
    LeastUnique(Plain(adj), g, Devices(hops), path, from, to);
  }
}
