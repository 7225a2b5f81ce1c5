/** The two depth-limited searches: the walk away from the root behind a
    neighbour, and the reachability report. */
module Downhill {
  import opened Graph
  import opened Search
  import opened Layers

  datatype Item = Item(id: int, depth: nat)

  /** `v` is known to be no further from the root than `u`. */
  ghost predicate Uphill(dist: Option<map<int, nat>>, u: int, v: int) {
    dist.Some? && u in dist.value && v in dist.value && dist.value[v] <= dist.value[u]
  }

  /** The edges along which the walk descends; it never enters `exclude`. */
  ghost function DownEdges(adj: Adj, exclude: int, dist: Option<map<int, nat>>): set<(int, int)> {
    set u, v | u in adj && v in adj[u] && v != exclude && !Uphill(dist, u, v) :: (u, v)
  }

  /** The queue holds the discovered vertices that have not left it, with their depths. */
  ghost predicate Mirrors(q: seq<Item>, order: seq<int>, k: nat, d: map<int, nat>) {
    && k <= |order| && |q| == |order| - k
    && forall i :: 0 <= i < |q| ==> q[i].id == order[k + i] && q[i].id in d && q[i].depth == d[q[i].id]
  }

  ghost predicate Listed(order: seq<int>, k: nat, x: int) {
    exists j :: 0 <= j < k && j < |order| && order[j] == x
  }

  /** `out` lists, once each, the wanted vertices among the first `k` with their depths. */
  ghost predicate Collected(out: seq<Item>, order: seq<int>, k: nat, d: map<int, nat>, want: int -> bool) {
    && k <= |order|
    && (forall i :: 0 <= i < |out| ==>
          Listed(order, k, out[i].id) && want(out[i].id) && out[i].id in d && out[i].depth == d[out[i].id])
    && (forall x :: Listed(order, k, x) && want(x) && x in d ==> Item(x, d[x]) in out)
    && (forall i, j :: 0 <= i < j < |out| ==> out[i].id != out[j].id)
  }

  lemma MirrorsHead(q: seq<Item>, order: seq<int>, k: nat, d: map<int, nat>)
    requires Mirrors(q, order, k, d) && |q| > 0
    ensures k < |order| && order[k] in d && q[0] == Item(order[k], d[order[k]])
    ensures Mirrors(q[1..], order, k + 1, d)
  {
    assert q[0].id == order[k + 0];
  }

  lemma MirrorsEmpty(order: seq<int>, k: nat, d: map<int, nat>)
    requires Mirrors([], order, k, d)
    ensures k == |order|
  {
  }

  lemma MirrorsGrows(q: seq<Item>, order: seq<int>, k: nat, d: map<int, nat>, v: int, n: nat)
    requires Mirrors(q, order, k, d) && v !in d
    ensures Mirrors(q + [Item(v, n)], order + [v], k, d[v := n])
  {
  }

  lemma CollectedGrows(out: seq<Item>, order: seq<int>, k: nat, d: map<int, nat>, want: int -> bool, v: int, n: nat)
    requires Collected(out, order, k, d, want) && Enumerates(order, d) && v !in d
    ensures Collected(out, order + [v], k, d[v := n], want)
  {
    var order' := order + [v];
    forall x
      ensures Listed(order', k, x) <==> Listed(order, k, x)
      ensures Listed(order, k, x) ==> x != v
    {
      if j :| 0 <= j < k && order[j] == x {
        assert order'[j] == x && x in order;
      }
    }
  }

  lemma ListedNext(order: seq<int>, k: nat, d: map<int, nat>, x: int)
    requires Enumerates(order, d) && k < |order|
    ensures Listed(order, k + 1, x) <==> Listed(order, k, x) || x == order[k]
    ensures !Listed(order, k, order[k])
  {
  }

  lemma CollectedNext(out: seq<Item>, order: seq<int>, k: nat, d: map<int, nat>, want: int -> bool)
    requires Collected(out, order, k, d, want) && Enumerates(order, d) && k < |order| && order[k] in d
    ensures var u := order[k];
            Collected(if want(u) then out + [Item(u, d[u])] else out, order, k + 1, d, want)
  {
    hide Listed, Enumerates;
    var u := order[k];
    var o := if want(u) then out + [Item(u, d[u])] else out;
    forall x
      ensures Listed(order, k + 1, x) <==> Listed(order, k, x) || x == u
    {
      ListedNext(order, k, d, x);
    }
    ListedNext(order, k, d, u);
    forall x | Listed(order, k + 1, x) && want(x) && x in d
      ensures Item(x, d[x]) in o
    {
      if x == u {
        assert o[|out|] == Item(x, d[x]);
      } else {
        assert Item(x, d[x]) in out;
      }
    }
  }

  lemma CollectedAll(out: seq<Item>, order: seq<int>, d: map<int, nat>, want: int -> bool)
    requires Collected(out, order, |order|, d, want) && Enumerates(order, d)
    ensures forall x, n: nat :: Item(x, n) in out <==> x in d && want(x) && d[x] == n
  {
    forall x | x in d
      ensures Listed(order, |order|, x)
    {
      assert x in order;
    }
  }

  lemma CollectedHead(out: seq<Item>, order: seq<int>, k: nat, d: map<int, nat>, walks: map<int, seq<int>>,
                      want: int -> bool,
                      g: set<(int, int)>, s: int, limit: nat)
    requires Layered(g, s, limit, d, walks, order, k) && Collected(out, order, k, d, want) && k < |order|
    requires order[k] in d
    ensures var u := order[k];
            Collected(if want(u) then out + [Item(u, d[u])] else out, order, k + 1, d, want)
  {
    CollectedNext(out, order, k, d, want);
  }

  lemma ExpandingEnumerates(g: set<(int, int)>, s: int, limit: nat, d: map<int, nat>, walks: map<int, seq<int>>,
                            order: seq<int>, k: nat, u: int)
    requires Expanding(g, s, limit, d, walks, order, k, u)
    ensures Enumerates(order, d)
  {
  }

  /** The reported entries: the wanted vertices within the limit, with their distances. */
  ghost predicate IsReport(out: seq<Item>, g: set<(int, int)>, s: int, limit: nat, want: int -> bool) {
    && (forall x, n: nat :: Item(x, n) in out <==> want(x) && n <= limit && IsDistance(g, s, x, n))
    && (forall i, j :: 0 <= i < j < |out| ==> out[i].id != out[j].id)
  }

  lemma ReportEnds(out: seq<Item>, g: set<(int, int)>, s: int, limit: nat, d: map<int, nat>, walks: map<int, seq<int>>,
                   order: seq<int>, want: int -> bool)
    requires Layered(g, s, limit, d, walks, order, |order|) && Collected(out, order, |order|, d, want)
    ensures IsReport(out, g, s, limit, want)
  {
    LayerEnds(g, s, limit, d, walks, order);
    CollectedAll(out, order, d, want);
  }

  lemma DownNeighboursKnown(adj: Adj, exclude: int, dist: Option<map<int, nat>>, u: int, d: map<int, nat>,
                            seen: set<int>)
    requires forall j :: 0 <= j < |Nbrs(adj, u)| ==> Nbrs(adj, u)[j] in seen || Uphill(dist, u, Nbrs(adj, u)[j])
    requires forall x :: x in seen <==> x in d || x == exclude
    ensures forall v :: (u, v) in DownEdges(adj, exclude, dist) ==> v in d
  {
    var nbrs := Nbrs(adj, u);
    forall v | (u, v) in DownEdges(adj, exclude, dist)
      ensures v in d
    {
      var j :| 0 <= j < |nbrs| && nbrs[j] == v;
      assert nbrs[j] in seen;
    }
  }

  /** All that an expansion of `u` keeps. */
  ghost predicate Reporting(g: set<(int, int)>, s: int, limit: nat, want: int -> bool, extra: set<int>,
                            d: map<int, nat>, walks: map<int, seq<int>>, order: seq<int>, k: nat, u: int,
                            q: seq<Item>, out: seq<Item>, seen: set<int>) {
    && Expanding(g, s, limit, d, walks, order, k, u)
    && Mirrors(q, order, k + 1, d) && Collected(out, order, k + 1, d, want)
    && forall x :: x in seen <==> x in d || x in extra
  }

  lemma ReportingFacts(g: set<(int, int)>, s: int, limit: nat, want: int -> bool, extra: set<int>,
                       d: map<int, nat>, walks: map<int, seq<int>>, order: seq<int>, k: nat, u: int,
                       q: seq<Item>, out: seq<Item>, seen: set<int>)
    requires Reporting(g, s, limit, want, extra, d, walks, order, k, u, q, out, seen)
    ensures u in d && u in walks && forall x :: x in seen <==> x in d || x in extra
  {
  }

  lemma ReportingDiscovers(g: set<(int, int)>, s: int, limit: nat, want: int -> bool, extra: set<int>,
                           d: map<int, nat>, walks: map<int, seq<int>>, order: seq<int>, k: nat, u: int,
                           q: seq<Item>, out: seq<Item>, seen: set<int>, v: int)
    requires Reporting(g, s, limit, want, extra, d, walks, order, k, u, q, out, seen)
    requires u in d && u in walks && v !in seen && (u, v) in g
    ensures Reporting(g, s, limit, want, extra, d[v := d[u] + 1], walks[v := walks[u] + [v]], order + [v], k, u,
                      q + [Item(v, d[u] + 1)], out, seen + {v})
  {
    hide Expanding, Mirrors, Collected;
    ExpandingEnumerates(g, s, limit, d, walks, order, k, u);
    CollectedGrows(out, order, k + 1, d, want, v, d[u] + 1);
    MirrorsGrows(q, order, k + 1, d, v, d[u] + 1);
    LayerDiscovers(g, s, limit, d, walks, order, k, u, v);
  }

  /** The loop over the neighbours of a device above the depth limit. */
  method Descend(adj: Adj, exclude: int, dist: Option<map<int, nat>>, cur: Item, q0: seq<Item>, seen0: set<int>,
                 ghost s: int, ghost limit: nat, ghost want: int -> bool, ghost out: seq<Item>,
                 ghost d0: map<int, nat>, ghost walks0: map<int, seq<int>>,
                 ghost order0: seq<int>, ghost k: nat, ghost room0: nat)
    returns (q: seq<Item>, seen: set<int>, ghost d: map<int, nat>, ghost walks: map<int, seq<int>>,
             ghost order: seq<int>, ghost room: nat)
    requires Reporting(DownEdges(adj, exclude, dist), s, limit, want, {exclude}, d0, walks0, order0, k, cur.id, q0, out,
                       seen0)
    requires cur.id in d0 && cur.depth == d0[cur.id] && Room(adj, d0, room0)
    ensures Layered(DownEdges(adj, exclude, dist), s, limit, d, walks, order, k + 1)
    ensures Mirrors(q, order, k + 1, d) && Collected(out, order, k + 1, d, want)
    ensures forall x :: x in seen <==> x in d || x == exclude
    ensures Room(adj, d, room) && room <= room0 && (room == room0 ==> |q| == |q0|)
  {
    hide Reporting, Layered, Mirrors, Collected, Room;
    ghost var g := DownEdges(adj, exclude, dist);
    q, seen, d, walks, order, room := q0, seen0, d0, walks0, order0, room0;
    var nbrs := Nbrs(adj, cur.id);
    for i := 0 to |nbrs|
      invariant Reporting(g, s, limit, want, {exclude}, d, walks, order, k, cur.id, q, out, seen)
      invariant cur.id in d && cur.depth == d[cur.id]
      invariant forall j :: 0 <= j < i ==> nbrs[j] in seen || Uphill(dist, cur.id, nbrs[j])
      invariant Room(adj, d, room) && room <= room0 && (room == room0 ==> |q| == |q0|)
    {
      var nxt := nbrs[i];
      if nxt in seen {
        continue;
      }
      if dist.Some? && cur.id in dist.value && nxt in dist.value && dist.value[nxt] <= dist.value[cur.id] {
        continue;
      }
      ReportingFacts(g, s, limit, want, {exclude}, d, walks, order, k, cur.id, q, out, seen);
      ReportingDiscovers(g, s, limit, want, {exclude}, d, walks, order, k, cur.id, q, out, seen, nxt);
      RoomShrinks(adj, d, room, cur.id, i, cur.depth + 1);
      room := room - 1;
      d, walks, order := d[nxt := d[cur.id] + 1], walks[nxt := walks[cur.id] + [nxt]], order + [nxt];
      seen := seen + {nxt};
      q := q + [Item(nxt, cur.depth + 1)];
    }
    ReportingFacts(g, s, limit, want, {exclude}, d, walks, order, k, cur.id, q, out, seen);
    DownNeighboursKnown(adj, exclude, dist, cur.id, d, seen);
    ReportingCloses(g, s, limit, want, {exclude}, d, walks, order, k, cur.id, q, out, seen);
  }

  lemma ReportingCloses(g: set<(int, int)>, s: int, limit: nat, want: int -> bool, extra: set<int>,
                        d: map<int, nat>, walks: map<int, seq<int>>, order: seq<int>, k: nat, u: int,
                        q: seq<Item>, out: seq<Item>, seen: set<int>)
    requires Reporting(g, s, limit, want, extra, d, walks, order, k, u, q, out, seen)
    requires forall v :: (u, v) in g ==> v in d
    ensures Layered(g, s, limit, d, walks, order, k + 1)
    ensures Mirrors(q, order, k + 1, d) && Collected(out, order, k + 1, d, want)
  {
    hide Expanding, Mirrors, Collected;
    LayerCloses(g, s, limit, d, walks, order, k, u);
  }

  lemma ReportStarts(g: set<(int, int)>, s: int, limit: nat, want: int -> bool)
    ensures Layered(g, s, limit, map[s := 0], map[s := [s]], [s], 0)
    ensures Mirrors([Item(s, 0)], [s], 0, map[s := 0]) && Collected([], [s], 0, map[s := 0], want)
  {
    LayerStarts(g, s, limit);
  }

  /** Taking the head off the queue: reporting it, and either skipping or opening it. */
  lemma ReportingHead(g: set<(int, int)>, s: int, limit: nat, want: int -> bool, extra: set<int>,
                      d: map<int, nat>, walks: map<int, seq<int>>, order: seq<int>, k: nat,
                      q: seq<Item>, out: seq<Item>, seen: set<int>)
    requires Layered(g, s, limit, d, walks, order, k) && Mirrors(q, order, k, d) && Collected(out, order, k, d, want)
    requires |q| > 0 && forall x :: x in seen <==> x in d || x in extra
    ensures q[0].id in d && q[0].depth == d[q[0].id]
    ensures var out' := if want(q[0].id) then out + [q[0]] else out;
            if q[0].depth >= limit then
              && Layered(g, s, limit, d, walks, order, k + 1) && Mirrors(q[1..], order, k + 1, d)
              && Collected(out', order, k + 1, d, want)
            else
              Reporting(g, s, limit, want, extra, d, walks, order, k, q[0].id, q[1..], out', seen)
  {
    MirrorsHead(q, order, k, d);
    hide Mirrors, Collected, Expanding;
    CollectedHead(out, order, k, d, walks, want, g, s, limit);
    if q[0].depth >= limit {
      LayerSkips(g, s, limit, d, walks, order, k);
    } else {
      LayerOpens(g, s, limit, d, walks, order, k);
    }
  }

  /** The devices to report: those with the VLAN, other than the start. */
  ghost function Wanted(start: int, hasVLAN: int -> bool): int -> bool {
    x => x != start && hasVLAN(x)
  }

  method WalkDownWithVLAN(adj: Adj, start: int, exclude: int, maxDepth: int, dist: Option<map<int, nat>>,
                          hasVLAN: int -> bool)
    returns (out: seq<Item>)
    ensures start <= 0 || maxDepth < 1 ==> out == []
    ensures start > 0 && maxDepth >= 1 ==>
              IsReport(out, DownEdges(adj, exclude, dist), start, maxDepth, Wanted(start, hasVLAN))
  {
    out := [];
    if start <= 0 || maxDepth < 1 {
      return;
    }
    hide Layered, Reporting, Mirrors, Collected, Room, IsReport, DownEdges;
    ghost var g := DownEdges(adj, exclude, dist);
    ghost var want := Wanted(start, hasVLAN);
    var seen := {start, exclude};
    var q := [Item(start, 0)];
    ghost var d, walks: map<int, seq<int>>, order, k: nat := map[start := 0], map[start := [start]], [start], 0;
    ghost var room := RoomExists(adj, d);
    ReportStarts(g, start, maxDepth, want);
    while |q| > 0
      invariant Layered(g, start, maxDepth, d, walks, order, k)
      invariant Mirrors(q, order, k, d) && Collected(out, order, k, d, want)
      invariant (forall x :: x in seen <==> x in d || x == exclude) && Room(adj, d, room)
      decreases room, |q|
    {
      ReportingHead(g, start, maxDepth, want, {exclude}, d, walks, order, k, q, out, seen);
      var cur := q[0];
      q := q[1..];
      if cur.id != start && hasVLAN(cur.id) {
        out := out + [Item(cur.id, cur.depth)];
      }
      if cur.depth >= maxDepth {
        k := k + 1;
        continue;
      }
      q, seen, d, walks, order, room :=
        Descend(adj, exclude, dist, cur, q, seen, start, maxDepth, want, out, d, walks, order, k, room);
      k := k + 1;
    }
    MirrorsEmpty(order, k, d);
    ReportEnds(out, g, start, maxDepth, d, walks, order, want);
  }

  /** Normalisation of the depth asked for by the caller. */
  function ReportDepth(maxDepth: int): (limit: nat)
    ensures 0 < limit <= 10000
    ensures 0 < maxDepth <= 10000 ==> limit == maxDepth
    ensures maxDepth <= 0 ==> limit == 32
    ensures maxDepth > 10000 ==> limit == 10000
  {
    if maxDepth <= 0 then 32 else if maxDepth > 10000 then 10000 else maxDepth
  }

  /** The queue loop of the reachability report. */
  method ReachabilityNodes(adj: Adj, fromID: int, maxDepth: int) returns (nodes: seq<Item>)
    ensures IsReport(nodes, EdgesOf(adj), fromID, ReportDepth(maxDepth), x => true)
  {
    hide Layered, Reporting, Mirrors, Collected, Room, IsReport;
    var limit := ReportDepth(maxDepth);
    ghost var g := EdgesOf(adj);
    ghost var want := (x: int) => true;
    var seen := {fromID};
    var q := [Item(fromID, 0)];
    nodes := [];
    ghost var d, walks: map<int, seq<int>>, order, k: nat := map[fromID := 0], map[fromID := [fromID]], [fromID], 0;
    ghost var room := RoomExists(adj, d);
    ReportStarts(g, fromID, limit, want);
    while |q| > 0
      invariant Layered(g, fromID, limit, d, walks, order, k)
      invariant Mirrors(q, order, k, d) && Collected(nodes, order, k, d, want)
      invariant (forall x :: x in seen <==> x in d) && Room(adj, d, room)
      decreases room, |q|
    {
      ReportingHead(g, fromID, limit, want, {}, d, walks, order, k, q, nodes, seen);
      var cur := q[0];
      q := q[1..];
      nodes := nodes + [cur];
      if cur.depth >= limit {
        k := k + 1;
        continue;
      }
      var nbrs := Nbrs(adj, cur.id);
      ghost var before, n := room, |q|;
      for i := 0 to |nbrs|
        invariant Reporting(g, fromID, limit, want, {}, d, walks, order, k, cur.id, q, nodes, seen)
        invariant cur.id in d && cur.depth == d[cur.id]
        invariant (forall x :: x in seen <==> x in d) && forall j :: 0 <= j < i ==> nbrs[j] in d
        invariant Room(adj, d, room) && room <= before && (room == before ==> |q| == n)
      {
        var nxt := nbrs[i];
        if nxt in seen {
          continue;
        }
        ReportingFacts(g, fromID, limit, want, {}, d, walks, order, k, cur.id, q, nodes, seen);
        ReportingDiscovers(g, fromID, limit, want, {}, d, walks, order, k, cur.id, q, nodes, seen, nxt);
        RoomShrinks(adj, d, room, cur.id, i, cur.depth + 1);
        room := room - 1;
        d, walks, order := d[nxt := d[cur.id] + 1], walks[nxt := walks[cur.id] + [nxt]], order + [nxt];
        seen := seen + {nxt};
        q := q + [Item(nxt, cur.depth + 1)];
      }
      AllNeighboursKnown(adj, cur.id, d);
      ReportingCloses(g, fromID, limit, want, {}, d, walks, order, k, cur.id, q, nodes, seen);
      k := k + 1;
    }
    MirrorsEmpty(order, k, d);
    ReportEnds(nodes, g, fromID, limit, d, walks, order, want);
  }
}
