/** What the searches say together: agreement of their results, downhill walks
    against true distances, and connectivity around a removed switch. */
module Topology {
  import opened Graph
  import opened Search
  import opened Bfs
  import opened Downhill

  ghost predicate PositiveIds(adj: Adj) {
    forall u :: u in adj ==> forall i :: 0 <= i < |adj[u]| ==> adj[u][i] > 0
  }

  lemma PositiveIsZeroFree(adj: Adj)
    requires PositiveIds(adj)
    ensures ZeroFree(adj)
  {
  }

  /** What `ShortestPath` promises of its result. */
  ghost predicate IsPathAnswer(adj: Adj, from: int, to: int, avoid: int, path: seq<int>) {
    && (path == [] <==> !PathExists(adj, from, to, avoid))
    && (path != [] ==> IsLeastShortest(adj, from, to, avoid, path))
  }

  lemma NothingAvoided(adj: Adj, avoid: int)
    requires avoid <= 0
    ensures Avoiding(adj, avoid) == EdgesOf(adj)
  {
  }

  /** The distance map, the path search and the reachability report describe the
      same distances. */
  lemma SearchesAgree(adj: Adj, from: int, to: int, dist: map<int, nat>, path: seq<int>, nodes: seq<Item>, limit: nat)
    requires from > 0 && to > 0
    requires IsDistanceMap(EdgesOf(adj), from, dist)
    requires IsPathAnswer(adj, from, to, 0, path)
    requires IsReport(nodes, EdgesOf(adj), from, limit, x => true)
    ensures to in dist <==> path != []
    ensures to in dist ==> dist[to] == |path| - 1
    ensures forall n: nat :: Item(to, n) in nodes <==> to in dist && n == dist[to] <= limit
  {
    NothingAvoided(adj, 0);
    if to in dist {
      DistanceUnique(EdgesOf(adj), from, to, dist[to], |path| - 1);
    }
    forall n: nat
      ensures Item(to, n) in nodes <==> to in dist && n == dist[to] <= limit
    {
      if IsDistance(EdgesOf(adj), from, to, n) {
        DistanceUnique(EdgesOf(adj), from, to, dist[to], n);
      }
    }
  }

  /** Along an edge the distance from the root grows by at most one. */
  lemma EdgeRelaxes(g: set<(int, int)>, root: int, dist: map<int, nat>, u: int, v: int)
    requires IsDistanceMap(g, root, dist) && u in dist && (u, v) in g
    ensures v in dist && dist[v] <= dist[u] + 1
  {
    var w :| IsWalk(g, w, root, u) && |w| == dist[u] + 1;
    WalkExtend(g, w, root, u, v);
    assert Reaches(g, root, v) && IsDistance(g, root, v, dist[v]);
  }

  /** Against true distances every downhill edge moves exactly one step away
      from the root. */
  lemma {:induction false} DownWalkDepth(adj: Adj, exclude: int, root: int, dist: map<int, nat>, w: seq<int>,
                                         start: int, t: int)
    requires IsDistanceMap(EdgesOf(adj), root, dist) && start in dist
    requires IsWalk(DownEdges(adj, exclude, Some(dist)), w, start, t)
    ensures t in dist && dist[t] == dist[start] + |w| - 1
    decreases |w|
  {
    var g := DownEdges(adj, exclude, Some(dist));
    if |w| > 1 {
      var n := |w| - 2;
      WalkPrefix(g, w, start, t, n);
      DownWalkDepth(adj, exclude, root, dist, w[..n + 1], start, w[n]);
      assert Step(g, w, n);
      EdgeRelaxes(EdgesOf(adj), root, dist, w[n], t);
    }
  }

  /** The depth of a reported device is the difference of the distances, so the
      root is never reported. */
  lemma ReportedDepth(adj: Adj, exclude: int, root: int, dist: map<int, nat>, start: int, id: int, depth: nat)
    requires IsDistanceMap(EdgesOf(adj), root, dist) && start in dist && id != start
    requires IsDistance(DownEdges(adj, exclude, Some(dist)), start, id, depth)
    ensures id in dist && dist[id] == dist[start] + depth && depth > 0 && id != root
  {
    var g := DownEdges(adj, exclude, Some(dist));
    var w :| IsWalk(g, w, start, id) && |w| == depth + 1;
    DownWalkDepth(adj, exclude, root, dist, w, start, id);
    assert IsWalk(EdgesOf(adj), [root], root, root);
  }

  /** A downhill walk stays clear of the excluded device. */
  lemma DownWalkAvoids(adj: Adj, exclude: int, dist: Option<map<int, nat>>, w: seq<int>, start: int, t: int)
    requires IsWalk(DownEdges(adj, exclude, dist), w, start, t) && start != exclude
    ensures IsWalk(Avoiding(adj, exclude), w, start, t) && t != exclude
  {
    var g, h := DownEdges(adj, exclude, dist), Avoiding(adj, exclude);
    forall i | 0 <= i < |w| - 1
      ensures Step(h, w, i) && w[i + 1] != exclude
    {
      assert Step(g, w, i);
      assert i > 0 ==> Step(g, w, i - 1);
    }
    if |w| > 1 {
      assert Step(g, w, |w| - 2);
    }
  }

  lemma AvoidingSymmetric(adj: Adj, y: int)
    requires Symmetric(EdgesOf(adj))
    ensures Symmetric(Avoiding(adj, y))
  {
    forall u, v | (u, v) in Avoiding(adj, y)
      ensures (v, u) in Avoiding(adj, y)
    {
      assert (u, v) in EdgesOf(adj);
      assert (v, u) in EdgesOf(adj);
    }
  }

  /** A device below a neighbour reaches the root around `y` exactly when the
      neighbour does. */
  lemma InheritedRedundancy(adj: Adj, y: int, dist: Option<map<int, nat>>, n: int, d: int, root: int)
    requires Symmetric(EdgesOf(adj)) && n != y
    requires Reaches(DownEdges(adj, y, dist), n, d)
    ensures d != y && (Reaches(Avoiding(adj, y), n, root) <==> Reaches(Avoiding(adj, y), d, root))
  {
    var g := Avoiding(adj, y);
    AvoidingSymmetric(adj, y);
    var w :| IsWalk(DownEdges(adj, y, dist), w, n, d);
    DownWalkAvoids(adj, y, dist, w, n, d);
    WalkReverse(g, w, n, d);
    if Reaches(g, n, root) {
      var p :| IsWalk(g, p, n, root);
      WalkJoin(g, Reversed(w), p, d, n, root);
    }
    if Reaches(g, d, root) {
      var p :| IsWalk(g, p, d, root);
      WalkJoin(g, w, p, n, d, root);
    }
  }

  /** Without a bypass, `y` lies on every walk to the root. */
  lemma CutDeviceOnEveryWalk(adj: Adj, d: int, root: int, y: int)
    requires d > 0 && root > 0 && y > 0 && d != y
    ensures PathExists(adj, d, root, y) <==> exists w :: IsWalk(EdgesOf(adj), w, d, root) && y !in w
  {
    if PathExists(adj, d, root, y) {
      var w :| IsWalk(Avoiding(adj, y), w, d, root);
      AvoidingWalks(adj, y, w, d, root);
    }
    if w :| IsWalk(EdgesOf(adj), w, d, root) && y !in w {
      AvoidingWalks(adj, y, w, d, root);
      assert root == w[|w| - 1];
    }
  }
}
