/** The device graph built from neighbour tables: it has the shape that the
    searches and the VLAN analysis rely on. */
module LldpAdjacency {
  import opened Graph
  import opened DfsForest
  import opened Loops
  import opened LoopReport
  import opened LoopCount
  import opened Topology

  datatype LldpEdge = LldpEdge(local: int, remote: Option<int>, stale: bool)

  /** A fresh entry of an inventory device that names another one. */
  ghost predicate Counts(e: LldpEdge) {
    e.remote.Some? && e.remote.value > 0 && !e.stale && e.local > 0 && e.local != e.remote.value
  }

  ghost predicate Names(e: LldpEdge, u: int, v: int) {
    Counts(e) && Joins(e.local, e.remote.value, u, v)
  }

  /** Some current entry among the first `n` names the two devices. */
  ghost predicate Seen(edges: seq<LldpEdge>, n: nat, u: int, v: int) {
    exists k :: 0 <= k < n && k < |edges| && Names(edges[k], u, v)
  }

  /** An entry names `u` and `v` before any names `u` and `w`. */
  ghost predicate Sooner(edges: seq<LldpEdge>, n: nat, u: int, v: int, w: int) {
    exists k :: 0 <= k < n && k < |edges| && Names(edges[k], u, v) && !Seen(edges, k + 1, u, w)
  }

  /** Neighbours stand in the order in which entries first name them. */
  ghost predicate InEntryOrder(adj: Adj, edges: seq<LldpEdge>, n: nat) {
    forall u, i, j :: u in adj && 0 <= i < j < |adj[u]| ==> Sooner(edges, n, u, adj[u][i], adj[u][j])
  }

  lemma OrderLater(adj: Adj, edges: seq<LldpEdge>, k: nat)
    requires InEntryOrder(adj, edges, k)
    ensures InEntryOrder(adj, edges, k + 1)
  {
    hide Names, Seen;
    forall u, i, j | u in adj && 0 <= i < j < |adj[u]|
      ensures Sooner(edges, k + 1, u, adj[u][i], adj[u][j])
    {
      assert Sooner(edges, k, u, adj[u][i], adj[u][j]);
    }
  }

  /** A device named for the first time comes after all that were named before. */
  lemma OrderAppends(adj: Adj, edges: seq<LldpEdge>, k: nat, a: int, b: int)
    requires InEntryOrder(adj, edges, k + 1) && !Seen(edges, k, a, b)
    requires forall x :: x in Nbrs(adj, a) ==> Seen(edges, k, a, x)
    ensures InEntryOrder(Append(adj, a, b), edges, k + 1)
  {
    hide Names;
    var next := Append(adj, a, b);
    forall u, i, j | u in next && 0 <= i < j < |next[u]|
      ensures Sooner(edges, k + 1, u, next[u][i], next[u][j])
    {
      if u == a && j == |next[u]| - 1 {
        var x := next[u][i];
        assert x == Nbrs(adj, a)[i];
        assert Seen(edges, k, a, x);
        var m :| 0 <= m < k && m < |edges| && Names(edges[m], a, x);
        assert !Seen(edges, m + 1, a, b);
      } else {
        assert u in adj && next[u][i] == adj[u][i] && next[u][j] == adj[u][j];
      }
    }
  }

  lemma NextInOrder(adj: Adj, edges: seq<LldpEdge>, k: nat, pairs: set<(int, int)>, a: int, b: int)
    requires InEntryOrder(adj, edges, k) && AdjRight(adj, pairs) && a != b && Pair(a, b) !in pairs
    requires forall u, v :: Pair(u, v) in pairs <==> Seen(edges, k, u, v)
    ensures InEntryOrder(Append(Append(adj, a, b), b, a), edges, k + 1)
  {
    var next := Append(adj, a, b);
    NeighboursSeen(adj, pairs, a);
    NeighboursSeen(adj, pairs, b);
    assert Pair(b, a) == Pair(a, b) && Nbrs(next, b) == Nbrs(adj, b);
    hide InEntryOrder, Seen, AdjRight, Append, Pair;
    OrderLater(adj, edges, k);
    OrderAppends(adj, edges, k, a, b);
    OrderAppends(next, edges, k, b, a);
  }

  lemma NeighboursSeen(adj: Adj, pairs: set<(int, int)>, u: int)
    requires AdjRight(adj, pairs)
    ensures forall x :: x in Nbrs(adj, u) ==> Pair(u, x) in pairs
  {
    forall x | x in Nbrs(adj, u)
      ensures Pair(u, x) in pairs
    {
      assert Linked(adj, u, x);
    }
  }

  lemma AppendCommutes(adj: Adj, a: int, b: int)
    requires a != b
    ensures Append(Append(adj, a, b), b, a) == Append(Append(adj, b, a), a, b)
  {
  }

  lemma AddEither(adj: Adj, pairs: set<(int, int)>, a: int, b: int)
    requires AdjRight(adj, pairs) && a > 0 && b > 0 && a != b && Pair(a, b) !in pairs
    ensures AdjRight(Append(Append(adj, a, b), b, a), pairs + {Pair(a, b)})
  {
    hide AdjRight, Append;
    AddPair(adj, pairs, Pair(a, b).0, Pair(a, b).1);
    AppendCommutes(adj, a, b);
  }

  lemma NothingSeen(edges: seq<LldpEdge>)
    ensures AdjRight(map[], {}) && InEntryOrder(map[], edges, 0) && forall u, v :: !Seen(edges, 0, u, v)
  {
  }

  lemma SeenNext(edges: seq<LldpEdge>, k: nat)
    requires k < |edges|
    ensures forall u, v :: Seen(edges, k + 1, u, v) <==>
                             Seen(edges, k, u, v) || Names(edges[k], u, v)
  {
  }

  /** A simple graph meets what the searches and the analysis require. */
  lemma SimpleIsWellFormed(adj: Adj)
    requires Simple(adj)
    ensures PositiveIds(adj) && Symmetric(EdgesOf(adj))
  {
    EdgesSymmetric(adj);
    forall u, i | u in adj && 0 <= i < |adj[u]|
      ensures adj[u][i] > 0
    {
      NeighbourFacts(adj, u, i);
    }
  }

  method BuildLLDPDeviceAdj(edges: seq<LldpEdge>) returns (adj: Adj)
    ensures Simple(adj) && PositiveIds(adj) && Symmetric(EdgesOf(adj))
    ensures forall u, v :: Linked(adj, u, v) <==> u != v && Seen(edges, |edges|, u, v)
    ensures InEntryOrder(adj, edges, |edges|)
  {
    adj := map[];
    var seenEdge: set<(int, int)> := {};
    hide AdjRight, InEntryOrder, Seen, Append, Simple, Linked;
    NothingSeen(edges);
    for k := 0 to |edges|
      invariant AdjRight(adj, seenEdge) && InEntryOrder(adj, edges, k)
      invariant forall u, v :: Pair(u, v) in seenEdge <==> Seen(edges, k, u, v)
    {
      var e := edges[k];
      SeenNext(edges, k);
      OrderLater(adj, edges, k);
      if e.remote.None? || e.remote.value <= 0 || e.stale {
        continue;
      }
      var a, b := e.local, e.remote.value;
      if a <= 0 || b <= 0 || a == b || Pair(a, b) in seenEdge {
        continue;
      }
      AddEither(adj, seenEdge, a, b);
      NextInOrder(adj, edges, k, seenEdge, a, b);
      seenEdge := seenEdge + {Pair(a, b)};
      adj := Append(adj, a, b);
      adj := Append(adj, b, a);
    }
    AdjFacts(adj, seenEdge);
    SimpleIsWellFormed(adj);
  }
}
