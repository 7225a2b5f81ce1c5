/** Depth-limited searches that report vertices in the order they leave the
    queue. */
module Layers {
  import opened Graph
  import opened Search

  ghost predicate Enumerates(order: seq<int>, d: map<int, nat>) {
    Distinct(order) && forall x :: x in order <==> x in d
  }

  /** All pending vertices lie at the limit and nothing below it is open. */
  ghost predicate AtLimit(g: set<(int, int)>, limit: nat, d: map<int, nat>, order: seq<int>, k: nat) {
    Relaxed(g, d, limit) && forall i :: k <= i < |order| && order[i] in d ==> limit <= d[order[i]]
  }

  /** `order` lists the discovered vertices; the first `k` have left the queue. */
  ghost predicate Layered(g: set<(int, int)>, s: int, limit: nat, d: map<int, nat>, walks: map<int, seq<int>>,
                          order: seq<int>, k: nat) {
    && k <= |order|
    && Witnessed(g, s, d, walks) && Enumerates(order, d)
    && (forall x :: x in d ==> d[x] <= limit)
    && (Frontier(g, d, order[k..]) || AtLimit(g, limit, d, order, k))
  }

  lemma LayerStarts(g: set<(int, int)>, s: int, limit: nat)
    ensures Layered(g, s, limit, map[s := 0], map[s := [s]], [s], 0)
  {
    Start(g, s);
    assert [s][0..] == [s];
  }

  /** A vertex at the limit leaves the queue without being expanded. */
  lemma LayerSkips(g: set<(int, int)>, s: int, limit: nat, d: map<int, nat>, walks: map<int, seq<int>>, order: seq<int>,
                   k: nat)
    requires Layered(g, s, limit, d, walks, order, k) && k < |order| && order[k] in d && limit <= d[order[k]]
    ensures Layered(g, s, limit, d, walks, order, k + 1)
  {
    var u := order[k];
    if Frontier(g, d, order[k..]) {
      assert order[k..] == [u] + order[k + 1..];
      StoppedAt(g, d, u, order[k + 1..]);
      forall i | k + 1 <= i < |order|
        ensures order[i] in d && limit <= d[order[i]]
      {
        assert order[i] == order[k..][i - k] && order[k..][0] == u;
      }
      hide Frontier, Witnessed;
      assert AtLimit(g, limit, d, order, k + 1);
    }
  }

  /** While a vertex below the limit is expanded, the search is open there. */
  ghost predicate Expanding(g: set<(int, int)>, s: int, limit: nat, d: map<int, nat>, walks: map<int, seq<int>>,
                            order: seq<int>, k: nat, u: int) {
    && k < |order| && order[k] == u && u in d && u in walks && d[u] < limit
    && Witnessed(g, s, d, walks) && Enumerates(order, d)
    && (forall x :: x in d ==> d[x] <= limit)
    && Frontier(g, d, [u] + order[k + 1..])
  }

  lemma LayerOpens(g: set<(int, int)>, s: int, limit: nat, d: map<int, nat>, walks: map<int, seq<int>>, order: seq<int>,
                   k: nat)
    requires Layered(g, s, limit, d, walks, order, k) && k < |order| && order[k] in d && d[order[k]] < limit
    ensures Expanding(g, s, limit, d, walks, order, k, order[k])
  {
    assert order[k..] == [order[k]] + order[k + 1..];
  }

  lemma EnumeratesMore(order: seq<int>, d: map<int, nat>, v: int, n: nat)
    requires Enumerates(order, d) && v !in d
    ensures Enumerates(order + [v], d[v := n])
  {
    var o := order + [v];
    assert forall x :: x in o <==> x in order || x == v;
    forall i, j | 0 <= i < j < |o|
      ensures o[i] != o[j]
    {
      assert o[i] in order;
    }
  }

  lemma LayerDiscovers(g: set<(int, int)>, s: int, limit: nat, d: map<int, nat>, walks: map<int, seq<int>>,
                       order: seq<int>, k: nat, u: int, v: int)
    requires Expanding(g, s, limit, d, walks, order, k, u) && v !in d && (u, v) in g
    ensures Expanding(g, s, limit, d[v := d[u] + 1], walks[v := walks[u] + [v]], order + [v], k, u)
  {
    hide Frontier, Witnessed, Enumerates;
    Discover(g, d, u, order[k + 1..], v);
    DiscoverWalk(g, s, d, walks, u, v);
    EnumeratesMore(order, d, v, d[u] + 1);
    assert (order + [v])[k + 1..] == order[k + 1..] + [v];
  }

  lemma LayerCloses(g: set<(int, int)>, s: int, limit: nat, d: map<int, nat>, walks: map<int, seq<int>>,
                    order: seq<int>, k: nat, u: int)
    requires Expanding(g, s, limit, d, walks, order, k, u) && forall v :: (u, v) in g ==> v in d
    ensures Layered(g, s, limit, d, walks, order, k + 1)
  {
    hide Frontier, Witnessed, Enumerates;
    Retire(g, d, u, order[k + 1..]);
  }

  /** An exhausted queue has found exactly what lies within the limit. */
  lemma LayerEnds(g: set<(int, int)>, s: int, limit: nat, d: map<int, nat>, walks: map<int, seq<int>>, order: seq<int>)
    requires Layered(g, s, limit, d, walks, order, |order|)
    ensures forall t, n: nat :: n <= limit ==> (IsDistance(g, s, t, n) <==> t in d && d[t] == n)
    ensures forall t :: t in d ==> d[t] <= limit && IsDistance(g, s, t, d[t])
  {
    assert order[|order|..] == [];
    assert Relaxed(g, d, limit);
    forall t | t in d
      ensures d[t] <= limit && IsDistance(g, s, t, d[t])
    {
      LabelIsDistance(g, s, d, walks, limit, t);
    }
    forall t, n: nat | n <= limit && IsDistance(g, s, t, n)
      ensures t in d && d[t] == n
    {
      var w :| IsWalk(g, w, s, t) && |w| == n + 1;
      RelaxedBoundsWalks(g, d, limit, w, s, t);
      DistanceUnique(g, s, t, n, d[t]);
    }
  }
}
