/** The breadth-first search argument shared by every queue loop of the
    repository: what a loop knows about the labels it has given out and the
    vertices that are still pending, and what follows when it stops. */
module Search {
  import opened Graph

  /** `d` labels the discovered vertices and `pending` holds those whose
      neighbours have not all been looked at, in queue order. */
  ghost predicate Frontier(g: set<(int, int)>, d: map<int, nat>, pending: seq<int>) {
    && (forall i :: 0 <= i < |pending| ==> pending[i] in d)
    && (forall i, j :: 0 <= i < j < |pending| ==> d[pending[i]] <= d[pending[j]])
    && (pending != [] ==> forall x :: x in d ==> d[x] <= d[pending[0]] + 1)
    && (forall u, v :: (u, v) in g && u in d && u !in pending ==> v in d && d[v] <= d[u] + 1)
  }

  /** Every label is the length of a recorded walk from `s`. */
  ghost predicate Witnessed(g: set<(int, int)>, s: int, d: map<int, nat>, walks: map<int, seq<int>>) {
    && s in d && d[s] == 0
    && (forall x :: x in walks <==> x in d)
    && forall x :: x in d ==> IsWalk(g, walks[x], s, x) && |walks[x]| == d[x] + 1
  }

  /** `d` is defined exactly on what `s` reaches, and gives the distance there. */
  ghost predicate IsDistanceMap(g: set<(int, int)>, s: int, d: map<int, nat>) {
    && (forall t :: t in d <==> Reaches(g, s, t))
    && (forall t :: t in d ==> IsDistance(g, s, t, d[t]))
  }

  lemma Start(g: set<(int, int)>, s: int)
    ensures Frontier(g, map[s := 0], [s]) && Witnessed(g, s, map[s := 0], map[s := [s]])
  {
  }

  lemma HeadIsKnown(g: set<(int, int)>, s: int, d: map<int, nat>, walks: map<int, seq<int>>, u: int, q: seq<int>)
    requires Frontier(g, d, [u] + q) && Witnessed(g, s, d, walks)
    ensures u in d && forall x :: x in walks <==> x in d
  {
    assert ([u] + q)[0] == u;
  }

  /** Labelling an undiscovered vertex from the head of the queue. */
  lemma Discover(g: set<(int, int)>, d: map<int, nat>, u: int, q: seq<int>, v: int)
    requires Frontier(g, d, [u] + q) && v !in d
    ensures u in d && Frontier(g, d[v := d[u] + 1], [u] + (q + [v]))
  {
    var p, p' := [u] + q, [u] + (q + [v]);
    assert p[0] == u && p' == p + [v];
    forall i | 0 <= i < |p|
      ensures p[i] in d && p'[i] == p[i] && p[i] != v
    {
    }
    assert forall x :: x in p' <==> x in p || x == v;
  }

  lemma DiscoverWalk(g: set<(int, int)>, s: int, d: map<int, nat>, walks: map<int, seq<int>>, u: int, v: int)
    requires Witnessed(g, s, d, walks) && u in d && v !in d && (u, v) in g
    ensures Witnessed(g, s, d[v := d[u] + 1], walks[v := walks[u] + [v]])
  {
    WalkExtend(g, walks[u], s, u, v);
  }

  /** The head of the queue leaves once all its edges lead to labelled vertices. */
  lemma Retire(g: set<(int, int)>, d: map<int, nat>, u: int, q: seq<int>)
    requires Frontier(g, d, [u] + q)
    requires forall v :: (u, v) in g ==> v in d
    ensures Frontier(g, d, q)
  {
    var p := [u] + q;
    assert p[0] == u;
    forall i | 0 <= i < |q|
      ensures p[i + 1] == q[i] && q[i] in d
    {
    }
    forall x, y | (x, y) in g && x in d && x !in q
      ensures y in d && d[y] <= d[x] + 1
    {
      if x != u {
        assert x !in p;
      }
    }
  }

  lemma NeighbourIsEdge(adj: Adj, u: int, i: nat)
    requires i < |Nbrs(adj, u)|
    ensures (u, Nbrs(adj, u)[i]) in EdgesOf(adj)
  {
    var v := Nbrs(adj, u)[i];
    assert u in adj && adj[u][i] == v && v in adj[u];
    assert (u, v) in EdgesOf(adj);
  }

  lemma AllNeighboursKnown(adj: Adj, u: int, d: map<int, nat>)
    requires forall j :: 0 <= j < |Nbrs(adj, u)| ==> Nbrs(adj, u)[j] in d
    ensures forall v :: (u, v) in EdgesOf(adj) ==> v in d
  {
    var nbrs := Nbrs(adj, u);
    forall v | (u, v) in EdgesOf(adj)
      ensures v in d
    {
      var j :| 0 <= j < |nbrs| && nbrs[j] == v;
      assert nbrs[j] in d;
    }
  }

  /** A search that ran to the end has bounded every walk. */
  lemma Exhausted(g: set<(int, int)>, d: map<int, nat>, k: nat)
    requires Frontier(g, d, [])
    ensures Relaxed(g, d, k)
  {
  }

  /** A search that stops while it looks at `u` has bounded every walk of at
      most `d[u]` edges. */
  lemma StoppedAt(g: set<(int, int)>, d: map<int, nat>, u: int, q: seq<int>)
    requires Frontier(g, d, [u] + q)
    ensures u in d && Relaxed(g, d, d[u])
  {
    var p := [u] + q;
    assert p[0] == u;
    forall x, y | (x, y) in g && x in d && d[x] < d[u]
      ensures y in d && d[y] <= d[x] + 1
    {
      assert forall i :: 0 <= i < |p| ==> d[p[0]] <= d[p[i]];
    }
  }

  /** Relaxed labels with recorded walks are distances, as far as they are relaxed. */
  lemma LabelIsDistance(g: set<(int, int)>, s: int, d: map<int, nat>, walks: map<int, seq<int>>, k: nat, t: int)
    requires Witnessed(g, s, d, walks) && Relaxed(g, d, k) && t in d && d[t] <= k + 1
    ensures IsDistance(g, s, t, d[t])
  {
    forall w | IsWalk(g, w, s, t)
      ensures d[t] + 1 <= |w|
    {
      if |w| <= k + 1 {
        RelaxedBoundsWalks(g, d, k, w, s, t);
      }
    }
  }

  lemma ExhaustedIsDistanceMap(g: set<(int, int)>, s: int, d: map<int, nat>, walks: map<int, seq<int>>)
    requires Frontier(g, d, []) && Witnessed(g, s, d, walks)
    ensures IsDistanceMap(g, s, d)
  {
    forall t
      ensures t in d <==> Reaches(g, s, t)
    {
      if Reaches(g, s, t) {
        var w :| IsWalk(g, w, s, t);
        Exhausted(g, d, |w|);
        RelaxedBoundsWalks(g, d, |w|, w, s, t);
      }
    }
    forall t | t in d
      ensures IsDistance(g, s, t, d[t])
    {
      Exhausted(g, d, d[t]);
      LabelIsDistance(g, s, d, walks, d[t], t);
    }
  }

  ghost predicate Covers(all: set<int>, adj: Adj) {
    forall u, i :: u in adj && 0 <= i < |adj[u]| ==> adj[u][i] in all
  }

  ghost function Missing(all: set<int>, d: map<int, nat>): set<int> {
    set x | x in all && x !in d
  }

  /** How many vertices a search can still discover: its termination measure. */
  ghost predicate Room(adj: Adj, d: map<int, nat>, room: nat) {
    exists all: set<int> :: Covers(all, adj) && room == |Missing(all, d)|
  }

  lemma RoomExists(adj: Adj, d: map<int, nat>) returns (room: nat)
    ensures Room(adj, d, room)
  {
    var all := set u, i | u in adj && 0 <= i < |adj[u]| :: adj[u][i];
    assert Covers(all, adj);
    room := |Missing(all, d)|;
  }

  lemma RoomShrinks(adj: Adj, d: map<int, nat>, room: nat, u: int, i: int, n: nat)
    requires Room(adj, d, room) && 0 <= i < |Nbrs(adj, u)| && Nbrs(adj, u)[i] !in d
    ensures room > 0 && Room(adj, d[Nbrs(adj, u)[i] := n], room - 1)
  {
    var v := Nbrs(adj, u)[i];
    var all: set<int> :| Covers(all, adj) && room == |Missing(all, d)|;
    assert u in adj && v == adj[u][i];
    assert Missing(all, d) == Missing(all, d[v := n]) + {v};
  }
}
