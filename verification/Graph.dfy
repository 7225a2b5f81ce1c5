/** Walks, reachability and distances in a device graph.

    A graph is a finite set of directed edges.  Every search of the
    repository is specified against the notions of this module, each over its
    own view of the adjacency map (the whole map, the map without one switch,
    the map without edges that lead back to the root). */
module Graph {

  datatype Option<+T> = None | Some(value: T)

  type Adj = map<int, seq<int>>

  /** The two ends of a link, the lower one first. */
  function Pair(u: int, v: int): (int, int) {
    if u > v then (v, u) else (u, v)
  }

  /** The pair `a` and `b`, in either order, is the pair `u` and `v`. */
  ghost predicate Joins(a: int, b: int, u: int, v: int) {
    (a == u && b == v) || (a == v && b == u)
  }

  lemma PairJoins(a: int, b: int, u: int, v: int)
    ensures Pair(a, b) == Pair(u, v) <==> Joins(a, b, u, v)
    ensures Pair(a, b).0 <= Pair(a, b).1
  {
  }

  function Nbrs(adj: Adj, u: int): seq<int> {
    if u in adj then adj[u] else []
  }

  ghost function EdgesOf(adj: Adj): set<(int, int)> {
    set u, v | u in adj && v in adj[u] :: (u, v)
  }

  /** The edges that stay clear of `avoid`; only a positive id excludes a device. */
  ghost function Avoiding(adj: Adj, avoid: int): set<(int, int)> {
    set u, v | u in adj && v in adj[u] && (avoid > 0 ==> u != avoid && v != avoid) :: (u, v)
  }

  ghost predicate Symmetric(g: set<(int, int)>) {
    forall u, v :: (u, v) in g ==> (v, u) in g
  }

  ghost predicate Step(g: set<(int, int)>, w: seq<int>, i: int)
    requires 0 <= i < |w| - 1
  {
    (w[i], w[i + 1]) in g
  }

  ghost predicate IsWalk(g: set<(int, int)>, w: seq<int>, s: int, t: int) {
    && |w| > 0 && w[0] == s && w[|w| - 1] == t
    && forall i :: 0 <= i < |w| - 1 ==> Step(g, w, i)
  }

  ghost predicate Reaches(g: set<(int, int)>, s: int, t: int) {
    exists w :: IsWalk(g, w, s, t)
  }

  /** `n` is the number of edges of a shortest walk from `s` to `t`. */
  ghost predicate IsDistance(g: set<(int, int)>, s: int, t: int, n: nat) {
    && (exists w :: IsWalk(g, w, s, t) && |w| == n + 1)
    && (forall w :: IsWalk(g, w, s, t) ==> n + 1 <= |w|)
  }

  ghost predicate Distinct(w: seq<int>) {
    forall i, j :: 0 <= i < j < |w| ==> w[i] != w[j]
  }

  lemma WalkExtend(g: set<(int, int)>, w: seq<int>, s: int, t: int, x: int)
    requires IsWalk(g, w, s, t) && (t, x) in g
    ensures IsWalk(g, w + [x], s, x)
  {
    forall i | 0 <= i < |w + [x]| - 1
      ensures Step(g, w + [x], i)
    {
      if i < |w| - 1 {
        assert Step(g, w, i);
      }
    }
  }

  lemma WalkPrefix(g: set<(int, int)>, w: seq<int>, s: int, t: int, n: nat)
    requires IsWalk(g, w, s, t) && n < |w|
    ensures IsWalk(g, w[..n + 1], s, w[n])
  {
    var p := w[..n + 1];
    forall i | 0 <= i < |p| - 1
      ensures Step(g, p, i)
    {
      assert Step(g, w, i);
    }
  }

  lemma WalkJoin(g: set<(int, int)>, a: seq<int>, b: seq<int>, s: int, t: int, x: int)
    requires IsWalk(g, a, s, t) && IsWalk(g, b, t, x)
    ensures IsWalk(g, a + b[1..], s, x)
  {
    var w := a + b[1..];
    forall i | 0 <= i < |w| - 1
      ensures Step(g, w, i)
    {
      if i < |a| - 1 {
        assert Step(g, a, i);
      } else {
        assert Step(g, b, i - |a| + 1);
      }
    }
  }

  function Reversed<T>(w: seq<T>): (r: seq<T>)
    ensures |r| == |w| && forall i :: 0 <= i < |w| ==> r[i] == w[|w| - 1 - i]
  {
    seq(|w|, i requires 0 <= i < |w| => w[|w| - 1 - i])
  }

  lemma WalkReverse(g: set<(int, int)>, w: seq<int>, s: int, t: int)
    requires Symmetric(g) && IsWalk(g, w, s, t)
    ensures IsWalk(g, Reversed(w), t, s)
  {
    var r := Reversed(w);
    forall i | 0 <= i < |r| - 1
      ensures Step(g, r, i)
    {
      var k := |w| - 2 - i;
      assert Step(g, w, k);
      assert r[i] == w[k + 1] && r[i + 1] == w[k];
    }
  }

  lemma WalkInSubgraph(g: set<(int, int)>, h: set<(int, int)>, w: seq<int>, s: int, t: int)
    requires IsWalk(g, w, s, t) && forall i :: 0 <= i < |w| - 1 && Step(g, w, i) ==> Step(h, w, i)
    ensures IsWalk(h, w, s, t)
  {
    forall i | 0 <= i < |w| - 1
      ensures Step(h, w, i)
    {
      assert Step(g, w, i);
    }
  }

  /** Walks of the reduced graph are exactly the walks that do not visit `avoid`. */
  lemma AvoidingWalks(adj: Adj, avoid: int, w: seq<int>, s: int, t: int)
    requires avoid > 0 && s != avoid
    ensures IsWalk(Avoiding(adj, avoid), w, s, t) <==> IsWalk(EdgesOf(adj), w, s, t) && avoid !in w
  {
    var g, h := Avoiding(adj, avoid), EdgesOf(adj);
    if IsWalk(g, w, s, t) {
      forall i | 0 <= i < |w| - 1
        ensures Step(h, w, i)
      {
        assert Step(g, w, i);
      }
      forall i | 0 <= i < |w|
        ensures w[i] != avoid
      {
        assert i > 0 ==> Step(g, w, i - 1);
      }
    }
    if IsWalk(h, w, s, t) && avoid !in w {
      forall i | 0 <= i < |w| - 1
        ensures Step(g, w, i)
      {
        assert Step(h, w, i);
      }
    }
  }

  lemma DistanceUnique(g: set<(int, int)>, s: int, t: int, m: nat, n: nat)
    requires IsDistance(g, s, t, m) && IsDistance(g, s, t, n)
    ensures m == n
  {
  }

  /** The labels `d` grow by at most one along every edge that leaves a vertex
      labelled less than `k`. */
  ghost predicate Relaxed(g: set<(int, int)>, d: map<int, nat>, k: nat) {
    forall u, v :: (u, v) in g && u in d && d[u] < k ==> v in d && d[v] <= d[u] + 1
  }

  /** Labels that start at 0 and are relaxed below `k` bound every walk of at
      most `k` edges: this one argument serves all searches, the ones that run
      to the end, the depth-limited ones and the one that stops early. */
  lemma {:induction false} RelaxedBoundsWalks(g: set<(int, int)>, d: map<int, nat>, k: nat, w: seq<int>, s: int, t: int)
    requires s in d && d[s] == 0 && Relaxed(g, d, k)
    requires IsWalk(g, w, s, t) && |w| <= k + 1
    ensures t in d && d[t] < |w|
    decreases |w|
  {
    if |w| > 1 {
      var n := |w| - 2;
      WalkPrefix(g, w, s, t, n);
      RelaxedBoundsWalks(g, d, k, w[..n + 1], s, w[n]);
      assert Step(g, w, n);
    }
  }

  lemma Inhabited<T>(s: set<T>)
    ensures s == {} || exists x :: x in s
  {
    if forall x :: x !in s {
      assert s == {};
    }
  }

  lemma Member<T>(s: set<T>) returns (x: T)
    requires s != {}
    ensures x in s
  {
    Inhabited(s);
    x :| x in s;
  }
}
