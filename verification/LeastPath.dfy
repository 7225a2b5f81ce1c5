/** Which of several shortest walks a queue search finds: the first one in
    adjacency-list order. */
module LeastPath {
  import opened Graph
  import opened Search

  /** `x` is listed before the first occurrence of `y`. */
  ghost predicate Earlier(s: seq<int>, x: int, y: int) {
    exists k :: 0 <= k < |s| && s[k] == x && y !in s[..k + 1]
  }

  ghost predicate SplitsAt(adj: Adj, a: seq<int>, b: seq<int>, i: int) {
    && 0 < i < |a| && |a| == |b|
    && (forall k :: 0 <= k < i ==> a[k] == b[k])
    && Earlier(Nbrs(adj, a[i - 1]), a[i], b[i])
  }

  /** At the first device where two walks part, `a` takes the neighbour listed first. */
  ghost predicate Before(adj: Adj, a: seq<int>, b: seq<int>) {
    exists i :: SplitsAt(adj, a, b, i)
  }

  lemma EarlierTransitive(s: seq<int>, x: int, y: int, z: int)
    requires Earlier(s, x, y) && Earlier(s, y, z)
    ensures Earlier(s, x, z)
  {
    var k :| 0 <= k < |s| && s[k] == x && y !in s[..k + 1];
    var l :| 0 <= l < |s| && s[l] == y && z !in s[..l + 1];
    assert forall i :: 0 <= i < k + 1 ==> s[..k + 1][i] == s[i];
    assert s[..k + 1] == s[..l + 1][..k + 1];
  }

  lemma BeforeTransitive(adj: Adj, a: seq<int>, b: seq<int>, c: seq<int>)
    requires Before(adj, a, b) && Before(adj, b, c)
    ensures Before(adj, a, c)
  {
    var i :| SplitsAt(adj, a, b, i);
    var j :| SplitsAt(adj, b, c, j);
    if i < j {
      assert SplitsAt(adj, a, c, i);
    } else if j < i {
      assert a[j - 1] == b[j - 1];
      assert SplitsAt(adj, a, c, j);
    } else {
      EarlierTransitive(Nbrs(adj, a[i - 1]), a[i], b[i], c[i]);
      assert SplitsAt(adj, a, c, i);
    }
  }

  lemma BeforeIrreflexive(adj: Adj, a: seq<int>)
    ensures !Before(adj, a, a)
  {
    forall i | 0 < i < |a|
      ensures !SplitsAt(adj, a, a, i)
    {
      var s := Nbrs(adj, a[i - 1]);
      forall k | 0 <= k < |s| && s[k] == a[i]
        ensures a[i] in s[..k + 1]
      {
        assert s[..k + 1][k] == a[i];
      }
    }
  }

  lemma BeforeExtend(adj: Adj, a: seq<int>, b: seq<int>, x: int, y: int)
    requires Before(adj, a, b)
    ensures Before(adj, a + [x], b + [y])
  {
    var i :| SplitsAt(adj, a, b, i);
    assert SplitsAt(adj, a + [x], b + [y], i);
  }

  lemma BeforeAtEnd(adj: Adj, a: seq<int>, x: int, y: int)
    requires |a| > 0 && Earlier(Nbrs(adj, a[|a| - 1]), x, y)
    ensures Before(adj, a + [x], a + [y])
  {
    assert SplitsAt(adj, a + [x], a + [y], |a|);
  }

  /** No walk as short as `w` between the same ends comes before it. */
  ghost predicate Least(adj: Adj, g: set<(int, int)>, w: seq<int>, s: int, t: int) {
    forall w' :: IsWalk(g, w', s, t) && |w'| == |w| ==> w' == w || Before(adj, w, w')
  }

  lemma LeastUnique(adj: Adj, g: set<(int, int)>, a: seq<int>, b: seq<int>, s: int, t: int)
    requires IsWalk(g, a, s, t) && IsWalk(g, b, s, t) && |a| == |b|
    requires Least(adj, g, a, s, t) && Least(adj, g, b, s, t)
    ensures a == b
  {
    if a != b {
      BeforeTransitive(adj, a, b, a);
      BeforeIrreflexive(adj, a);
    }
  }

  /** The walks recorded by a search form a tree, are least, and the pending
      vertices are queued in the order of their walks. */
  ghost predicate Tree(d: map<int, nat>, s: int, walks: map<int, seq<int>>) {
    forall x :: x in d && x in walks && x != s && |walks[x]| >= 2 ==>
      var p := walks[x][|walks[x]| - 2];
      p in walks && walks[p] == walks[x][..|walks[x]| - 1]
  }

  ghost predicate AllLeast(adj: Adj, g: set<(int, int)>, s: int, walks: map<int, seq<int>>) {
    forall x :: x in walks ==> Least(adj, g, walks[x], s, x)
  }

  ghost predicate Queued(adj: Adj, walks: map<int, seq<int>>, pending: seq<int>) {
    && (forall i :: 0 <= i < |pending| ==> pending[i] in walks)
    && (forall i, j :: 0 <= i < j < |pending| && |walks[pending[i]]| == |walks[pending[j]]| ==>
                         Before(adj, walks[pending[i]], walks[pending[j]]))
  }

  /** A vertex queued one level below `u` hangs below a vertex dealt with
      before `u`, or below `u` at one of its first `k` neighbours. */
  ghost predicate Hangs(adj: Adj, walks: map<int, seq<int>>, u: int, k: nat, x: int)
    requires u in walks && k <= |Nbrs(adj, u)|
  {
    x in walks && |walks[x]| == |walks[u]| + 1 ==>
      var parent := walks[x][..|walks[u]|];
      (parent == walks[u] && x in Nbrs(adj, u)[..k]) || Before(adj, parent, walks[u])
  }

  lemma QueuedTail(adj: Adj, walks: map<int, seq<int>>, u: int, q: seq<int>)
    requires Queued(adj, walks, [u] + q)
    ensures Queued(adj, walks, q)
  {
    var p := [u] + q;
    assert forall i :: 0 <= i < |q| ==> q[i] == p[i + 1];
  }

  /** What hangs below the old head comes before the new head. */
  lemma HangsBelowNext(adj: Adj, walks: map<int, seq<int>>, u: int, h: int, x: int)
    requires u in walks && h in walks && Hangs(adj, walks, u, |Nbrs(adj, u)|, x)
    requires |walks[h]| == |walks[u]| ==> Before(adj, walks[u], walks[h])
    requires x in walks && |walks[h]| != |walks[u]| ==> |walks[x]| <= |walks[h]|
    ensures Hangs(adj, walks, h, 0, x)
  {
    if x in walks && |walks[x]| == |walks[h]| + 1 {
      var parent := walks[x][..|walks[u]|];
      if parent != walks[u] {
        BeforeTransitive(adj, parent, walks[u], walks[h]);
      }
    }
  }

  lemma ListedEarlier(nbrs: seq<int>, k: nat, x: int)
    requires k < |nbrs| && x in nbrs[..k] && nbrs[k] !in nbrs[..k]
    ensures Earlier(nbrs, x, nbrs[k])
  {
    var j :| 0 <= j < k && nbrs[j] == x;
    assert nbrs[..j + 1] == nbrs[..k][..j + 1];
  }

  /** Everything queued one level below `u` comes before a newly found
      neighbour `v` of `u`. */
  lemma HangsBeforeNew(adj: Adj, walks: map<int, seq<int>>, u: int, k: nat, x: int, v: int)
    requires u in walks && |walks[u]| > 0 && walks[u][|walks[u]| - 1] == u
    requires k < |Nbrs(adj, u)| && Nbrs(adj, u)[k] == v && v !in Nbrs(adj, u)[..k]
    requires x in walks && |walks[x]| == |walks[u]| + 1 && walks[x][|walks[u]|] == x && Hangs(adj, walks, u, k, x)
    ensures Before(adj, walks[x], walks[u] + [v])
  {
    hide Before, Earlier;
    var nbrs, parent := Nbrs(adj, u), walks[x][..|walks[u]|];
    assert walks[x] == parent + [x];
    if parent == walks[u] && x in nbrs[..k] {
      ListedEarlier(nbrs, k, x);
      BeforeAtEnd(adj, walks[u], x, v);
    } else {
      BeforeExtend(adj, parent, walks[u], x, v);
    }
  }

  lemma HangsKept(adj: Adj, walks: map<int, seq<int>>, u: int, k: nat, x: int, v: int)
    requires u in walks && u != v && k < |Nbrs(adj, u)| && Nbrs(adj, u)[k] == v
    requires x != v ==> Hangs(adj, walks, u, k, x)
    ensures Hangs(adj, walks[v := walks[u] + [v]], u, k + 1, x)
  {
    var nbrs := Nbrs(adj, u);
    assert nbrs[..k + 1] == nbrs[..k] + [v];
    assert (walks[u] + [v])[..|walks[u]|] == walks[u];
  }

  /** Queueing `v` behind everything else keeps the queue ordered. */
  lemma QueuedAppend(adj: Adj, walks: map<int, seq<int>>, p: seq<int>, v: int, w: seq<int>)
    requires Queued(adj, walks, p) && v !in walks
    requires forall i :: 0 <= i < |p| && |walks[p[i]]| == |w| ==> Before(adj, walks[p[i]], w)
    ensures Queued(adj, walks[v := w], p + [v])
  {
    var p', walks' := p + [v], walks[v := w];
    forall i | 0 <= i < |p|
      ensures p'[i] == p[i] && walks'[p'[i]] == walks[p[i]]
    {
    }
  }

  /** The walk recorded for a newly discovered vertex is least. */
  lemma DiscoverLeast(adj: Adj, g: set<(int, int)>, s: int, d: map<int, nat>, walks: map<int, seq<int>>,
                      u: int, q: seq<int>, v: int)
    requires Frontier(g, d, [u] + q) && Witnessed(g, s, d, walks) && Queued(adj, walks, [u] + q)
    requires AllLeast(adj, g, s, walks) && u in d && v !in d
    ensures Least(adj, g, walks[u] + [v], s, v)
  {
    var p := [u] + q;
    assert p[0] == u;
    hide Before, Frontier, Least, Queued, AllLeast;
    assert |walks[u]| == d[u] + 1 && IsWalk(g, walks[u], s, u);
    forall w | IsWalk(g, w, s, v) && |w| == |walks[u]| + 1
      ensures w == walks[u] + [v] || Before(adj, walks[u] + [v], w)
    {
      var n := |w| - 2;
      var w' := w[..n + 1];
      assert w == w' + [v];
      WalkPrefix(g, w, s, v, n);
      assert Step(g, w, n);
      QueuedParent(g, s, d, u, q, w', w[n], v);
      ParentIsLeast(adj, g, s, d, walks, u, q, w', w[n]);
      if w' != walks[u] {
        BeforeExtend(adj, walks[u], w', v, v);
      }
    }
    assert Least(adj, g, walks[u] + [v], s, v);
  }

  /** A walk as long as the label of the head that leads to an unlabelled vertex
      passes through the queue, at the head's level. */
  lemma QueuedParent(g: set<(int, int)>, s: int, d: map<int, nat>, u: int, q: seq<int>, w: seq<int>, t: int, v: int)
    requires Frontier(g, d, [u] + q) && s in d && d[s] == 0 && u in d && v !in d
    requires IsWalk(g, w, s, t) && |w| == d[u] + 1 && (t, v) in g
    ensures t in [u] + q && t in d && d[t] == d[u]
  {
    var p := [u] + q;
    assert p[0] == u;
    StoppedAt(g, d, u, q);
    RelaxedBoundsWalks(g, d, d[u], w, s, t);
    assert t in p;
    var i :| 0 <= i < |p| && p[i] == t;
  }

  /** Walks to queued vertices of that level do not come before the head's own. */
  lemma ParentIsLeast(adj: Adj, g: set<(int, int)>, s: int, d: map<int, nat>, walks: map<int, seq<int>>,
                      u: int, q: seq<int>, w: seq<int>, t: int)
    requires Witnessed(g, s, d, walks) && Queued(adj, walks, [u] + q) && AllLeast(adj, g, s, walks) && u in d
    requires t in [u] + q && t in d && d[t] == d[u] && IsWalk(g, w, s, t) && |w| == d[u] + 1
    ensures w == walks[u] || Before(adj, walks[u], w)
  {
    hide Before, IsWalk;
    var p := [u] + q;
    assert p[0] == u;
    var i :| 0 <= i < |p| && p[i] == t;
    assert Least(adj, g, walks[t], s, t);
    if i > 0 {
      assert Before(adj, walks[p[0]], walks[p[i]]);
      if w != walks[t] {
        BeforeTransitive(adj, walks[u], walks[t], w);
      }
    }
  }
}
