/** How many cycles are reported: one per independent loop. */
module LoopCount {
  import opened Graph
  import opened DfsForest
  import opened DfsSteps
  import opened LoopTheorems

  lemma {:induction false} SameSize<A, B>(s: set<A>, t: set<B>, f: A -> B)
    requires forall x :: x in s ==> f(x) in t
    requires forall y :: y in t ==> exists x :: x in s && f(x) == y
    requires forall x, x' :: x in s && x' in s && f(x) == f(x') ==> x == x'
    ensures |s| == |t|
    decreases |s|
  {
    if t != {} {
      var y := Member(t);
    }
    if s != {} {
      var x := Member(s);
      var s', t' := s - {x}, t - {f(x)};
      forall y | y in t'
        ensures exists x' :: x' in s' && f(x') == y
      {
        var x' :| x' in s && f(x') == y;
        assert x' in s';
      }
      SameSize(s', t', f);
      assert s == s' + {x} && t == t' + {f(x)};
    }
  }

  /** The links, each once. */
  ghost function Links(adj: Adj): set<(int, int)> {
    set u, v | u in adj && v in adj[u] && u < v :: (u, v)
  }

  ghost function Component(adj: Adj, u: int): set<int> {
    set v | v in adj && Reaches(EdgesOf(adj), u, v)
  }

  ghost function Components(adj: Adj): set<set<int>> {
    set u | u in adj :: Component(adj, u)
  }

  // ----- roots stand for components

  lemma {:induction false} WalkKeepsRoot(adj: Adj, anc: map<int, seq<int>>, loops: seq<seq<int>>, w: seq<int>, s: int,
                                         t: int)
    requires Finished(adj, anc, loops) && IsWalk(EdgesOf(adj), w, s, t) && s in anc
    ensures t in anc && anc[s] != [] && anc[t] != [] && anc[t][0] == anc[s][0]
    decreases |w|
  {
    hide Finished, Forest;
    FinishedFacts(adj, anc, loops);
    StackNonempty(adj, anc, s);
    if |w| > 1 {
      var n := |w| - 2;
      WalkPrefix(EdgesOf(adj), w, s, t, n);
      WalkKeepsRoot(adj, anc, loops, w[..n + 1], s, w[n]);
      assert Step(EdgesOf(adj), w, n);
      assert Linked(adj, w[n], t);
      StackNonempty(adj, anc, t);
    }
  }

  lemma StackNonempty(adj: Adj, anc: map<int, seq<int>>, u: int)
    requires Forest(adj, anc) && u in anc
    ensures anc[u] != [] && anc[u][|anc[u]| - 1] == u && anc[u][0] in anc && anc[anc[u][0]] == [anc[u][0]]
    ensures IsWalk(EdgesOf(adj), anc[u], anc[u][0], u)
  {
    assert Stacked(adj, anc, u);
    var s := anc[u];
    assert s[..1] == [s[0]];
    forall i | 0 <= i < |s| - 1
      ensures Step(EdgesOf(adj), s, i)
    {
      assert Linked(adj, s[i], s[i + 1]);
    }
  }

  lemma EdgesSymmetric(adj: Adj)
    requires Simple(adj)
    ensures Symmetric(EdgesOf(adj))
  {
    forall u, v | (u, v) in EdgesOf(adj)
      ensures (v, u) in EdgesOf(adj)
    {
      assert u in adj[v];
    }
  }

  /** Two devices are connected exactly when their stacks start at the same root. */
  lemma ConnectedIffSameRoot(adj: Adj, anc: map<int, seq<int>>, loops: seq<seq<int>>, u: int, v: int)
    requires Finished(adj, anc, loops) && u in anc && v in anc
    ensures anc[u] != [] && anc[v] != []
    ensures Reaches(EdgesOf(adj), u, v) <==> anc[u][0] == anc[v][0]
  {
    hide Finished, Forest, Simple;
    FinishedFacts(adj, anc, loops);
    StackNonempty(adj, anc, u);
    StackNonempty(adj, anc, v);
    if Reaches(EdgesOf(adj), u, v) {
      var w :| IsWalk(EdgesOf(adj), w, u, v);
      WalkKeepsRoot(adj, anc, loops, w, u, v);
    }
    if anc[u][0] == anc[v][0] {
      EdgesSymmetric(adj);
      WalkReverse(EdgesOf(adj), anc[u], anc[u][0], u);
      WalkJoin(EdgesOf(adj), Reversed(anc[u]), anc[v], u, anc[u][0], v);
    }
  }

  ghost function Roots(adj: Adj, anc: map<int, seq<int>>): set<int> {
    set u | u in adj && u in anc && |anc[u]| == 1
  }

  lemma SameRootSameComponent(adj: Adj, anc: map<int, seq<int>>, loops: seq<seq<int>>, u: int, v: int)
    requires Finished(adj, anc, loops) && u in anc && v in anc && anc[u] != [] && anc[v] != [] && anc[u][0] == anc[v][0]
    ensures Component(adj, u) == Component(adj, v)
  {
    hide Finished;
    FinishedFacts(adj, anc, loops);
    forall x | x in adj
      ensures x in Component(adj, u) <==> x in Component(adj, v)
    {
      ConnectedIffSameRoot(adj, anc, loops, u, x);
      ConnectedIffSameRoot(adj, anc, loops, v, x);
    }
  }

  lemma ComponentsAreRoots(adj: Adj, anc: map<int, seq<int>>, loops: seq<seq<int>>)
    requires Finished(adj, anc, loops)
    ensures |Components(adj)| == |Roots(adj, anc)|
  {
    hide Finished, Forest, Component;
    FinishedFacts(adj, anc, loops);
    var f := u => Component(adj, u);
    forall c | c in Components(adj)
      ensures exists r :: r in Roots(adj, anc) && f(r) == c
    {
      var u :| u in adj && Component(adj, u) == c;
      StackNonempty(adj, anc, u);
      var r := anc[u][0];
      SameRootSameComponent(adj, anc, loops, u, r);
      assert r in Roots(adj, anc) && f(r) == c;
    }
    forall r, r' | r in Roots(adj, anc) && r' in Roots(adj, anc) && f(r) == f(r')
      ensures r == r'
    {
      RootsDiffer(adj, anc, loops, r, r');
    }
    SameSize(Roots(adj, anc), Components(adj), f);
  }

  lemma RootsDiffer(adj: Adj, anc: map<int, seq<int>>, loops: seq<seq<int>>, r: int, r': int)
    requires Finished(adj, anc, loops) && r in Roots(adj, anc) && r' in Roots(adj, anc)
    requires Component(adj, r) == Component(adj, r')
    ensures r == r'
  {
    hide Finished, Forest;
    FinishedFacts(adj, anc, loops);
    StackNonempty(adj, anc, r);
    StackNonempty(adj, anc, r');
    assert IsWalk(EdgesOf(adj), [r'], r', r');
    assert r' in Component(adj, r');
    ConnectedIffSameRoot(adj, anc, loops, r, r');
  }

  // ----- links are tree links or closing links

  ghost function NonRoots(adj: Adj, anc: map<int, seq<int>>): set<int> {
    set u | u in adj && u in anc && |anc[u]| >= 2
  }

  ghost function TreeLink(anc: map<int, seq<int>>, u: int): (int, int) {
    if u in anc && |anc[u]| >= 2 then Pair(anc[u][|anc[u]| - 2], u) else (0, 0)
  }

  ghost function TreeLinks(adj: Adj, anc: map<int, seq<int>>): set<(int, int)> {
    set u | u in NonRoots(adj, anc) :: TreeLink(anc, u)
  }

  ghost function ClosingLink(c: seq<int>): (int, int) {
    if |c| > 0 then Pair(c[0], c[|c| - 1]) else (0, 0)
  }

  ghost function LoopSet(loops: seq<seq<int>>): set<seq<int>> {
    set c | c in loops
  }

  ghost function ClosingLinks(loops: seq<seq<int>>): set<(int, int)> {
    set c | c in LoopSet(loops) :: ClosingLink(c)
  }

  /** The parent of a device stands one level above it. */
  lemma ParentAbove(adj: Adj, anc: map<int, seq<int>>, u: int)
    requires Forest(adj, anc) && u in anc && |anc[u]| >= 2
    ensures var p := anc[u][|anc[u]| - 2]; p in anc && |anc[p]| == |anc[u]| - 1 && Linked(adj, p, u) && u in adj
  {
    assert Stacked(adj, anc, u);
    StackAt(adj, anc, u, |anc[u]| - 2);
    assert Linked(adj, anc[u][|anc[u]| - 2], anc[u][|anc[u]| - 2 + 1]);
  }

  /** The two ends of a reported cycle are at least two levels apart. */
  lemma EndsApart(adj: Adj, anc: map<int, seq<int>>, c: seq<int>)
    requires Forest(adj, anc) && IsFund(adj, anc, c)
    ensures c[0] in anc && c[|c| - 1] in anc && |anc[c[|c| - 1]]| == |anc[c[0]]| + |c| - 1 && |c| >= 3
    ensures c == anc[c[|c| - 1]][|anc[c[0]]| - 1..] && Linked(adj, c[|c| - 1], c[0])
  {
    FundDepth(adj, anc, c, |c| - 1);
  }

  lemma ClosingLinkApart(adj: Adj, anc: map<int, seq<int>>, c: seq<int>, c': seq<int>)
    requires Forest(adj, anc) && IsFund(adj, anc, c) && IsFund(adj, anc, c') && ClosingLink(c) == ClosingLink(c')
    ensures c == c'
  {
    hide Forest, IsFund;
    EndsApart(adj, anc, c);
    EndsApart(adj, anc, c');
  }

  lemma TreeLinksSize(adj: Adj, anc: map<int, seq<int>>)
    requires Forest(adj, anc)
    ensures |TreeLinks(adj, anc)| == |NonRoots(adj, anc)|
  {
    hide Forest;
    var f := u => TreeLink(anc, u);
    forall u, u' | u in NonRoots(adj, anc) && u' in NonRoots(adj, anc) && f(u) == f(u')
      ensures u == u'
    {
      ParentAbove(adj, anc, u);
      ParentAbove(adj, anc, u');
    }
    forall l | l in TreeLinks(adj, anc)
      ensures exists u :: u in NonRoots(adj, anc) && f(u) == l
    {
      var u :| u in NonRoots(adj, anc) && TreeLink(anc, u) == l;
      assert f(u) == l;
    }
    SameSize(NonRoots(adj, anc), TreeLinks(adj, anc), f);
  }

  lemma ClosingLinksSize(adj: Adj, anc: map<int, seq<int>>, loops: seq<seq<int>>)
    requires Forest(adj, anc) && SoundLoops(adj, anc, loops)
    ensures |ClosingLinks(loops)| == |loops|
  {
    var f := c => ClosingLink(c);
    hide Forest, IsFund, ClosingLink;
    forall c, c' | c in LoopSet(loops) && c' in LoopSet(loops) && f(c) == f(c')
      ensures c == c'
    {
      ClosingLinkApart(adj, anc, c, c');
    }
    forall l | l in ClosingLinks(loops)
      ensures exists c :: c in LoopSet(loops) && f(c) == l
    {
      var c :| c in LoopSet(loops) && ClosingLink(c) == l;
      assert f(c) == l;
    }
    SameSize(LoopSet(loops), ClosingLinks(loops), f);
    DistinctSize(loops);
  }

  lemma {:induction false} DistinctSize(loops: seq<seq<int>>)
    requires forall j, k :: 0 <= j < k < |loops| ==> loops[j] != loops[k]
    ensures |LoopSet(loops)| == |loops|
    decreases |loops|
  {
    if loops != [] {
      var n := |loops| - 1;
      DistinctSize(loops[..n]);
      assert loops == loops[..n] + [loops[n]];
      assert LoopSet(loops) == LoopSet(loops[..n]) + {loops[n]};
      assert loops[n] !in LoopSet(loops[..n]);
    }
  }

  lemma TreeIsNotClosing(adj: Adj, anc: map<int, seq<int>>, u: int, c: seq<int>)
    requires Forest(adj, anc) && u in NonRoots(adj, anc) && IsFund(adj, anc, c)
    ensures TreeLink(anc, u) != ClosingLink(c)
  {
    ParentAbove(adj, anc, u);
    EndsApart(adj, anc, c);
  }

  /** Every link is a tree link or closes a reported cycle. */
  lemma LinkIsTreeOrClosing(adj: Adj, anc: map<int, seq<int>>, loops: seq<seq<int>>, x: int, y: int)
    requires Finished(adj, anc, loops) && Linked(adj, x, y) && x in anc && y in anc && anc[x] <= anc[y]
    ensures Pair(x, y) in TreeLinks(adj, anc) || Pair(x, y) in ClosingLinks(loops)
  {
    hide Finished, Forest;
    FinishedFacts(adj, anc, loops);
    ProperPrefix(adj, anc, x, y);
    if |anc[y]| >= |anc[x]| + 2 {
      BackLinkIsFund(adj, anc, x, y);
      var c := anc[y][|anc[x]| - 1..];
      assert c in LoopSet(loops) && ClosingLink(c) == Pair(x, y);
    } else {
      ParentAbove(adj, anc, y);
      StackNonempty(adj, anc, x);
      assert anc[y][|anc[y]| - 2] == x;
      assert y in NonRoots(adj, anc) && TreeLink(anc, y) == Pair(x, y);
    }
  }

  lemma LinksSplit(adj: Adj, anc: map<int, seq<int>>, loops: seq<seq<int>>)
    requires Finished(adj, anc, loops)
    ensures Links(adj) == TreeLinks(adj, anc) + ClosingLinks(loops)
    ensures TreeLinks(adj, anc) !! ClosingLinks(loops)
  {
    hide Finished, Forest, TreeLink, ClosingLink;
    FinishedFacts(adj, anc, loops);
    forall x, y | (x, y) in Links(adj)
      ensures (x, y) in TreeLinks(adj, anc) + ClosingLinks(loops)
    {
      assert Linked(adj, x, y);
      if anc[x] <= anc[y] {
        LinkIsTreeOrClosing(adj, anc, loops, x, y);
      } else {
        LinkIsTreeOrClosing(adj, anc, loops, y, x);
      }
    }
    forall l | l in TreeLinks(adj, anc)
      ensures l in Links(adj) && l !in ClosingLinks(loops)
    {
      var u :| u in NonRoots(adj, anc) && TreeLink(anc, u) == l;
      TreeLinkIsLink(adj, anc, loops, u);
      forall c | c in LoopSet(loops)
        ensures ClosingLink(c) != l
      {
        TreeIsNotClosing(adj, anc, u, c);
      }
    }
    forall l | l in ClosingLinks(loops)
      ensures l in Links(adj)
    {
      var c :| c in LoopSet(loops) && ClosingLink(c) == l;
      ClosingLinkIsLink(adj, anc, loops, c);
    }
  }

  lemma TreeLinkIsLink(adj: Adj, anc: map<int, seq<int>>, loops: seq<seq<int>>, u: int)
    requires Finished(adj, anc, loops) && u in NonRoots(adj, anc)
    ensures TreeLink(anc, u) in Links(adj)
  {
    hide Finished, Forest;
    FinishedFacts(adj, anc, loops);
    ParentAbove(adj, anc, u);
    SortedIsLink(adj, anc[u][|anc[u]| - 2], u);
  }

  lemma ClosingLinkIsLink(adj: Adj, anc: map<int, seq<int>>, loops: seq<seq<int>>, c: seq<int>)
    requires Finished(adj, anc, loops) && c in loops
    ensures ClosingLink(c) in Links(adj)
  {
    hide Finished, Forest;
    FinishedFacts(adj, anc, loops);
    EndsApart(adj, anc, c);
    SortedIsLink(adj, c[0], c[|c| - 1]);
  }

  lemma SortedIsLink(adj: Adj, u: int, v: int)
    requires u != v && Linked(adj, u, v) && Linked(adj, v, u)
    ensures Pair(u, v) in Links(adj)
  {
  }

  /** The number of reported cycles is the number of independent loops: links
      minus devices plus connected components. */
  lemma ReportCount(adj: Adj, anc: map<int, seq<int>>, loops: seq<seq<int>>)
    requires Finished(adj, anc, loops)
    ensures |loops| == |Links(adj)| - |adj.Keys| + |Components(adj)|
  {
    FinishedFacts(adj, anc, loops);
    hide Forest, Links, TreeLinks, ClosingLinks, Components, SoundLoops, Settled, CompleteLoops;
    LinksSplit(adj, anc, loops);
    TreeLinksSize(adj, anc);
    ClosingLinksSize(adj, anc, loops);
    ComponentsAreRoots(adj, anc, loops);
    DevicesSplit(adj, anc);
  }

  lemma DevicesSplit(adj: Adj, anc: map<int, seq<int>>)
    requires Forest(adj, anc) && forall x :: x in anc <==> x in adj
    ensures |adj.Keys| == |Roots(adj, anc)| + |NonRoots(adj, anc)|
  {
    hide Forest;
    var r, n := Roots(adj, anc), NonRoots(adj, anc);
    forall x | x in adj.Keys
      ensures x in r + n
    {
      StackNonempty(adj, anc, x);
    }
    assert adj.Keys == r + n && r !! n;
  }
}
