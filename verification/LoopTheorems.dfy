/** What the report of a finished search says about the graph. */
module LoopTheorems {
  import opened Graph
  import opened CycleKey
  import opened DfsForest
  import opened DfsSteps

  function Next(path: seq<int>, i: nat): int
    requires i < |path|
  {
    path[if i + 1 < |path| then i + 1 else 0]
  }

  /** A simple closed walk of at least three devices. */
  ghost predicate IsLoop(adj: Adj, c: seq<int>) {
    |c| >= 3 && Distinct(c) && forall i :: 0 <= i < |c| ==> Linked(adj, c[i], Next(c, i))
  }

  ghost predicate HasStep(c: seq<int>, i: nat, x: int, y: int)
    requires i < |c|
  {
    (c[i] == x && Next(c, i) == y) || (c[i] == y && Next(c, i) == x)
  }

  /** The link between `x` and `y` is one of the loop's steps. */
  ghost predicate OnLoop(c: seq<int>, x: int, y: int) {
    exists i :: 0 <= i < |c| && HasStep(c, i, x, y)
  }

  ghost predicate OnSomeLoop(loops: seq<seq<int>>, x: int, y: int) {
    exists k :: 0 <= k < |loops| && OnLoop(loops[k], x, y)
  }

  ghost function WithoutLink(adj: Adj, x: int, y: int): set<(int, int)> {
    set u, v | u in adj && v in adj[u] && (u, v) != (x, y) && (u, v) != (y, x) :: (u, v)
  }

  /** Removing the link separates its ends. */
  ghost predicate Bridge(adj: Adj, x: int, y: int) {
    !Reaches(WithoutLink(adj, x, y), x, y)
  }

  /** The search is over: every device has been visited. */
  ghost predicate Finished(adj: Adj, anc: map<int, seq<int>>, loops: seq<seq<int>>) {
    Simple(adj) && Inv(adj, anc, [], loops) && forall x :: x in anc <==> x in adj
  }

  lemma FinishedFacts(adj: Adj, anc: map<int, seq<int>>, loops: seq<seq<int>>)
    requires Finished(adj, anc, loops)
    ensures Simple(adj) && Forest(adj, anc) && (forall x :: x in anc <==> x in adj)
    ensures forall u, v :: Linked(adj, u, v) ==>
        u in anc && v in anc && Related(anc, u, v) && Linked(adj, v, u) && u != v
    ensures forall c :: IsFund(adj, anc, c) <==> c in loops
  {
    forall u, v | Linked(adj, u, v)
      ensures u in anc && v in anc && Related(anc, u, v) && Linked(adj, v, u) && u != v
    {
      assert u in anc && u !in [];
    }
  }

  lemma FundIsLoop(adj: Adj, anc: map<int, seq<int>>, c: seq<int>)
    requires Forest(adj, anc) && IsFund(adj, anc, c)
    ensures IsLoop(adj, c)
  {
    FundDistinct(adj, anc, c);
    var t := c[|c| - 1];
    var s := anc[t];
    var b := |s| - |c|;
    assert Stacked(adj, anc, t);
    forall i | 0 <= i < |c|
      ensures Linked(adj, c[i], Next(c, i))
    {
      if i + 1 < |c| {
        assert c[i] == s[b + i] && c[i + 1] == s[b + i + 1];
        assert Linked(adj, s[b + i], s[b + i + 1]);
      }
    }
  }

  // ----- a link on a loop is no bridge

  lemma WithoutSymmetric(adj: Adj, x: int, y: int)
    requires Simple(adj)
    ensures Symmetric(WithoutLink(adj, x, y)) && WithoutLink(adj, x, y) == WithoutLink(adj, y, x)
  {
    forall u, v | (u, v) in WithoutLink(adj, x, y)
      ensures (v, u) in WithoutLink(adj, x, y)
    {
      assert u in adj[v];
    }
  }

  /** Another step of the loop does not use the link. */
  lemma OtherStep(adj: Adj, c: seq<int>, i: nat, p: nat)
    requires IsLoop(adj, c) && i < |c| && p < |c| && p != i
    ensures (c[p], Next(c, p)) in WithoutLink(adj, c[i], Next(c, i))
  {
    assert Linked(adj, c[p], Next(c, p));
    var n := |c|;
    var i', p' := if i + 1 < n then i + 1 else 0, if p + 1 < n then p + 1 else 0;
    assert c[p] != c[i];
    assert p == i' ==> p' != i;
  }

  lemma DetourStep(adj: Adj, c: seq<int>, i: nat, j: nat)
    requires IsLoop(adj, c) && i < |c| && j < |c| - 1
    ensures Step(WithoutLink(adj, c[i], Next(c, i)), Rotation(c, i + 1), j)
  {
    hide Rotation, IsLoop, WithoutLink;
    var n, w := |c|, Rotation(c, i + 1);
    RotationAt(c, i + 1, j);
    RotationAt(c, i + 1, j + 1);
    var p := if i + 1 + j < n then i + 1 + j else i + 1 + j - n;
    OtherStep(adj, c, i, p);
    assert w[j] == c[p];
    assert w[j + 1] == Next(c, p);
  }

  /** Going round the loop the other way avoids the link. */
  lemma LoopDetour(adj: Adj, c: seq<int>, i: nat)
    requires IsLoop(adj, c) && i < |c|
    ensures IsWalk(WithoutLink(adj, c[i], Next(c, i)), Rotation(c, i + 1), Next(c, i), c[i])
  {
    hide Rotation, IsLoop, WithoutLink, Step;
    RotationAt(c, i + 1, 0);
    RotationAt(c, i + 1, |c| - 1);
    var g, w := WithoutLink(adj, c[i], Next(c, i)), Rotation(c, i + 1);
    forall j | 0 <= j < |w| - 1
      ensures Step(g, w, j)
    {
      DetourStep(adj, c, i, j);
    }
  }

  lemma LoopLinkIsNoBridge(adj: Adj, c: seq<int>, x: int, y: int)
    requires Simple(adj) && IsLoop(adj, c) && OnLoop(c, x, y)
    ensures !Bridge(adj, x, y)
  {
    var i :| 0 <= i < |c| && HasStep(c, i, x, y);
    LoopDetour(adj, c, i);
    var g := WithoutLink(adj, x, y);
    WithoutSymmetric(adj, x, y);
    var w := Rotation(c, i + 1);
    if c[i] == x && Next(c, i) == y {
      WalkReverse(g, w, y, x);
    }
  }

  // ----- a link that is no bridge is reported

  lemma PrefixesCompare(a: seq<int>, b: seq<int>, c: seq<int>)
    requires a <= c && b <= c
    ensures a <= b || b <= a
    ensures |a| <= |b| ==> a <= b
  {
    assert a == c[..|a|] && b == c[..|b|];
    assert |a| <= |b| ==> c[..|b|][..|a|] == c[..|a|];
    assert |b| <= |a| ==> c[..|a|][..|b|] == c[..|b|];
  }

  /** A link between a device and one at least two levels above it closes a reported cycle. */
  lemma BackLinkIsFund(adj: Adj, anc: map<int, seq<int>>, b: int, a: int)
    requires Forest(adj, anc) && a in anc && b in anc && Linked(adj, a, b) && anc[b] <= anc[a]
    requires |anc[a]| >= |anc[b]| + 2
    ensures |anc[b]| > 0 && IsFund(adj, anc, anc[a][|anc[b]| - 1..])
    ensures anc[a][|anc[b]| - 1..][0] == b && anc[a][|anc[b]| - 1..][|anc[a]| - |anc[b]|] == a
  {
    assert Stacked(adj, anc, a) && Stacked(adj, anc, b);
    var c := anc[a][|anc[b]| - 1..];
    assert c[|c| - 1] == a && c[0] == anc[b][|anc[b]| - 1];
  }

  lemma EndsVisited(anc: map<int, seq<int>>, g: set<(int, int)>, a: int, b: int)
    requires (forall u, v :: (u, v) in g ==> u in anc && v in anc) && (a, b) in g
    ensures a in anc && b in anc
  {
  }

  /** Where a walk leaves the devices below `y`. */
  lemma {:induction false} LeavesSubtree(anc: map<int, seq<int>>, g: set<(int, int)>, w: seq<int>, s: int, t: int,
                                         y: int) returns (a: int, b: int)
    requires IsWalk(g, w, s, t) && y in anc && (forall u, v :: (u, v) in g ==> u in anc && v in anc)
    requires s in anc && t in anc && anc[y] <= anc[s] && !(anc[y] <= anc[t])
    ensures (a, b) in g && a in anc && b in anc && anc[y] <= anc[a] && !(anc[y] <= anc[b])
    decreases |w|
  {
    assert |w| > 1;
    var n := |w| - 2;
    assert Step(g, w, n);
    EndsVisited(anc, g, w[n], t);
    if anc[y] <= anc[w[n]] {
      a, b := w[n], t;
    } else {
      WalkPrefix(g, w, s, t, n);
      a, b := LeavesSubtree(anc, g, w[..n + 1], s, w[n], y);
    }
  }

  /** A link from below `y` to outside, other than the link to its parent, leads
      above the parent, and its cycle passes over both. */
  lemma CrossingLink(adj: Adj, anc: map<int, seq<int>>, x: int, y: int, a: int, b: int)
    requires Forest(adj, anc) && x in anc && y in anc && a in anc && b in anc
    requires anc[x] <= anc[y] && |anc[y]| == |anc[x]| + 1
    requires Linked(adj, a, b) && Related(anc, a, b) && (a, b) != (y, x)
    requires anc[y] <= anc[a] && !(anc[y] <= anc[b])
    ensures anc[b] <= anc[a] && |anc[a]| >= |anc[b]| + 2 && 0 < |anc[b]| <= |anc[x]|
  {
    assert Stacked(adj, anc, a) && Stacked(adj, anc, b) && Stacked(adj, anc, x) && Stacked(adj, anc, y);
    PrefixesCompare(anc[y], anc[b], anc[a]);
    PrefixesCompare(anc[b], anc[x], anc[a]);
    if |anc[a]| < |anc[b]| + 2 {
      assert false;
    }
  }

  lemma CrossingCycle(adj: Adj, anc: map<int, seq<int>>, x: int, y: int, a: int, b: int)
    requires Forest(adj, anc) && x in anc && y in anc && a in anc && b in anc && Linked(adj, a, b)
    requires anc[x] <= anc[y] <= anc[a] && |anc[y]| == |anc[x]| + 1
    requires anc[b] <= anc[a] && |anc[a]| >= |anc[b]| + 2 && 0 < |anc[b]| <= |anc[x]|
    ensures IsFund(adj, anc, anc[a][|anc[b]| - 1..]) && OnLoop(anc[a][|anc[b]| - 1..], x, y)
  {
    BackLinkIsFund(adj, anc, b, a);
    assert Stacked(adj, anc, x) && Stacked(adj, anc, y);
    var c, i := anc[a][|anc[b]| - 1..], |anc[x]| - |anc[b]|;
    assert c[i] == anc[a][|anc[x]| - 1] == anc[x][|anc[x]| - 1] == x;
    assert c[i + 1] == anc[a][|anc[x]|] == anc[y][|anc[x]|] == y;
    assert HasStep(c, i, x, y);
  }

  lemma NonBridgeBelow(adj: Adj, anc: map<int, seq<int>>, loops: seq<seq<int>>, x: int, y: int)
    requires Finished(adj, anc, loops) && Linked(adj, x, y) && x in anc && y in anc && anc[x] <= anc[y]
    requires Reaches(WithoutLink(adj, x, y), y, x)
    ensures OnSomeLoop(loops, x, y)
  {
    hide Finished, Forest, Simple;
    FinishedFacts(adj, anc, loops);
    ProperPrefix(adj, anc, x, y);
    var c;
    if |anc[y]| >= |anc[x]| + 2 {
      BackLinkIsFund(adj, anc, x, y);
      c := anc[y][|anc[x]| - 1..];
      assert HasStep(c, |c| - 1, x, y);
    } else {
      var g := WithoutLink(adj, x, y);
      var w :| IsWalk(g, w, y, x);
      WithoutLinked(adj, anc, x, y);
      var a, b := LeavesSubtree(anc, g, w, y, x, y);
      assert Linked(adj, a, b);
      CrossingLink(adj, anc, x, y, a, b);
      CrossingCycle(adj, anc, x, y, a, b);
      c := anc[a][|anc[b]| - 1..];
    }
    assert c in loops;
    var k :| 0 <= k < |loops| && loops[k] == c;
    assert OnLoop(loops[k], x, y);
  }

  lemma ProperPrefix(adj: Adj, anc: map<int, seq<int>>, x: int, y: int)
    requires Forest(adj, anc) && x in anc && y in anc && x != y && anc[x] <= anc[y]
    ensures 0 < |anc[x]| < |anc[y]|
  {
    assert Stacked(adj, anc, x) && Stacked(adj, anc, y);
  }

  lemma WithoutLinked(adj: Adj, anc: map<int, seq<int>>, x: int, y: int)
    requires Simple(adj) && forall v :: v in anc <==> v in adj
    ensures forall u, v :: (u, v) in WithoutLink(adj, x, y) ==>
        u in anc && v in anc && Linked(adj, u, v) && (u, v) != (y, x)
  {
    forall u, v | (u, v) in WithoutLink(adj, x, y)
      ensures u in anc && v in anc
    {
      assert v in adj[u];
    }
  }

  /** A link lies on a reported cycle exactly when it is not a bridge. */
  lemma ReportedIffNotBridge(adj: Adj, anc: map<int, seq<int>>, loops: seq<seq<int>>, x: int, y: int)
    requires Finished(adj, anc, loops) && Linked(adj, x, y)
    ensures OnSomeLoop(loops, x, y) <==> !Bridge(adj, x, y)
  {
    hide Finished, Forest, Simple, Linked;
    FinishedFacts(adj, anc, loops);
    if OnSomeLoop(loops, x, y) {
      var k :| 0 <= k < |loops| && OnLoop(loops[k], x, y);
      assert loops[k] in loops;
      FundIsLoop(adj, anc, loops[k]);
      LoopLinkIsNoBridge(adj, loops[k], x, y);
    }
    if !Bridge(adj, x, y) {
      var w :| IsWalk(WithoutLink(adj, x, y), w, x, y);
      WithoutSymmetric(adj, x, y);
      if anc[x] <= anc[y] {
        WalkReverse(WithoutLink(adj, x, y), w, x, y);
        NonBridgeBelow(adj, anc, loops, x, y);
      } else {
        NonBridgeBelow(adj, anc, loops, y, x);
        OnSomeLoopEither(loops, x, y);
      }
    }
  }

  lemma OnSomeLoopEither(loops: seq<seq<int>>, x: int, y: int)
    requires OnSomeLoop(loops, y, x)
    ensures OnSomeLoop(loops, x, y)
  {
    var k :| 0 <= k < |loops| && OnLoop(loops[k], y, x);
    var i :| 0 <= i < |loops[k]| && HasStep(loops[k], i, y, x);
    assert HasStep(loops[k], i, x, y);
  }
}
