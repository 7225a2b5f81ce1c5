/** What each step of the depth-first loop search keeps. */
module DfsSteps {
  import opened Graph
  import opened DfsForest

  /** The current path is the stack of its last device. */
  ghost predicate OnStack(anc: map<int, seq<int>>, path: seq<int>) {
    path == [] || (path[|path| - 1] in anc && anc[path[|path| - 1]] == path)
  }

  /** Every link of a finished device leads to one of its ancestors or descendants. */
  ghost predicate Settled(adj: Adj, anc: map<int, seq<int>>, path: seq<int>) {
    forall f, v :: f in anc && f !in path && Linked(adj, f, v) ==> v in anc && Related(anc, f, v)
  }

  ghost predicate SoundLoops(adj: Adj, anc: map<int, seq<int>>, loops: seq<seq<int>>) {
    && (forall k :: 0 <= k < |loops| ==> IsFund(adj, anc, loops[k]))
    && (forall j, k :: 0 <= j < k < |loops| ==> loops[j] != loops[k])
  }

  /** Nothing closed by a finished device is missing. */
  ghost predicate CompleteLoops(adj: Adj, anc: map<int, seq<int>>, path: seq<int>, loops: seq<seq<int>>) {
    forall c :: IsFund(adj, anc, c) && c[|c| - 1] !in path ==> c in loops
  }

  ghost predicate Inv(adj: Adj, anc: map<int, seq<int>>, path: seq<int>, loops: seq<seq<int>>) {
    && Forest(adj, anc) && OnStack(anc, path) && Settled(adj, anc, path)
    && SoundLoops(adj, anc, loops) && CompleteLoops(adj, anc, path, loops)
  }

  ghost predicate Among(s: seq<int>, i: nat, x: int) {
    exists j :: 0 <= j < i && j < |s| && s[j] == x
  }

  ghost predicate RelatedUpTo(adj: Adj, anc: map<int, seq<int>>, u: int, i: nat) {
    && u in anc && u in adj && i <= |adj[u]|
    && forall j :: 0 <= j < i ==> adj[u][j] in anc && Related(anc, u, adj[u][j])
  }

  ghost predicate ClosedUpTo(adj: Adj, anc: map<int, seq<int>>, u: int, i: nat, loops: seq<seq<int>>) {
    u in adj && forall c :: IsFund(adj, anc, c) && c[|c| - 1] == u && Among(adj[u], i, c[0]) ==> c in loops
  }

  ghost predicate OnlyUpTo(adj: Adj, u: int, i: nat, loops: seq<seq<int>>) {
    && u in adj
    && forall k :: 0 <= k < |loops| && |loops[k]| > 0 && loops[k][|loops[k]| - 1] == u ==>
         Among(adj[u], i, loops[k][0])
  }

  /** The first `i` neighbours of `u`, the end of the path, have been dealt with. */
  ghost predicate Scanned(adj: Adj, anc: map<int, seq<int>>, u: int, i: nat, loops: seq<seq<int>>) {
    RelatedUpTo(adj, anc, u, i) && ClosedUpTo(adj, anc, u, i, loops) && OnlyUpTo(adj, u, i, loops)
  }

  lemma AmongNext(s: seq<int>, i: nat, x: int)
    requires i < |s|
    ensures Among(s, i + 1, x) <==> Among(s, i, x) || x == s[i]
  {
  }

  /** Devices visited since then hang below `base`, and their cycles end at them. */
  ghost predicate Extends(anc0: map<int, seq<int>>, anc: map<int, seq<int>>, base: seq<int>, loops0: seq<seq<int>>,
                          loops: seq<seq<int>>) {
    && (forall x :: x in anc0 ==> x in anc && anc[x] == anc0[x])
    && (forall x :: x in anc && x !in anc0 ==> base <= anc[x])
    && loops0 <= loops
    && (forall k :: |loops0| <= k < |loops| ==> |loops[k]| > 0 && loops[k][|loops[k]| - 1] !in anc0)
  }

  lemma PathMember(adj: Adj, anc: map<int, seq<int>>, path: seq<int>, x: int)
    requires Forest(adj, anc) && OnStack(anc, path) && x in path
    ensures x in anc && anc[x] <= path
  {
    var i :| 0 <= i < |path| && path[i] == x;
    StackAt(adj, anc, path[|path| - 1], i);
  }

  lemma EnterStacked(adj: Adj, anc: map<int, seq<int>>, path: seq<int>, u: int, x: int)
    requires Forest(adj, anc) && OnStack(anc, path) && u !in anc && u in adj
    requires path != [] ==> Linked(adj, path[|path| - 1], u)
    requires x in anc || x == u
    ensures Stacked(adj, anc[u := path + [u]], x)
  {
    var anc' := anc[u := path + [u]];
    if x == u {
      var s := path + [u];
      if path != [] {
        var t := path[|path| - 1];
        assert Stacked(adj, anc, t);
        forall i | 0 <= i < |path|
          ensures s[i] in anc' && anc'[s[i]] == s[..i + 1]
        {
          assert s[i] == path[i] && anc[path[i]] == path[..i + 1] && s[..i + 1] == path[..i + 1];
        }
        forall i | 0 <= i < |s| - 1
          ensures Linked(adj, s[i], s[i + 1])
        {
          assert i < |path| - 1 ==> Linked(adj, path[i], path[i + 1]);
        }
      }
      assert s[..|s|] == s;
    } else {
      assert Stacked(adj, anc, x);
    }
  }

  lemma FundSame(adj: Adj, anc: map<int, seq<int>>, anc': map<int, seq<int>>, c: seq<int>)
    requires |c| > 0 && (c[|c| - 1] in anc <==> c[|c| - 1] in anc')
    requires c[|c| - 1] in anc ==> anc'[c[|c| - 1]] == anc[c[|c| - 1]]
    ensures IsFund(adj, anc, c) <==> IsFund(adj, anc', c)
  {
  }

  /** Visiting `u` puts it on the path. */
  lemma Enter(adj: Adj, anc: map<int, seq<int>>, path: seq<int>, u: int, loops: seq<seq<int>>)
    requires Inv(adj, anc, path, loops) && u !in anc && u in adj
    requires path != [] ==> Linked(adj, path[|path| - 1], u)
    ensures Inv(adj, anc[u := path + [u]], path + [u], loops)
    ensures Scanned(adj, anc[u := path + [u]], u, 0, loops)
    ensures Extends(anc, anc[u := path + [u]], path + [u], loops, loops)
  {
    hide Forest, Settled, SoundLoops, CompleteLoops, Scanned, Linked;
    EnterForest(adj, anc, path, u);
    EnterSettled(adj, anc, path, u);
    EnterSound(adj, anc, path, u, loops);
    EnterComplete(adj, anc, path, u, loops);
    EnterScanned(adj, anc, path, u, loops);
  }

  lemma EnterForest(adj: Adj, anc: map<int, seq<int>>, path: seq<int>, u: int)
    requires Forest(adj, anc) && OnStack(anc, path) && u !in anc && u in adj
    requires path != [] ==> Linked(adj, path[|path| - 1], u)
    ensures Forest(adj, anc[u := path + [u]])
  {
    hide Stacked;
    var anc' := anc[u := path + [u]];
    forall x | x in anc'
      ensures Stacked(adj, anc', x)
    {
      EnterStacked(adj, anc, path, u, x);
    }
  }

  lemma EnterSettled(adj: Adj, anc: map<int, seq<int>>, path: seq<int>, u: int)
    requires Settled(adj, anc, path) && u !in anc
    ensures Settled(adj, anc[u := path + [u]], path + [u])
  {
    var p := path + [u];
    assert forall x :: x in p <==> x in path || x == u;
  }

  lemma EnterSound(adj: Adj, anc: map<int, seq<int>>, path: seq<int>, u: int, loops: seq<seq<int>>)
    requires SoundLoops(adj, anc, loops) && u !in anc
    ensures SoundLoops(adj, anc[u := path + [u]], loops)
  {
    FundSizes(adj, anc);
    hide IsFund;
    var anc' := anc[u := path + [u]];
    forall k | 0 <= k < |loops|
      ensures IsFund(adj, anc', loops[k])
    {
      assert IsFund(adj, anc, loops[k]) && FundSize(adj, anc, loops[k]);
      FundSame(adj, anc, anc', loops[k]);
    }
  }

  lemma EnterComplete(adj: Adj, anc: map<int, seq<int>>, path: seq<int>, u: int, loops: seq<seq<int>>)
    requires CompleteLoops(adj, anc, path, loops) && u !in anc
    ensures CompleteLoops(adj, anc[u := path + [u]], path + [u], loops)
  {
    var anc', p := anc[u := path + [u]], path + [u];
    FundSizes(adj, anc');
    hide IsFund;
    assert forall x :: x in p <==> x in path || x == u;
    forall c | IsFund(adj, anc', c) && FundSize(adj, anc', c) && c[|c| - 1] !in p
      ensures c in loops
    {
      FundSame(adj, anc, anc', c);
      FundSizes(adj, anc);
    }
  }

  lemma EnterScanned(adj: Adj, anc: map<int, seq<int>>, path: seq<int>, u: int, loops: seq<seq<int>>)
    requires SoundLoops(adj, anc, loops) && u !in anc && u in adj
    ensures Scanned(adj, anc[u := path + [u]], u, 0, loops)
  {
    FundSizes(adj, anc);
    FundSizes(adj, anc[u := path + [u]]);
    hide IsFund;
  }

  /** No reported cycle ends at `u` and starts at a device off its stack, or at its parent. */
  lemma NoFundFrom(adj: Adj, anc: map<int, seq<int>>, u: int, v: int, c: seq<int>)
    requires Forest(adj, anc) && u in anc && IsFund(adj, anc, c) && c[|c| - 1] == u && c[0] == v
    ensures v in anc[u] && (|anc[u]| >= 2 ==> v != anc[u][|anc[u]| - 2])
  {
    var s := anc[u];
    assert c[0] == s[|s| - |c|];
    StackAt(adj, anc, u, |s| - |c|);
    StackAt(adj, anc, u, |s| - 2);
  }

  /** Skipping a neighbour that closes no cycle. */
  lemma ScanSkips(adj: Adj, anc: map<int, seq<int>>, u: int, i: nat, loops: seq<seq<int>>)
    requires Forest(adj, anc) && Scanned(adj, anc, u, i, loops) && i < |adj[u]|
    requires adj[u][i] in anc && Related(anc, u, adj[u][i])
    requires adj[u][i] in anc[u] ==> |anc[u]| >= 2 && adj[u][i] == anc[u][|anc[u]| - 2]
    ensures Scanned(adj, anc, u, i + 1, loops)
  {
    hide IsFund, Forest, Among, Related;
    var v := adj[u][i];
    forall c | IsFund(adj, anc, c) && FundSize(adj, anc, c) && c[|c| - 1] == u && Among(adj[u], i + 1, c[0])
      ensures c in loops
    {
      AmongNext(adj[u], i, c[0]);
      if c[0] == v {
        NoFundFrom(adj, anc, u, v, c);
      }
    }
    FundSizes(adj, anc);
    forall k | 0 <= k < |loops| && |loops[k]| > 0 && loops[k][|loops[k]| - 1] == u
      ensures Among(adj[u], i + 1, loops[k][0])
    {
      AmongNext(adj[u], i, loops[k][0]);
    }
  }

  ghost predicate FundSize(adj: Adj, anc: map<int, seq<int>>, c: seq<int>) {
    |c| >= 3 && c[|c| - 1] in anc
  }

  lemma FundSizes(adj: Adj, anc: map<int, seq<int>>)
    ensures forall c :: IsFund(adj, anc, c) ==> FundSize(adj, anc, c)
  {
  }

  /** A neighbour on the path closes a cycle that was not reported before. */
  lemma ScanCloses(adj: Adj, anc: map<int, seq<int>>, path: seq<int>, u: int, i: nat, loops: seq<seq<int>>, p: nat)
    requires Simple(adj) && Inv(adj, anc, path, loops) && Scanned(adj, anc, u, i, loops) && i < |adj[u]|
    requires path != [] && path[|path| - 1] == u && p < |path| && path[p] == adj[u][i]
    requires |path| >= 2 ==> adj[u][i] != path[|path| - 2]
    ensures IsFund(adj, anc, path[p..]) && path[p..] !in loops && |path[p..]| >= 3
    ensures Inv(adj, anc, path, loops + [path[p..]]) && Scanned(adj, anc, u, i + 1, loops + [path[p..]])
  {
    hide Forest, Inv, Scanned, Simple, OnlyUpTo, IsFund;
    ScanFacts(adj, anc, path, u, i, loops);
    ClosingIsFund(adj, anc, path, u, i, p);
    FundSizes(adj, anc);
    ClosingIsNew(adj, u, i, loops, path[p..]);
    ClosedScan(adj, anc, path, u, i, loops, p);
    AddLoop(adj, anc, path, loops, path[p..]);
  }

  lemma ScanFacts(adj: Adj, anc: map<int, seq<int>>, path: seq<int>, u: int, i: nat, loops: seq<seq<int>>)
    requires Inv(adj, anc, path, loops) && Scanned(adj, anc, u, i, loops) && path != [] && path[|path| - 1] == u
    ensures Forest(adj, anc) && u in anc && anc[u] == path && u in adj && OnlyUpTo(adj, u, i, loops)
  {
  }

  lemma ClosingIsFund(adj: Adj, anc: map<int, seq<int>>, path: seq<int>, u: int, i: nat, p: nat)
    requires Simple(adj) && Forest(adj, anc) && u in adj && i < |adj[u]| && u in anc && path == anc[u]
    requires path != [] && path[|path| - 1] == u && p < |path| && path[p] == adj[u][i]
    requires |path| >= 2 ==> adj[u][i] != path[|path| - 2]
    ensures IsFund(adj, anc, path[p..])
  {
    assert adj[u][i] in adj[u];
    assert path[p] != u;
  }

  lemma ClosingIsNew(adj: Adj, u: int, i: nat, loops: seq<seq<int>>, c: seq<int>)
    requires Simple(adj) && OnlyUpTo(adj, u, i, loops) && i < |adj[u]| && |c| > 0 && c[|c| - 1] == u
    requires c[0] == adj[u][i]
    ensures c !in loops
  {
    assert !Among(adj[u], i, c[0]);
  }

  lemma AddLoop(adj: Adj, anc: map<int, seq<int>>, path: seq<int>, loops: seq<seq<int>>, c: seq<int>)
    requires Inv(adj, anc, path, loops) && IsFund(adj, anc, c) && c !in loops
    ensures Inv(adj, anc, path, loops + [c])
  {
    hide IsFund, Forest, Settled;
    FundSizes(adj, anc);
    var all := loops + [c];
    assert forall x :: x in all <==> x in loops || x == c;
    assert forall k :: 0 <= k < |loops| ==> all[k] == loops[k] && loops[k] in loops;
  }

  lemma ClosedScan(adj: Adj, anc: map<int, seq<int>>, path: seq<int>, u: int, i: nat, loops: seq<seq<int>>, p: nat)
    requires Forest(adj, anc) && Scanned(adj, anc, u, i, loops) && i < |adj[u]| && u in anc
    requires path == anc[u] && p < |path| && path[p] == adj[u][i] && IsFund(adj, anc, path[p..])
    ensures Scanned(adj, anc, u, i + 1, loops + [path[p..]])
  {
    hide Forest, Among;
    var v, c := adj[u][i], path[p..];
    var all := loops + [c];
    assert forall x :: x in all <==> x in loops || x == c;
    StackAt(adj, anc, u, p);
    assert anc[v] <= anc[u];
    forall d | IsFund(adj, anc, d) && d[|d| - 1] == u && Among(adj[u], i + 1, d[0])
      ensures d in all
    {
      AmongNext(adj[u], i, d[0]);
      if d[0] == v {
        StackAt(adj, anc, u, |path| - |d|);
        assert d == path[|path| - |d|..];
      }
    }
    forall k | 0 <= k < |all| && |all[k]| > 0 && all[k][|all[k]| - 1] == u
      ensures Among(adj[u], i + 1, all[k][0])
    {
      AmongNext(adj[u], i, all[k][0]);
      if k < |loops| {
        assert all[k] == loops[k];
      }
    }
  }

  /** A visited neighbour off the path is finished, hence related. */
  lemma VisitedIsRelated(adj: Adj, anc: map<int, seq<int>>, path: seq<int>, u: int, v: int, loops: seq<seq<int>>)
    requires Simple(adj) && Inv(adj, anc, path, loops) && u in anc && v in anc && v !in path && Linked(adj, u, v)
    ensures Related(anc, u, v)
  {
    assert Linked(adj, v, u);
  }

  /** The recursive visit of an unvisited neighbour. */
  lemma ScanDescends(adj: Adj, anc: map<int, seq<int>>, anc': map<int, seq<int>>, path: seq<int>, u: int, i: nat,
                     loops: seq<seq<int>>, loops': seq<seq<int>>)
    requires Forest(adj, anc) && Forest(adj, anc') && Scanned(adj, anc, u, i, loops) && i < |adj[u]| && path == anc[u]
    requires Extends(anc, anc', path + [adj[u][i]], loops, loops')
    requires adj[u][i] !in anc && adj[u][i] in anc'
    ensures Scanned(adj, anc', u, i + 1, loops')
  {
    DescendRelated(adj, anc, anc', path, u, i, loops, loops');
    DescendClosed(adj, anc, anc', path, u, i, loops, loops');
    DescendOnly(adj, anc, anc', path, u, i, loops, loops');
  }

  lemma DescendRelated(adj: Adj, anc: map<int, seq<int>>, anc': map<int, seq<int>>, path: seq<int>, u: int, i: nat,
                       loops: seq<seq<int>>, loops': seq<seq<int>>)
    requires RelatedUpTo(adj, anc, u, i) && i < |adj[u]| && path == anc[u]
    requires Extends(anc, anc', path + [adj[u][i]], loops, loops') && adj[u][i] !in anc && adj[u][i] in anc'
    ensures RelatedUpTo(adj, anc', u, i + 1)
  {
    var v := adj[u][i];
    assert path <= path + [v] <= anc'[v];
  }

  lemma DescendClosed(adj: Adj, anc: map<int, seq<int>>, anc': map<int, seq<int>>, path: seq<int>, u: int, i: nat,
                      loops: seq<seq<int>>, loops': seq<seq<int>>)
    requires Forest(adj, anc) && Forest(adj, anc') && u in anc && u in adj && path == anc[u]
    requires ClosedUpTo(adj, anc, u, i, loops) && i < |adj[u]|
    requires Extends(anc, anc', path + [adj[u][i]], loops, loops') && adj[u][i] !in anc && adj[u][i] in anc'
    ensures ClosedUpTo(adj, anc', u, i + 1, loops')
  {
    var v := adj[u][i];
    assert v !in path by {
      if v in path {
        LastOfStack(adj, anc, u);
        PathMember(adj, anc, path, v);
      }
    }
    forall c | IsFund(adj, anc', c) && c[|c| - 1] == u && Among(adj[u], i + 1, c[0])
      ensures c in loops'
    {
      hide IsFund, Forest, Among;
      FundSizes(adj, anc');
      FundSame(adj, anc, anc', c);
      AmongNext(adj[u], i, c[0]);
      if c[0] == v {
        NoFundFrom(adj, anc', u, v, c);
      } else {
        var k :| 0 <= k < |loops| && loops[k] == c;
        assert loops'[k] == c;
      }
    }
  }

  lemma LastOfStack(adj: Adj, anc: map<int, seq<int>>, u: int)
    requires Forest(adj, anc) && u in anc
    ensures OnStack(anc, anc[u]) && anc[u] != [] && anc[u][|anc[u]| - 1] == u
  {
    assert Stacked(adj, anc, u);
  }

  lemma DescendOnly(adj: Adj, anc: map<int, seq<int>>, anc': map<int, seq<int>>, path: seq<int>, u: int, i: nat,
                    loops: seq<seq<int>>, loops': seq<seq<int>>)
    requires u in anc && OnlyUpTo(adj, u, i, loops) && i < |adj[u]|
    requires Extends(anc, anc', path + [adj[u][i]], loops, loops')
    ensures OnlyUpTo(adj, u, i + 1, loops')
  {
    hide Among;
    forall k | 0 <= k < |loops'| && |loops'[k]| > 0 && loops'[k][|loops'[k]| - 1] == u
      ensures Among(adj[u], i + 1, loops'[k][0])
    {
      assert k < |loops|;
      assert loops'[k] == loops[k];
      AmongNext(adj[u], i, loops'[k][0]);
    }
  }

  lemma ExtendsTransitive(a: map<int, seq<int>>, b: map<int, seq<int>>, c: map<int, seq<int>>, base: seq<int>,
                          lower: seq<int>,
                          la: seq<seq<int>>, lb: seq<seq<int>>, lc: seq<seq<int>>)
    requires Extends(a, b, base, la, lb) && Extends(b, c, lower, lb, lc) && base <= lower
    ensures Extends(a, c, base, la, lc)
  {
    forall k | |la| <= k < |lc|
      ensures |lc[k]| > 0 && lc[k][|lc[k]| - 1] !in a
    {
      if k < |lb| {
        assert lc[k] == lb[k];
      }
      var x := lc[k][|lc[k]| - 1];
      assert x in a ==> x in b;
    }
  }

  /** All neighbours dealt with: `u` leaves the path finished. */
  lemma Leave(adj: Adj, anc: map<int, seq<int>>, path: seq<int>, u: int, loops: seq<seq<int>>)
    requires Inv(adj, anc, path + [u], loops) && u in adj && Scanned(adj, anc, u, |adj[u]|, loops) && OnStack(anc, path)
    ensures Inv(adj, anc, path, loops)
  {
    hide Forest, Settled, SoundLoops, CompleteLoops, RelatedUpTo, ClosedUpTo, OnlyUpTo;
    LeaveSettled(adj, anc, path, u);
    LeaveComplete(adj, anc, path, u, loops);
  }

  lemma LeaveSettled(adj: Adj, anc: map<int, seq<int>>, path: seq<int>, u: int)
    requires Settled(adj, anc, path + [u]) && u in adj && RelatedUpTo(adj, anc, u, |adj[u]|)
    ensures Settled(adj, anc, path)
  {
    var p := path + [u];
    assert forall x :: x in p <==> x in path || x == u;
    forall f, v | f in anc && f !in path && Linked(adj, f, v)
      ensures v in anc && Related(anc, f, v)
    {
      if f == u {
        var j :| 0 <= j < |adj[u]| && adj[u][j] == v;
        assert adj[u][j] in anc;
      }
    }
  }

  lemma LeaveComplete(adj: Adj, anc: map<int, seq<int>>, path: seq<int>, u: int, loops: seq<seq<int>>)
    requires CompleteLoops(adj, anc, path + [u], loops) && u in adj && ClosedUpTo(adj, anc, u, |adj[u]|, loops)
    ensures CompleteLoops(adj, anc, path, loops)
  {
    var p := path + [u];
    assert forall x :: x in p <==> x in path || x == u;
    forall c | IsFund(adj, anc, c) && c[|c| - 1] !in path
      ensures c in loops
    {
      if c[|c| - 1] == u {
        var j :| 0 <= j < |adj[u]| && adj[u][j] == c[0];
        assert Among(adj[u], |adj[u]|, c[0]);
      }
    }
  }
}
