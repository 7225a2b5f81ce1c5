/** The forest a depth-first search leaves behind: every visited device keeps
    the stack of devices that led to it.  Ancestry is the prefix order of these
    stacks. */
module DfsForest {
  import opened Graph
  import opened CycleKey

  /** What the graph builders guarantee: positive ids, links seen from both
      ends, no self links, no duplicates. */
  ghost predicate Simple(adj: Adj) {
    && (forall u :: u in adj ==> u > 0 && Distinct(adj[u]))
    && (forall u, v :: u in adj && v in adj[u] ==> v in adj && v != u && u in adj[v])
  }

  predicate Linked(adj: Adj, u: int, v: int) {
    u in adj && v in adj[u]
  }

  /** `u` was reached along the stack `anc[u]`. */
  ghost predicate Stacked(adj: Adj, anc: map<int, seq<int>>, u: int)
    requires u in anc
  {
    var s := anc[u];
    && |s| > 0 && s[|s| - 1] == u && u in adj
    && (forall i :: 0 <= i < |s| ==> s[i] in anc && anc[s[i]] == s[..i + 1])
    && (forall i :: 0 <= i < |s| - 1 ==> Linked(adj, s[i], s[i + 1]))
  }

  ghost predicate Forest(adj: Adj, anc: map<int, seq<int>>) {
    forall u :: u in anc ==> Stacked(adj, anc, u)
  }

  /** One of the two devices lies on the stack of the other. */
  ghost predicate Related(anc: map<int, seq<int>>, u: int, v: int)
    requires u in anc && v in anc
  {
    anc[u] <= anc[v] || anc[v] <= anc[u]
  }

  /** A stack segment closed by one link: what the search reports. */
  ghost predicate IsFund(adj: Adj, anc: map<int, seq<int>>, c: seq<int>) {
    && |c| >= 3 && c[|c| - 1] in anc && c[|c| - 1] in adj
    && |c| <= |anc[c[|c| - 1]]| && c == anc[c[|c| - 1]][|anc[c[|c| - 1]]| - |c|..]
    && c[0] in adj[c[|c| - 1]]
  }

  lemma StackAt(adj: Adj, anc: map<int, seq<int>>, u: int, i: nat)
    requires Forest(adj, anc) && u in anc && i < |anc[u]|
    ensures anc[u][i] in anc && anc[anc[u][i]] == anc[u][..i + 1] && |anc[anc[u][i]]| == i + 1
  {
    assert Stacked(adj, anc, u);
  }

  /** Depth rises by one along a reported cycle. */
  lemma FundDepth(adj: Adj, anc: map<int, seq<int>>, c: seq<int>, i: nat)
    requires Forest(adj, anc) && IsFund(adj, anc, c) && i < |c|
    ensures c[i] in anc && c[0] in anc && |anc[c[i]]| == |anc[c[0]]| + i && |anc[c[0]]| > 0
  {
    var t := c[|c| - 1];
    var b := |anc[t]| - |c|;
    assert c[i] == anc[t][b + i] && c[0] == anc[t][b];
    StackAt(adj, anc, t, b + i);
    StackAt(adj, anc, t, b);
  }

  lemma FundDistinct(adj: Adj, anc: map<int, seq<int>>, c: seq<int>)
    requires Forest(adj, anc) && IsFund(adj, anc, c)
    ensures Distinct(c)
  {
    forall i, j | 0 <= i < j < |c|
      ensures c[i] != c[j]
    {
      FundDepth(adj, anc, c, i);
      FundDepth(adj, anc, c, j);
    }
  }

  /** Two reported cycles that are the same loop are the same list. */
  lemma FundSameLoop(adj: Adj, anc: map<int, seq<int>>, a: seq<int>, b: seq<int>)
    requires Forest(adj, anc) && IsFund(adj, anc, a) && IsFund(adj, anc, b) && SameLoop(a, b)
    ensures a == b
  {
    if IsRotation(b, a) {
      var k :| 0 <= k <= |a| && b == Rotation(a, k);
      FundNoTurn(adj, anc, a, b, k);
    } else {
      var k :| 0 <= k <= |a| && b == Rotation(Reversed(a), k);
      FundNoMirror(adj, anc, a, b, k);
      assert false;
    }
  }

  lemma FundNoTurn(adj: Adj, anc: map<int, seq<int>>, a: seq<int>, b: seq<int>, k: nat)
    requires Forest(adj, anc) && IsFund(adj, anc, a) && IsFund(adj, anc, b) && k <= |a| && b == Rotation(a, k)
    ensures a == b
  {
    var n := |a|;
    if 0 < k < n {
      hide Rotation, IsFund, Forest;
      RotationAt(a, k, 0);
      RotationAt(a, k, n - k);
      FundDepth(adj, anc, a, k);
      FundDepth(adj, anc, b, n - k);
      assert false;
    }
  }

  lemma FundNoMirror(adj: Adj, anc: map<int, seq<int>>, a: seq<int>, b: seq<int>, k: nat)
    requires Forest(adj, anc) && IsFund(adj, anc, a) && IsFund(adj, anc, b) && k <= |a|
    ensures b != Rotation(Reversed(a), k)
  {
    var n, r := |a|, Reversed(a);
    if b == Rotation(r, k) {
      hide Rotation, IsFund, Forest, Reversed;
      RotationAt(r, k, 0);
      RotationAt(r, k, 1);
      RotationAt(r, k, 2);
      FundDepth(adj, anc, b, 1);
      FundDepth(adj, anc, b, 2);
      FundDepth(adj, anc, a, if k + 1 < n then n - 2 - k else if k == n then n - 2 else n - 1);
      FundDepth(adj, anc, a, if k < n then n - 1 - k else n - 1);
      assert false;
    }
  }

  lemma FundKeysDiffer(adj: Adj, anc: map<int, seq<int>>, a: seq<int>, b: seq<int>)
    requires Forest(adj, anc) && IsFund(adj, anc, a) && IsFund(adj, anc, b) && a != b
    ensures Key(a) != Key(b)
  {
    if Key(a) == Key(b) {
      SameKeySameLoop(a, b);
      FundSameLoop(adj, anc, a, b);
    }
  }
}
