/** The loop finder: a recursive search over the link graph that reports one
    cycle per link it closes. */
module Loops {
  import opened Graph
  import opened CycleKey
  import opened DfsForest
  import opened DfsSteps
  import opened LoopTheorems
  import opened LoopCount

  datatype TopoLink = TopoLink(a: int, b: int, aIf: int, bIf: int, protocol: string)

  datatype Hop = Hop(fromID: int, fromIf: int, toID: int, toIf: Option<int>, protocol: string)

  /** A reported cycle; its key is filled in at the end. */
  datatype TopologyCycle = TopologyCycle(deviceIDs: seq<int>, hops: seq<Hop>, cycleKey: string)

  type LinkIndex = map<(int, int), TopoLink>

  function IfIndex(i: int): Option<int> {
    if i > 0 then Some(i) else None
  }

  /** The hop from one device to the next over the indexed link, read from the
      side it starts on; a missing link reads as all zeros. */
  function HopBetween(from: int, to: int, index: LinkIndex): Hop {
    var l := if Pair(from, to) in index then index[Pair(from, to)] else TopoLink(0, 0, 0, 0, "");
    if from == l.a then Hop(from, l.aIf, to, IfIndex(l.bIf), l.protocol)
    else Hop(from, l.bIf, to, IfIndex(l.aIf), l.protocol)
  }

  function Hops(path: seq<int>, index: LinkIndex): (hops: seq<Hop>)
    ensures |hops| == |path|
    ensures forall i :: 0 <= i < |path| ==> hops[i] == HopBetween(path[i], Next(path, i), index)
  {
    seq(|path|, i requires 0 <= i < |path| => HopBetween(path[i], Next(path, i), index))
  }

  method MaterializeCycle(path: seq<int>, index: LinkIndex) returns (c: TopologyCycle, ok: bool)
    ensures ok <==> |path| >= 3
    ensures ok ==> c == TopologyCycle(path, Hops(path, index), "")
  {
    if |path| < 3 {
      return TopologyCycle([], [], ""), false;
    }
    var hops: seq<Hop> := [];
    for i := 0 to |path|
      invariant |hops| == i
      invariant forall j :: 0 <= j < i ==> hops[j] == HopBetween(path[j], Next(path, j), index)
    {
      hops := hops + [HopBetween(path[i], Next(path, i), index)];
    }
    assert hops == Hops(path, index);
    return TopologyCycle(path, hops, ""), true;
  }

  /** How many devices are left to visit. */
  ghost function Left(adj: Adj, anc: map<int, seq<int>>): nat {
    |Unvisited(adj, anc)|
  }

  ghost function Unvisited(adj: Adj, anc: map<int, seq<int>>): set<int> {
    set x | x in adj && x !in anc
  }

  lemma LeftShrinks(adj: Adj, anc: map<int, seq<int>>, anc': map<int, seq<int>>, u: int)
    requires u in adj && u !in anc && u in anc' && forall x :: x in anc ==> x in anc'
    ensures Left(adj, anc') < Left(adj, anc)
  {
    var a, b := Unvisited(adj, anc), Unvisited(adj, anc');
    forall x | x in b
      ensures x in a
    {
      assert x in anc ==> x in anc';
    }
    assert a == b + (a - b);
    assert u in a - b;
  }

  /** The reported cycles are the materialised loops. */
  ghost predicate Materialized(cycles: seq<TopologyCycle>, loops: seq<seq<int>>, index: LinkIndex) {
    && |cycles| == |loops|
    && forall k :: 0 <= k < |loops| ==> cycles[k] == TopologyCycle(loops[k], Hops(loops[k], index), "")
  }

  /** The seen keys are those of the loops. */
  ghost predicate KeysSeen(seen: set<string>, loops: seq<seq<int>>) {
    && (forall k :: 0 <= k < |loops| ==> Key(loops[k]) in seen)
    && (forall key :: key in seen ==> exists k :: 0 <= k < |loops| && Key(loops[k]) == key)
  }

  lemma AddMaterialized(cycles: seq<TopologyCycle>, loops: seq<seq<int>>, index: LinkIndex, path: seq<int>)
    requires Materialized(cycles, loops, index)
    ensures Materialized(cycles + [TopologyCycle(path, Hops(path, index), "")], loops + [path], index)
  {
  }

  lemma AddKey(seen: set<string>, loops: seq<seq<int>>, path: seq<int>)
    requires KeysSeen(seen, loops)
    ensures KeysSeen(seen + {Key(path)}, loops + [path])
  {
    hide Key;
    var all := loops + [path];
    assert all[|loops|] == path;
    forall key | key in seen + {Key(path)}
      ensures exists k :: 0 <= k < |all| && Key(all[k]) == key
    {
      if key in seen {
        var k :| 0 <= k < |loops| && Key(loops[k]) == key;
        assert all[k] == loops[k];
      } else {
        assert Key(all[|loops|]) == key;
      }
    }
  }

  lemma KeyUnseen(seen: set<string>, loops: seq<seq<int>>, path: seq<int>)
    requires KeysSeen(seen, loops) && forall k :: 0 <= k < |loops| ==> Key(loops[k]) != Key(path)
    ensures Key(path) !in seen
  {
  }

  lemma NeighbourFacts(adj: Adj, u: int, i: nat)
    requires Simple(adj) && u in adj && i < |adj[u]|
    ensures adj[u][i] in adj && adj[u][i] > 0 && adj[u][i] != u && Linked(adj, u, adj[u][i])
  {
    assert adj[u][i] in adj[u];
  }

  lemma InvFacts(adj: Adj, anc: map<int, seq<int>>, path: seq<int>, loops: seq<seq<int>>)
    requires Inv(adj, anc, path, loops)
    ensures Forest(adj, anc) && OnStack(anc, path) && SoundLoops(adj, anc, loops)
  {
  }

  lemma SkipParent(adj: Adj, anc: map<int, seq<int>>, path0: seq<int>, u: int, i: nat, loops: seq<seq<int>>)
    requires Simple(adj) && Inv(adj, anc, path0 + [u], loops) && Scanned(adj, anc, u, i, loops) && u in adj
    requires i < |adj[u]|
    requires path0 == [] ==> adj[u][i] == -1
    requires path0 != [] ==> adj[u][i] == path0[|path0| - 1]
    ensures Scanned(adj, anc, u, i + 1, loops)
  {
    hide Inv, Forest, Scanned, Simple;
    InvFacts(adj, anc, path0 + [u], loops);
    NeighbourFacts(adj, u, i);
    var path, v := path0 + [u], adj[u][i];
    assert path[|path| - 1] == u && path[|path| - 2] == v;
    PathMember(adj, anc, path, v);
    ScanSkips(adj, anc, u, i, loops);
  }

  lemma SkipFinished(adj: Adj, anc: map<int, seq<int>>, path: seq<int>, u: int, i: nat, loops: seq<seq<int>>)
    requires Simple(adj) && Inv(adj, anc, path, loops) && Scanned(adj, anc, u, i, loops) && u in adj && i < |adj[u]|
    requires u in anc && anc[u] == path && adj[u][i] in anc && adj[u][i] !in path
    ensures Scanned(adj, anc, u, i + 1, loops)
  {
    hide Inv, Forest, Scanned, Simple;
    InvFacts(adj, anc, path, loops);
    NeighbourFacts(adj, u, i);
    VisitedIsRelated(adj, anc, path, u, adj[u][i], loops);
    ScanSkips(adj, anc, u, i, loops);
  }

  lemma CloseCycle(adj: Adj, outer: map<int, seq<int>>, anc: map<int, seq<int>>, path0: seq<int>, u: int, parent: int,
                   i: nat,
                   loops0: seq<seq<int>>, loops: seq<seq<int>>, p: nat)
    requires Simple(adj) && Inv(adj, anc, path0 + [u], loops) && Scanned(adj, anc, u, i, loops) && u in adj
    requires i < |adj[u]|
    requires p < |path0| + 1 && (path0 + [u])[p] == adj[u][i] && adj[u][i] != parent
    requires path0 != [] ==> parent == path0[|path0| - 1]
    requires Extends(outer, anc, path0 + [u], loops0, loops) && u !in outer
    ensures var c := (path0 + [u])[p..];
            && Forest(adj, anc) && SoundLoops(adj, anc, loops) && IsFund(adj, anc, c) && c !in loops
            && Inv(adj, anc, path0 + [u], loops + [c]) && Scanned(adj, anc, u, i + 1, loops + [c])
            && Extends(outer, anc, path0 + [u], loops0, loops + [c])
  {
    hide Inv, Forest, SoundLoops, Scanned, Simple, IsFund, Extends;
    var path := path0 + [u];
    assert path0 != [] ==> path[|path| - 2] == parent;
    InvFacts(adj, anc, path, loops);
    ScanCloses(adj, anc, path, u, i, loops, p);
    ExtendsLoop(outer, anc, path, loops0, loops, path[p..]);
  }

  lemma ExtendsLoop(outer: map<int, seq<int>>, anc: map<int, seq<int>>, path: seq<int>, loops0: seq<seq<int>>,
                    loops: seq<seq<int>>, c: seq<int>)
    requires Extends(outer, anc, path, loops0, loops) && |c| > 0 && c[|c| - 1] !in outer
    ensures Extends(outer, anc, path, loops0, loops + [c])
  {
    var all := loops + [c];
    forall k | |loops0| <= k < |all|
      ensures |all[k]| > 0 && all[k][|all[k]| - 1] !in outer
    {
      if k < |loops| {
        assert all[k] == loops[k];
      }
    }
  }

  lemma Descended(adj: Adj, outer: map<int, seq<int>>, before: map<int, seq<int>>, anc: map<int, seq<int>>,
                  path: seq<int>, u: int, i: nat,
                  loops0: seq<seq<int>>, known: seq<seq<int>>, loops: seq<seq<int>>)
    requires Inv(adj, before, path, known) && Inv(adj, anc, path, loops) && Scanned(adj, before, u, i, known)
    requires u in adj && i < |adj[u]|
    requires u in before && before[u] == path && adj[u][i] !in before && adj[u][i] in anc
    requires Extends(outer, before, path, loops0, known) && Extends(before, anc, path + [adj[u][i]], known, loops)
    ensures Scanned(adj, anc, u, i + 1, loops) && Extends(outer, anc, path, loops0, loops)
    ensures u in anc && anc[u] == path && forall x :: x in outer ==> x in anc
  {
    hide Inv, Forest, Scanned;
    InvFacts(adj, before, path, known);
    InvFacts(adj, anc, path, loops);
    ScanDescends(adj, before, anc, path, u, i, known, loops);
    ExtendsTransitive(outer, before, anc, path, path + [adj[u][i]], loops0, known, loops);
  }

  lemma LeaveFinished(adj: Adj, outer: map<int, seq<int>>, anc: map<int, seq<int>>, path0: seq<int>, u: int,
                      loops0: seq<seq<int>>, loops: seq<seq<int>>)
    requires Inv(adj, anc, path0 + [u], loops) && u in adj && Scanned(adj, anc, u, |adj[u]|, loops)
    requires OnStack(outer, path0) && Extends(outer, anc, path0 + [u], loops0, loops)
    ensures Inv(adj, anc, path0, loops)
  {
    hide Inv, Scanned;
    if path0 != [] {
      var t := path0[|path0| - 1];
      assert t in anc && anc[t] == outer[t];
    }
    Leave(adj, anc, path0, u, loops);
  }

  class LoopFinder {
    const adj: Adj
    const index: LinkIndex
    var visited: set<int>
    var seenCycle: set<string>
    var cycles: seq<TopologyCycle>
    ghost var anc: map<int, seq<int>>
    ghost var loops: seq<seq<int>>

    constructor (adj: Adj, index: LinkIndex)
      ensures this.adj == adj && this.index == index && Valid()
      ensures anc == map[] && loops == [] && cycles == []
    {
      this.adj, this.index := adj, index;
      visited, seenCycle, cycles := {}, {}, [];
      anc, loops := map[], [];
    }

    ghost predicate Valid()
      reads this
    {
      (forall x :: x in visited <==> x in anc) && Materialized(cycles, loops, index) && KeysSeen(seenCycle, loops)
    }

    /** Reports a cycle unless its key was reported before; a cycle closed by a
        new link always has a new key. */
    method Report(cyclePath: seq<int>)
      requires Valid() && Forest(adj, anc) && IsFund(adj, anc, cyclePath) && cyclePath !in loops
      requires SoundLoops(adj, anc, loops)
      modifies this
      ensures Valid() && anc == old(anc) && loops == old(loops) + [cyclePath]
    {
      hide Materialized, KeysSeen, Key, Forest, IsFund, SoundLoops, Hops;
      FundSizes(adj, anc);
      NewKey(adj, anc, loops, cyclePath);
      KeyUnseen(seenCycle, loops, cyclePath);
      AddKey(seenCycle, loops, cyclePath);
      AddMaterialized(cycles, loops, index, cyclePath);
      var c, ok := MaterializeCycle(cyclePath, index);
      if ok {
        var key := CycleKey.CycleKey(c.deviceIDs);
        if key !in seenCycle {
          seenCycle := seenCycle + {key};
          cycles := cycles + [c];
          loops := loops + [cyclePath];
        }
      }
    }

    /** The recursive visit.  Afterwards `u` and everything visited on the way is
        finished, and exactly the cycles closed there have been added. */
    method Dfs(u: int, parent: int, path0: seq<int>)
      requires Simple(adj) && Valid() && Inv(adj, anc, path0, loops) && u !in anc && u in adj
      requires path0 == [] ==> parent == -1
      requires path0 != [] ==> parent == path0[|path0| - 1] && Linked(adj, parent, u)
      modifies this
      ensures Valid() && Inv(adj, anc, path0, loops) && u in anc
      ensures Extends(old(anc), anc, path0 + [u], old(loops), loops)
      decreases Left(adj, anc)
    {
      hide Simple, Inv, Scanned, Extends, Materialized, KeysSeen, Left;
      InvFacts(adj, anc, path0, loops);
      Enter(adj, anc, path0, u, loops);
      LeftShrinks(adj, anc, anc[u := path0 + [u]], u);
      ghost var outer := anc;
      assert OnStack(outer, path0);
      visited := visited + {u};
      anc := anc[u := path0 + [u]];
      var path := path0 + [u];
      var nbrs := adj[u];
      for i := 0 to |nbrs|
        invariant Valid() && Inv(adj, anc, path, loops) && Scanned(adj, anc, u, i, loops)
        invariant u in anc && anc[u] == path && forall x :: x in outer ==> x in anc
        invariant Extends(outer, anc, path, old(loops), loops)
      {
        var v := nbrs[i];
        NeighbourFacts(adj, u, i);
        if v == parent {
          SkipParent(adj, anc, path0, u, i, loops);
          continue;
        }
        var inPath := IndexOf(path, v);
        if inPath >= 0 {
          var cyclePath := path[inPath..];
          CloseCycle(adj, outer, anc, path0, u, parent, i, old(loops), loops, inPath);
          Report(cyclePath);
          continue;
        }
        if v !in visited {
          ghost var before, known := anc, loops;
          LeftShrinks(adj, outer, anc, u);
          Dfs(v, u, path);
          Descended(adj, outer, before, anc, path, u, i, old(loops), known, loops);
        } else {
          SkipFinished(adj, anc, path, u, i, loops);
        }
      }
      LeaveFinished(adj, outer, anc, path0, u, old(loops), loops);
    }
  }

  method IndexOf(path: seq<int>, v: int) returns (p: int)
    ensures p == -1 <==> v !in path
    ensures p != -1 ==> 0 <= p < |path| && path[p] == v
  {
    for i := 0 to |path|
      invariant forall j :: 0 <= j < i ==> path[j] != v
    {
      if path[i] == v {
        return i;
      }
    }
    return -1;
  }

  /** A cycle closed by a new link is not the same loop as any reported one. */
  lemma NewKey(adj: Adj, anc: map<int, seq<int>>, loops: seq<seq<int>>, c: seq<int>)
    requires Forest(adj, anc) && IsFund(adj, anc, c) && c !in loops && SoundLoops(adj, anc, loops)
    ensures forall k :: 0 <= k < |loops| ==> Key(loops[k]) != Key(c)
  {
    hide Key;
    forall k | 0 <= k < |loops|
      ensures Key(loops[k]) != Key(c)
    {
      FundKeysDiffer(adj, anc, loops[k], c);
    }
  }

  /** The device lists of the reported cycles. */
  function Devices(cycles: seq<TopologyCycle>): (ids: seq<seq<int>>)
    ensures |ids| == |cycles| && forall k :: 0 <= k < |cycles| ==> ids[k] == cycles[k].deviceIDs
  {
    seq(|cycles|, k requires 0 <= k < |cycles| => cycles[k].deviceIDs)
  }

  /** What the report promises: simple loops, no loop twice, every link that is
      no bridge, and one cycle per independent loop. */
  ghost predicate IsLoopReport(adj: Adj, loops: seq<seq<int>>) {
    && (forall k :: 0 <= k < |loops| ==> IsLoop(adj, loops[k]))
    && (forall j, k :: 0 <= j < k < |loops| ==> Key(loops[j]) != Key(loops[k]))
    && (forall x, y :: Linked(adj, x, y) ==> (OnSomeLoop(loops, x, y) <==> !Bridge(adj, x, y)))
    && |loops| == |Links(adj)| - |adj.Keys| + |Components(adj)|
  }

  /** Every link of every loop of the graph is reported, so every device on any
      loop appears in some reported cycle. */
  lemma LoopsAreReported(adj: Adj, loops: seq<seq<int>>, c: seq<int>, i: nat)
    requires Simple(adj) && IsLoopReport(adj, loops) && IsLoop(adj, c) && i < |c|
    ensures OnSomeLoop(loops, c[i], Next(c, i))
    ensures exists k :: 0 <= k < |loops| && c[i] in loops[k]
  {
    hide Simple, Bridge, IsLoopReport, OnSomeLoop;
    assert Linked(adj, c[i], Next(c, i));
    assert HasStep(c, i, c[i], Next(c, i));
    LoopLinkIsNoBridge(adj, c, c[i], Next(c, i));
    ReportFacts(adj, loops, c[i], Next(c, i));
    DeviceOfLink(loops, c[i], Next(c, i));
  }

  lemma ReportFacts(adj: Adj, loops: seq<seq<int>>, x: int, y: int)
    requires IsLoopReport(adj, loops) && Linked(adj, x, y)
    ensures OnSomeLoop(loops, x, y) <==> !Bridge(adj, x, y)
  {
    hide Bridge, OnSomeLoop, IsLoop, Key, Links, Components, Linked;
  }

  lemma DeviceOfLink(loops: seq<seq<int>>, x: int, y: int)
    requires OnSomeLoop(loops, x, y)
    ensures exists k :: 0 <= k < |loops| && x in loops[k]
  {
    var k :| 0 <= k < |loops| && OnLoop(loops[k], x, y);
    var i :| 0 <= i < |loops[k]| && HasStep(loops[k], i, x, y);
    assert x in loops[k];
  }

  /** Nothing is reported exactly when the graph has no loop. */
  lemma EmptyIffForest(adj: Adj, loops: seq<seq<int>>)
    requires Simple(adj) && IsLoopReport(adj, loops)
    ensures loops == [] <==> forall c :: !IsLoop(adj, c)
  {
    if loops != [] {
      assert IsLoop(adj, loops[0]);
    }
    hide Simple, IsLoopReport;
    forall c | IsLoop(adj, c)
      ensures loops != []
    {
      LoopsAreReported(adj, loops, c, 0);
    }
  }

  lemma FinishedIsReport(adj: Adj, anc: map<int, seq<int>>, loops: seq<seq<int>>)
    requires Finished(adj, anc, loops)
    ensures IsLoopReport(adj, loops)
  {
    assert SoundLoops(adj, anc, loops);
    hide Finished, Forest, Simple, Key, IsFund, Links, Components, OnSomeLoop, Bridge, IsLoop;
    FinishedFacts(adj, anc, loops);
    ReportCount(adj, anc, loops);
    forall k | 0 <= k < |loops|
      ensures IsLoop(adj, loops[k])
    {
      FundIsLoop(adj, anc, loops[k]);
    }
    forall j, k | 0 <= j < k < |loops|
      ensures Key(loops[j]) != Key(loops[k])
    {
      FundKeysDiffer(adj, anc, loops[j], loops[k]);
    }
    forall x, y | Linked(adj, x, y)
      ensures OnSomeLoop(loops, x, y) <==> !Bridge(adj, x, y)
    {
      ReportedIffNotBridge(adj, anc, loops, x, y);
    }
  }

  lemma SearchStarts(adj: Adj)
    ensures Inv(adj, map[], [], [])
  {
  }

  /** The outer loop: one search per device that is still unvisited. */
  method FindUndirectedCycles(adj: Adj,
                              links: seq<TopoLink>) returns (cycles: seq<TopologyCycle>, ghost index: LinkIndex)
    requires Simple(adj)
    ensures IsLoopReport(adj, Devices(cycles))
    ensures IsIndex(links, index)
    ensures forall k :: 0 <= k < |cycles| ==> cycles[k].hops == Hops(cycles[k].deviceIDs, index)
  {
    var linkByPair := IndexLinks(links);
    index := linkByPair;
    var finder := new LoopFinder(adj, linkByPair);
    var ids := SortedKeys(adj);
    SearchStarts(adj);
    hide Simple, Inv, IsLoopReport, Materialized, KeysSeen, IsIndex, Extends;
    for i := 0 to |ids|
      invariant finder.adj == adj && finder.index == linkByPair && fresh(finder)
      invariant finder.Valid() && Inv(adj, finder.anc, [], finder.loops)
      invariant forall j :: 0 <= j < i ==> ids[j] in finder.anc
    {
      var id := ids[i];
      if id !in finder.visited {
        ghost var before, known := finder.anc, finder.loops;
        finder.Dfs(id, -1, []);
        ExtendsKeeps(before, finder.anc, [] + [id], known, finder.loops);
      }
    }
    AllVisited(adj, finder.anc, finder.loops, ids);
    cycles := finder.cycles;
    FinishedIsReport(adj, finder.anc, finder.loops);
    DevicesAreLoops(cycles, finder.loops, linkByPair);
  }

  lemma ExtendsKeeps(anc0: map<int, seq<int>>, anc: map<int, seq<int>>, base: seq<int>, loops0: seq<seq<int>>,
                     loops: seq<seq<int>>)
    requires Extends(anc0, anc, base, loops0, loops)
    ensures forall x :: x in anc0 ==> x in anc
  {
  }

  lemma AllVisited(adj: Adj, anc: map<int, seq<int>>, loops: seq<seq<int>>, ids: seq<int>)
    requires Simple(adj) && Inv(adj, anc, [], loops)
    requires forall j :: 0 <= j < |ids| ==> ids[j] in anc
    requires forall x :: x in ids <==> x in adj
    ensures Finished(adj, anc, loops)
  {
    forall x | x in anc
      ensures x in adj
    {
      assert Stacked(adj, anc, x);
    }
  }

  lemma DevicesAreLoops(cycles: seq<TopologyCycle>, loops: seq<seq<int>>, index: LinkIndex)
    requires Materialized(cycles, loops, index)
    ensures Devices(cycles) == loops
    ensures forall k :: 0 <= k < |cycles| ==> cycles[k].hops == Hops(cycles[k].deviceIDs, index)
  {
  }

  function Ends(l: TopoLink): (int, int) {
    (l.a, l.b)
  }

  /** `l` is the first of the links between these two devices. */
  ghost predicate FirstBetween(links: seq<TopoLink>, p: (int, int), l: TopoLink) {
    exists k :: 0 <= k < |links| && links[k] == l && Ends(l) == p && forall j :: 0 <= j < k ==> Ends(links[j]) != p
  }

  /** The index holds, for every pair of linked devices, the first of its links. */
  ghost predicate IsIndex(links: seq<TopoLink>, index: LinkIndex) {
    && (forall p :: p in index ==> FirstBetween(links, p, index[p]))
    && (forall k :: 0 <= k < |links| ==> Ends(links[k]) in index)
  }

  method IndexLinks(links: seq<TopoLink>) returns (index: LinkIndex)
    ensures IsIndex(links, index)
  {
    index := map[];
    for i := 0 to |links|
      invariant forall p :: p in index ==> FirstBetween(links, p, index[p])
      invariant forall k :: 0 <= k < i ==> Ends(links[k]) in index
    {
      var p := Ends(links[i]);
      if p !in index {
        assert FirstBetween(links, p, links[i]);
        index := index[p := links[i]];
      }
    }
  }

  // ----- sorting

  function Insert(s: seq<int>, x: int): (r: seq<int>) {
    if |s| == 0 || x <= s[0] then [x] + s else [s[0]] + Insert(s[1..], x)
  }

  function Ascending(s: seq<int>): seq<int> {
    if |s| == 0 then [] else Insert(Ascending(s[1..]), s[0])
  }

  ghost predicate Increasing(s: seq<int>) {
    forall i, j :: 0 <= i < j < |s| ==> s[i] < s[j]
  }

  lemma {:induction false} InsertKeeps(s: seq<int>, x: int)
    ensures forall y :: y in Insert(s, x) <==> y in s || y == x
    ensures Increasing(s) && x !in s ==> Increasing(Insert(s, x))
    decreases |s|
  {
    if |s| > 0 && x > s[0] {
      InsertKeeps(s[1..], x);
      assert s == [s[0]] + s[1..];
      var r := Insert(s[1..], x);
      if Increasing(s) && x !in s {
        forall i | 0 <= i < |r|
          ensures s[0] < r[i]
        {
          assert r[i] in r;
        }
      }
    }
  }

  lemma {:induction false} AscendingSorts(s: seq<int>)
    ensures forall y :: y in Ascending(s) <==> y in s
    ensures Distinct(s) ==> Increasing(Ascending(s))
    decreases |s|
  {
    if |s| > 0 {
      AscendingSorts(s[1..]);
      InsertKeeps(Ascending(s[1..]), s[0]);
      assert s == [s[0]] + s[1..];
      assert Distinct(s) ==> s[0] !in s[1..];
    }
  }

  /** The devices in ascending order. */
  method SortedKeys(adj: Adj) returns (ids: seq<int>)
    ensures forall x :: x in ids <==> x in adj
    ensures Increasing(ids)
  {
    ids := [];
    var rest := set x | x in adj;
    while rest != {}
      invariant forall x :: x in rest ==> x in adj
      invariant (forall x :: x in ids <==> x in adj && x !in rest) && Increasing(ids)
      decreases |rest|
    {
      ghost var some := Member(rest);
      var x :| x in rest;
      InsertKeeps(ids, x);
      ids := Insert(ids, x);
      rest := rest - {x};
    }
  }
}
