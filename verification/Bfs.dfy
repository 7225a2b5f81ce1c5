module Bfs {
  import opened Graph
  import opened Search
  import opened LeastPath

  /** The parent chain of `ShortestPath` uses id 0 as its end marker, so no
      device may have that id. */
  ghost predicate ZeroFree(adj: Adj) {
    forall u :: u in adj ==> 0 !in adj[u]
  }

  /** Labelling the next neighbour of the head of the queue. */
  lemma LabelNeighbour(adj: Adj, s: int, d: map<int, nat>, walks: map<int, seq<int>>, u: int, i: nat, q: seq<int>,
                       room: nat)
    requires Frontier(EdgesOf(adj), d, [u] + q) && Witnessed(EdgesOf(adj), s, d, walks) && Room(adj, d, room)
    requires i < |Nbrs(adj, u)| && Nbrs(adj, u)[i] !in d && u in d && u in walks
    ensures var v := Nbrs(adj, u)[i];
            && Frontier(EdgesOf(adj), d[v := d[u] + 1], [u] + (q + [v]))
            && Witnessed(EdgesOf(adj), s, d[v := d[u] + 1], walks[v := walks[u] + [v]])
            && room > 0 && Room(adj, d[v := d[u] + 1], room - 1)
  {
    hide Frontier, Witnessed, Room, EdgesOf;
    var v := Nbrs(adj, u)[i];
    NeighbourIsEdge(adj, u, i);
    Discover(EdgesOf(adj), d, u, q, v);
    DiscoverWalk(EdgesOf(adj), s, d, walks, u, v);
    RoomShrinks(adj, d, room, u, i, d[u] + 1);
  }

  /** The loop over the neighbours of the head of the queue. */
  method LabelNeighbours(adj: Adj, u: int, out0: map<int, nat>, q0: seq<int>,
                         ghost s: int, ghost walks0: map<int, seq<int>>, ghost room0: nat)
    returns (out: map<int, nat>, q: seq<int>, ghost walks: map<int, seq<int>>, ghost room: nat)
    requires Frontier(EdgesOf(adj), out0, [u] + q0) && Witnessed(EdgesOf(adj), s, out0, walks0)
    requires Room(adj, out0, room0) && u in out0 && u in walks0
    ensures Frontier(EdgesOf(adj), out, q) && Witnessed(EdgesOf(adj), s, out, walks)
    ensures Room(adj, out, room) && room <= room0 && (room == room0 ==> q == q0)
  {
    hide Frontier, Witnessed, Room, EdgesOf;
    out, q, walks, room := out0, q0, walks0, room0;
    var nbrs := Nbrs(adj, u);
    for i := 0 to |nbrs|
      invariant Frontier(EdgesOf(adj), out, [u] + q) && Witnessed(EdgesOf(adj), s, out, walks)
      invariant u in out && u in walks && forall j :: 0 <= j < i ==> nbrs[j] in out
      invariant Room(adj, out, room) && room <= room0 && (room == room0 ==> q == q0)
    {
      var v := nbrs[i];
      if v in out {
        continue;
      }
      LabelNeighbour(adj, s, out, walks, u, i, q, room);
      room := room - 1;
      walks := walks[v := walks[u] + [v]];
      out := out[v := out[u] + 1];
      q := q + [v];
    }
    AllNeighboursKnown(adj, u, out);
    Retire(EdgesOf(adj), out, u, q);
  }

  method BFSDistances(adj: Adj, root: int) returns (out: map<int, nat>)
    ensures root <= 0 ==> out == map[]
    ensures root > 0 ==> IsDistanceMap(EdgesOf(adj), root, out)
  {
    out := map[];
    if root <= 0 {
      return;
    }
    hide Frontier, Witnessed, IsDistanceMap, Room, EdgesOf;
    out := out[root := 0];
    var q := [root];
    ghost var walks := map[root := [root]];
    ghost var room := RoomExists(adj, out);
    Start(EdgesOf(adj), root);
    while |q| > 0
      invariant Frontier(EdgesOf(adj), out, q) && Witnessed(EdgesOf(adj), root, out, walks)
      invariant Room(adj, out, room)
      decreases room, |q|
    {
      var u := q[0];
      assert q == [u] + q[1..];
      q := q[1..];
      HeadIsKnown(EdgesOf(adj), root, out, walks, u, q);
      out, q, walks, room := LabelNeighbours(adj, u, out, q, root, walks, room);
    }
    ExhaustedIsDistanceMap(EdgesOf(adj), root, out, walks);
  }

  /** Swaps the ends of a slice inwards. */
  method ReverseSlice<T>(s: seq<T>) returns (r: seq<T>)
    ensures r == Reversed(s)
  {
    r := s;
    var i, j := 0, |r| - 1;
    while i < j
      invariant 0 <= i <= j + 1 && j == |s| - 1 - i && |r| == |s|
      invariant forall k :: 0 <= k < i ==> r[k] == s[|s| - 1 - k] && r[|s| - 1 - k] == s[k]
      invariant forall k :: i <= k <= j ==> r[k] == s[k]
    {
      var x, y := r[i], r[j];
      r := r[i := y];
      r := r[j := x];
      i, j := i + 1, j - 1;
    }
  }

  /** The guards of `ShortestPath` and the existence of a walk clear of `avoid`. */
  ghost predicate PathExists(adj: Adj, from: int, to: int, avoid: int) {
    from > 0 && to > 0 && from != avoid && to != avoid && Reaches(Avoiding(adj, avoid), from, to)
  }

  ghost predicate IsLeastShortest(adj: Adj, from: int, to: int, avoid: int, path: seq<int>) {
    var g := Avoiding(adj, avoid);
    && IsWalk(g, path, from, to) && Distinct(path)
    && IsDistance(g, from, to, |path| - 1)
    && Least(adj, g, path, from, to)
  }

  /** The state of the search loop: labels, recorded walks and queue order. */
  ghost predicate Searching(adj: Adj, g: set<(int, int)>, s: int, d: map<int, nat>, walks: map<int, seq<int>>,
                            pending: seq<int>) {
    && Frontier(g, d, pending) && Witnessed(g, s, d, walks)
    && Tree(d, s, walks) && AllLeast(adj, g, s, walks) && Queued(adj, walks, pending)
  }

  lemma SearchStarts(adj: Adj, g: set<(int, int)>, s: int)
    ensures Searching(adj, g, s, map[s := 0], map[s := [s]], [s])
  {
    Start(g, s);
  }

  lemma SearchDiscovers(adj: Adj, g: set<(int, int)>, s: int, d: map<int, nat>, walks: map<int, seq<int>>,
                        u: int, k: nat, q: seq<int>, v: int)
    requires Searching(adj, g, s, d, walks, [u] + q)
    requires u in d && v !in d && (u, v) in g
    requires k < |Nbrs(adj, u)| && Nbrs(adj, u)[k] == v && v !in Nbrs(adj, u)[..k]
    requires forall i :: 0 <= i < |q| ==> Hangs(adj, walks, u, k, q[i])
    ensures var d', walks' := d[v := d[u] + 1], walks[v := walks[u] + [v]];
            && Searching(adj, g, s, d', walks', [u] + (q + [v]))
            && forall i :: 0 <= i < |q + [v]| ==> Hangs(adj, walks', u, k + 1, (q + [v])[i])
  {
    var d', walks' := d[v := d[u] + 1], walks[v := walks[u] + [v]];
    assert [u] + (q + [v]) == [u] + q + [v];
    Discover(g, d, u, q, v);
    DiscoverWalk(g, s, d, walks, u, v);
    DiscoverLeast(adj, g, s, d, walks, u, q, v);
    TreeGrows(g, d, s, walks, u, v);
    WitnessedWalks(g, s, d, walks, u, v);
    hide Frontier, Witnessed, Tree, Queued, Hangs, Least, Before, AllLeast;
    LeastGrows(adj, g, s, walks, v, walks[u] + [v]);
    QueueDiscovers(adj, g, s, d, walks, u, k, q, v);
    forall i | 0 <= i < |q + [v]|
      ensures Hangs(adj, walks', u, k + 1, (q + [v])[i])
    {
      HangsKept(adj, walks, u, k, (q + [v])[i], v);
    }
  }

  lemma LeastGrows(adj: Adj, g: set<(int, int)>, s: int, walks: map<int, seq<int>>, v: int, w: seq<int>)
    requires AllLeast(adj, g, s, walks) && Least(adj, g, w, s, v)
    ensures AllLeast(adj, g, s, walks[v := w])
  {
    hide Least;
  }

  lemma WitnessedWalks(g: set<(int, int)>, s: int, d: map<int, nat>, walks: map<int, seq<int>>, u: int, v: int)
    requires Witnessed(g, s, d, walks) && u in d && v !in d
    ensures u in walks && v !in walks && u != v
  {
  }

  /** The new vertex is queued behind everything at its level. */
  lemma QueueDiscovers(adj: Adj, g: set<(int, int)>, s: int, d: map<int, nat>, walks: map<int, seq<int>>,
                       u: int, k: nat, q: seq<int>, v: int)
    requires Witnessed(g, s, d, walks) && Queued(adj, walks, [u] + q) && u in d && u in walks && v !in d
    requires k < |Nbrs(adj, u)| && Nbrs(adj, u)[k] == v && v !in Nbrs(adj, u)[..k]
    requires forall i :: 0 <= i < |q| ==> Hangs(adj, walks, u, k, q[i])
    ensures Queued(adj, walks[v := walks[u] + [v]], [u] + q + [v])
  {
    hide Hangs, Before;
    var p := [u] + q;
    assert forall i :: 0 <= i < |p| ==> p[i] in walks && IsWalk(g, walks[p[i]], s, p[i]);
    hide Queued;
    forall i | 0 <= i < |p| && |walks[p[i]]| == |walks[u] + [v]|
      ensures Before(adj, walks[p[i]], walks[u] + [v])
    {
      assert p[i] == q[i - 1];
      HangsBeforeNew(adj, walks, u, k, q[i - 1], v);
    }
    QueuedAppend(adj, walks, p, v, walks[u] + [v]);
  }

  lemma TreeGrows(g: set<(int, int)>, d: map<int, nat>, s: int, walks: map<int, seq<int>>, u: int, v: int)
    requires Tree(d, s, walks) && Witnessed(g, s, d, walks) && u in d && v !in d
    ensures Tree(d[v := d[u] + 1], s, walks[v := walks[u] + [v]])
  {
    var w := walks[u] + [v];
    assert w[|w| - 2] == u && w[..|w| - 1] == walks[u];
  }

  ghost predicate HangingQueue(adj: Adj, walks: map<int, seq<int>>, q: seq<int>) {
    forall i :: 0 < i < |q| ==> q[0] in walks && Hangs(adj, walks, q[0], 0, q[i])
  }

  lemma HangsFromNext(adj: Adj, g: set<(int, int)>, s: int, d: map<int, nat>, walks: map<int, seq<int>>, u: int,
                      q: seq<int>, i: int)
    requires Frontier(g, d, [u] + q) && Witnessed(g, s, d, walks) && Queued(adj, walks, [u] + q)
    requires 0 < i < |q| && u in walks && Hangs(adj, walks, u, |Nbrs(adj, u)|, q[i])
    ensures q[0] in walks && Hangs(adj, walks, q[0], 0, q[i])
  {
    var p := [u] + q;
    assert p[0] == u && p[1] == q[0] && p[i + 1] == q[i];
    HangsBelowNext(adj, walks, u, q[0], q[i]);
  }

  lemma SearchMovesOn(adj: Adj, g: set<(int, int)>, s: int, d: map<int, nat>, walks: map<int, seq<int>>, u: int,
                      q: seq<int>)
    requires Searching(adj, g, s, d, walks, [u] + q)
    requires u in d && u in walks && (forall v :: (u, v) in g ==> v in d)
    requires forall i :: 0 <= i < |q| ==> Hangs(adj, walks, u, |Nbrs(adj, u)|, q[i])
    ensures Searching(adj, g, s, d, walks, q)
    ensures HangingQueue(adj, walks, q)
  {
    hide Frontier, Witnessed, Tree, AllLeast, Queued, Hangs;
    Retire(g, d, u, q);
    QueuedTail(adj, walks, u, q);
    forall i | 0 < i < |q|
      ensures q[0] in walks && Hangs(adj, walks, q[0], 0, q[i])
    {
      HangsFromNext(adj, g, s, d, walks, u, q, i);
    }
  }

  /** The parent map mirrors the recorded walks and never uses the end marker 0. */
  ghost predicate Recorded(g: set<(int, int)>, s: int, d: map<int, nat>, walks: map<int, seq<int>>,
                           parent: map<int, int>) {
    && Witnessed(g, s, d, walks) && Tree(d, s, walks)
    && (forall x :: x in parent <==> x in d) && 0 !in d
    && forall x :: x in d && x != s ==> |walks[x]| >= 2 && parent[x] == walks[x][|walks[x]| - 2]
  }

  lemma HangsOn(adj: Adj, walks: map<int, seq<int>>, u: int, k: nat, q: seq<int>)
    requires u in walks && k < |Nbrs(adj, u)| && forall j :: 0 <= j < |q| ==> Hangs(adj, walks, u, k, q[j])
    ensures forall j :: 0 <= j < |q| ==> Hangs(adj, walks, u, k + 1, q[j])
  {
    var nbrs := Nbrs(adj, u);
    assert nbrs[..k + 1] == nbrs[..k] + [nbrs[k]];
  }

  /** The label of a recorded walk's vertex is its position, so no vertex repeats. */
  lemma {:induction false} TreeIsSimple(g: set<(int, int)>, d: map<int, nat>, s: int, walks: map<int, seq<int>>, x: int)
    requires Witnessed(g, s, d, walks) && Tree(d, s, walks) && x in d
    requires forall y :: y in d && y != s ==> |walks[y]| >= 2
    ensures Distinct(walks[x])
    ensures forall i :: 0 <= i < |walks[x]| ==> walks[x][i] in d && d[walks[x][i]] == i
    decreases d[x]
  {
    if x != s {
      var w := walks[x];
      TreeIsSimple(g, d, s, walks, w[|w| - 2]);
      assert w == w[..|w| - 1] + [x];
    }
  }

  /** Follows the parents from `to` and turns the result around. */
  method WalkBack(parent: map<int, int>, from: int, to: int,
                  ghost g: set<(int, int)>, ghost d: map<int, nat>, ghost walks: map<int, seq<int>>)
    returns (path: seq<int>)
    requires Recorded(g, from, d, walks, parent) && to in d
    ensures path == walks[to]
  {
    ghost var w := walks[to];
    ghost var k := |w| - 1;
    var rev := [];
    var cur := to;
    assert w[..k + 1] == w;
    while cur != 0
      invariant 0 <= k < |w| && cur in d && walks[cur] == w[..k + 1] && |rev| == |w| - 1 - k
      invariant forall i :: 0 <= i < |rev| ==> rev[i] == w[|w| - 1 - i]
      decreases k
    {
      rev := rev + [cur];
      if cur == from {
        break;
      }
      cur := parent[cur];
      k := k - 1;
      assert walks[cur] == w[..k + 2][..k + 1] == w[..k + 1];
    }
    assert rev == Reversed(w) && Reversed(rev) == w;
    path := ReverseSlice(rev);
  }

  /** All that the search loop of `ShortestPath` keeps. */
  ghost predicate Running(adj: Adj, from: int, to: int, avoid: int, d: map<int, nat>, walks: map<int, seq<int>>,
                          parent: map<int, int>, seen: set<int>, pending: seq<int>) {
    && Recorded(Avoiding(adj, avoid), from, d, walks, parent)
    && (forall x :: x in seen <==> x in d || (avoid > 0 && x == avoid))
    && (avoid > 0 ==> avoid !in d)
    && to !in d && Searching(adj, Avoiding(adj, avoid), from, d, walks, pending)
  }

  ghost predicate Found(adj: Adj, from: int, to: int, avoid: int, d: map<int, nat>, walks: map<int, seq<int>>,
                        parent: map<int, int>) {
    && Recorded(Avoiding(adj, avoid), from, d, walks, parent) && to in d
    && IsDistance(Avoiding(adj, avoid), from, to, d[to])
    && Least(adj, Avoiding(adj, avoid), walks[to], from, to)
  }

  lemma RecordedGrows(g: set<(int, int)>, s: int, d: map<int, nat>, walks: map<int, seq<int>>, parent: map<int, int>,
                      u: int, v: int)
    requires Recorded(g, s, d, walks, parent) && u in d && v !in d && v != 0 && (u, v) in g
    ensures Recorded(g, s, d[v := d[u] + 1], walks[v := walks[u] + [v]], parent[v := u])
  {
    DiscoverWalk(g, s, d, walks, u, v);
    TreeGrows(g, d, s, walks, u, v);
  }

  lemma DiscoveryIsDistance(adj: Adj, g: set<(int, int)>, s: int, d: map<int, nat>, walks: map<int, seq<int>>, u: int,
                            q: seq<int>, v: int)
    requires Searching(adj, g, s, d, walks, [u] + (q + [v])) && u in d && v in d && v in walks && d[v] == d[u] + 1
    ensures IsDistance(g, s, v, d[v]) && Least(adj, g, walks[v], s, v)
  {
    StoppedAt(g, d, u, q + [v]);
    LabelIsDistance(g, s, d, walks, d[u], v);
  }

  lemma RunDiscovers(adj: Adj, from: int, to: int, avoid: int, d: map<int, nat>, walks: map<int, seq<int>>,
                     parent: map<int, int>, seen: set<int>, u: int, k: nat, q: seq<int>, v: int)
    requires ZeroFree(adj) && Running(adj, from, to, avoid, d, walks, parent, seen, [u] + q)
    requires u in d && u in walks && v !in seen && k < |Nbrs(adj, u)| && Nbrs(adj, u)[k] == v
    requires forall j :: 0 <= j < k ==> Nbrs(adj, u)[j] in seen
    requires forall j :: 0 <= j < |q| ==> Hangs(adj, walks, u, k, q[j])
    ensures var d', walks' := d[v := d[u] + 1], walks[v := walks[u] + [v]];
            if v == to then Found(adj, from, to, avoid, d', walks', parent[v := u])
            else
              && Running(adj, from, to, avoid, d', walks', parent[v := u], seen + {v}, [u] + (q + [v]))
              && forall j :: 0 <= j < |q + [v]| ==> Hangs(adj, walks', u, k + 1, (q + [v])[j])
  {
    hide Recorded, Searching, Hangs, Least, IsDistance;
    var g := Avoiding(adj, avoid);
    assert (u, v) in g;
    SearchDiscovers(adj, g, from, d, walks, u, k, q, v);
    RecordedGrows(g, from, d, walks, parent, u, v);
    if v == to {
      DiscoveryIsDistance(adj, g, from, d[v := d[u] + 1], walks[v := walks[u] + [v]], u, q, v);
    }
  }

  lemma RunMovesOn(adj: Adj, from: int, to: int, avoid: int, d: map<int, nat>, walks: map<int, seq<int>>,
                   parent: map<int, int>, seen: set<int>, u: int, q: seq<int>)
    requires Running(adj, from, to, avoid, d, walks, parent, seen, [u] + q) && u in d
    requires forall j :: 0 <= j < |Nbrs(adj, u)| ==> Nbrs(adj, u)[j] in seen
    requires forall j :: 0 <= j < |q| ==> Hangs(adj, walks, u, |Nbrs(adj, u)|, q[j])
    ensures Running(adj, from, to, avoid, d, walks, parent, seen, q)
    ensures HangingQueue(adj, walks, q)
  {
    var nbrs := Nbrs(adj, u);
    forall v | (u, v) in Avoiding(adj, avoid)
      ensures v in d
    {
      var j :| 0 <= j < |nbrs| && nbrs[j] == v;
      assert nbrs[j] in seen;
    }
    SearchMovesOn(adj, Avoiding(adj, avoid), from, d, walks, u, q);
  }

  /** The loop over the neighbours of the head of the queue. */
  method Expand(adj: Adj, from: int, to: int, avoid: int, u: int, q0: seq<int>, seen0: set<int>, parent0: map<int, int>,
                ghost d0: map<int, nat>, ghost walks0: map<int, seq<int>>, ghost room0: nat)
    returns (found: bool, q: seq<int>, seen: set<int>, parent: map<int, int>,
             ghost d: map<int, nat>, ghost walks: map<int, seq<int>>, ghost room: nat)
    requires ZeroFree(adj) && Running(adj, from, to, avoid, d0, walks0, parent0, seen0, [u] + q0) && u in d0
    requires forall j :: 0 <= j < |q0| ==> Hangs(adj, walks0, u, 0, q0[j])
    requires Room(adj, d0, room0)
    ensures found ==> Found(adj, from, to, avoid, d, walks, parent)
    ensures !found ==> Running(adj, from, to, avoid, d, walks, parent, seen, q)
    ensures !found ==> HangingQueue(adj, walks, q)
    ensures Room(adj, d, room) && room <= room0 && (room == room0 ==> q == q0)
  {
    found, q, seen, parent, d, walks, room := false, q0, seen0, parent0, d0, walks0, room0;
    hide Running, Hangs, Found, Room;
    RunHead(adj, from, to, avoid, d, walks, parent, seen, u, q);
    var nbrs := Nbrs(adj, u);
    for i := 0 to |nbrs|
      invariant !found && u in d && u in walks && forall x :: x in d ==> x in seen
      invariant Running(adj, from, to, avoid, d, walks, parent, seen, [u] + q)
      invariant forall j :: 0 <= j < i ==> nbrs[j] in seen
      invariant forall j :: 0 <= j < |q| ==> Hangs(adj, walks, u, i, q[j])
      invariant Room(adj, d, room) && room <= room0 && (room == room0 ==> q == q0)
    {
      var v := nbrs[i];
      if v in seen {
        HangsOn(adj, walks, u, i, q);
        continue;
      }
      RunDiscovers(adj, from, to, avoid, d, walks, parent, seen, u, i, q, v);
      RoomShrinks(adj, d, room, u, i, d[u] + 1);
      room := room - 1;
      seen := seen + {v};
      parent := parent[v := u];
      d, walks := d[v := d[u] + 1], walks[v := walks[u] + [v]];
      if v == to {
        found := true;
        return;
      }
      q := q + [v];
    }
    RunMovesOn(adj, from, to, avoid, d, walks, parent, seen, u, q);
  }

  lemma RunStarts(adj: Adj, from: int, to: int, avoid: int)
    requires from > 0 && from != to && from != avoid
    ensures Running(adj, from, to, avoid, map[from := 0], map[from := [from]], map[from := 0],
                    if avoid > 0 then {from} + {avoid} else {from}, [from])
  {
    SearchStarts(adj, Avoiding(adj, avoid), from);
  }

  lemma RunExhausted(adj: Adj, from: int, to: int, avoid: int, d: map<int, nat>, walks: map<int, seq<int>>,
                     parent: map<int, int>, seen: set<int>)
    requires Running(adj, from, to, avoid, d, walks, parent, seen, [])
    ensures !PathExists(adj, from, to, avoid)
  {
    ExhaustedIsDistanceMap(Avoiding(adj, avoid), from, d, walks);
  }

  lemma FoundIsLeastShortest(adj: Adj, from: int, to: int, avoid: int, d: map<int, nat>, walks: map<int, seq<int>>,
                             parent: map<int, int>)
    requires Found(adj, from, to, avoid, d, walks, parent)
    requires from > 0 && to > 0 && from != avoid && to != avoid
    ensures Recorded(Avoiding(adj, avoid), from, d, walks, parent) && to in d
    ensures walks[to] != [] && IsLeastShortest(adj, from, to, avoid, walks[to]) && PathExists(adj, from, to, avoid)
  {
    TreeIsSimple(Avoiding(adj, avoid), d, from, walks, to);
  }

  lemma RunHead(adj: Adj, from: int, to: int, avoid: int, d: map<int, nat>, walks: map<int, seq<int>>,
                parent: map<int, int>, seen: set<int>, u: int, q: seq<int>)
    requires Running(adj, from, to, avoid, d, walks, parent, seen, [u] + q)
    ensures u in d && u in walks && forall x :: x in d ==> x in seen
  {
    assert ([u] + q)[0] == u;
  }

  method ShortestPath(adj: Adj, from: int, to: int, avoid: int) returns (path: seq<int>)
    requires ZeroFree(adj)
    ensures path == [] <==> !PathExists(adj, from, to, avoid)
    ensures path != [] ==> IsLeastShortest(adj, from, to, avoid, path)
  {
    if from <= 0 || to <= 0 {
      return [];
    }
    if from == avoid || to == avoid {
      return [];
    }
    if from == to {
      assert IsWalk(Avoiding(adj, avoid), [from], from, to);
      return [from];
    }
    var parent := map[from := 0];
    var seen := {from};
    if avoid > 0 {
      seen := seen + {avoid};
    }
    var q := [from];
    var found := false;
    ghost var d, walks: map<int, seq<int>> := map[from := 0], map[from := [from]];
    ghost var room := RoomExists(adj, d);
    RunStarts(adj, from, to, avoid);
    hide Running, Hangs, Found, Recorded, Room, PathExists, IsLeastShortest, HangingQueue, Avoiding;
    while |q| > 0 && !found
      invariant found ==> Found(adj, from, to, avoid, d, walks, parent)
      invariant !found ==> Running(adj, from, to, avoid, d, walks, parent, seen, q)
      invariant !found ==> HangingQueue(adj, walks, q)
      invariant Room(adj, d, room)
      decreases room, |q|
    {
      var u := q[0];
      assert q == [u] + q[1..];
      RunHead(adj, from, to, avoid, d, walks, parent, seen, u, q[1..]);
      found, q, seen, parent, d, walks, room := Expand(adj, from, to, avoid, u, q[1..], seen, parent, d, walks, room);
    }
    if !found {
      RunExhausted(adj, from, to, avoid, d, walks, parent, seen);
      return [];
    }
    FoundIsLeastShortest(adj, from, to, avoid, d, walks, parent);
    path := WalkBack(parent, from, to, Avoiding(adj, avoid), d, walks);
  }
}
