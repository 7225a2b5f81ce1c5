/** Cycles as they are reported: hops over real links, one key per loop, in order. */
module CycleReport {
  import opened Graph
  import opened CycleKey
  import opened DfsForest
  import opened LoopTheorems
  import opened LoopCount
  import opened Loops

  // ----- hops

  /** No map means no filter; otherwise a missing device counts as offline. */
  ghost predicate Up(online: Option<map<int, bool>>, id: int) {
    online == None || (id in online.value && online.value[id])
  }

  predicate BothOnline(online: Option<map<int, bool>>, a: int, b: int) {
    online.None? || (a in online.value && online.value[a] && b in online.value && online.value[b])
  }

  /** Some link joins the two devices. */
  ghost predicate Tied(links: seq<TopoLink>, u: int, v: int) {
    exists k :: 0 <= k < |links| && Ends(links[k]) == Pair(u, v)
  }

  ghost predicate LinksOnline(links: seq<TopoLink>, online: Option<map<int, bool>>) {
    forall k :: 0 <= k < |links| ==> Up(online, links[k].a) && Up(online, links[k].b)
  }

  /** A hop runs over the link, with each interface index read on its own device. */
  ghost predicate HopRight(h: Hop, l: TopoLink) {
    || h == Hop(l.a, l.aIf, l.b, if l.bIf > 0 then Some(l.bIf) else None, l.protocol)
    || h == Hop(l.b, l.bIf, l.a, if l.aIf > 0 then Some(l.aIf) else None, l.protocol)
  }

  /** The hop from `u` to `v` is an orientation of their first link, and both are online. */
  ghost predicate HopFits(h: Hop, u: int, v: int, links: seq<TopoLink>, online: Option<map<int, bool>>) {
    && h.fromID == u && h.toID == v && Up(online, u) && Up(online, v)
    && exists l :: FirstBetween(links, Pair(u, v), l) && HopRight(h, l)
  }

  /** The hops of a reported cycle chain head to tail over real links. */
  ghost predicate HopsRight(c: TopologyCycle, links: seq<TopoLink>, online: Option<map<int, bool>>) {
    && |c.hops| == |c.deviceIDs|
    && forall i :: 0 <= i < |c.hops| ==> HopFits(c.hops[i], c.deviceIDs[i], Next(c.deviceIDs, i), links, online)
  }

  lemma HopIsReal(links: seq<TopoLink>, index: LinkIndex, online: Option<map<int, bool>>, u: int, v: int)
    requires LinksOnline(links, online) && IsIndex(links, index) && u != v && Tied(links, u, v)
    ensures HopFits(HopBetween(u, v, index), u, v, links, online)
  {
    var k :| 0 <= k < |links| && Ends(links[k]) == Pair(u, v);
    var l := index[Pair(u, v)];
    assert FirstBetween(links, Pair(u, v), l);
    var j :| 0 <= j < |links| && links[j] == l && Ends(l) == Pair(u, v);
    assert Up(online, links[j].a) && Up(online, links[j].b);
    assert HopRight(HopBetween(u, v, index), l);
  }

  lemma HopsAreReal(adj: Adj, links: seq<TopoLink>, index: LinkIndex, online: Option<map<int, bool>>, c: TopologyCycle)
    requires LinksOnline(links, online) && IsIndex(links, index)
    requires forall u, v :: Linked(adj, u, v) ==> u != v && Tied(links, u, v)
    requires IsLoop(adj, c.deviceIDs) && c.hops == Hops(c.deviceIDs, index)
    ensures HopsRight(c, links, online)
  {
    hide LinksOnline, IsIndex, Tied, HopFits, HopBetween, Linked, Next;
    forall i | 0 <= i < |c.hops|
      ensures HopFits(c.hops[i], c.deviceIDs[i], Next(c.deviceIDs, i), links, online)
    {
      HopIsReal(links, index, online, c.deviceIDs[i], Next(c.deviceIDs, i));
    }
  }

  // ----- keys of reported cycles

  /** The public key; parallel links between two devices get a name of their own. */
  function KeyFor(ids: seq<int>): string {
    if |ids| == 2 then "parallel:" + Key(ids) else Key(ids)
  }

  lemma KeyStart(a: seq<int>)
    ensures |a| == 0 ==> Key(a) == ""
    ensures |a| > 0 ==> |Key(a)| > 0 && Key(a)[0] == '['
  {
    if |a| > 0 {
      var x := KeySource(a);
      assert Render(x)[0] == '[';
    }
  }

  /** The public key names loops exactly as the plain key does. */
  lemma KeyForIsCanonical(a: seq<int>, b: seq<int>)
    requires Distinct(a)
    ensures KeyFor(a) == KeyFor(b) <==> SameLoop(a, b)
  {
    KeyIsCanonical(a, b);
    KeyStart(a);
    KeyStart(b);
    if SameLoop(a, b) {
      assert |a| == |b|;
    }
    if |a| == 2 {
      assert KeyFor(a)[0] == 'p' && KeyFor(a)[9..] == Key(a);
    }
    if |b| == 2 {
      assert KeyFor(b)[0] == 'p' && KeyFor(b)[9..] == Key(b);
    }
  }

  lemma RenderMore(x: int, rest: seq<int>)
    requires |rest| > 0
    ensures RenderFrom([x] + rest) == Decimal(x) + (" " + RenderFrom(rest))
    ensures RenderFrom([x]) == Decimal(x) + "]"
  {
    assert ([x] + rest)[1..] == rest;
  }

  /** The text of two and of three ids, from decimals known as `p`, `q` and `r`. */
  lemma RenderThree(a: int, b: int, c: int, p: string, q: string, r: string)
    requires Decimal(a) == p && Decimal(b) == q && Decimal(c) == r
    ensures Render([a, b, c]) == "[" + (p + (" " + (q + (" " + (r + "]")))))
    ensures Render([a, b]) == "[" + (p + (" " + (q + "]")))
  {
    RenderMore(c, [0]);
    RenderMore(b, [c]);
    RenderMore(a, [b, c]);
    RenderMore(a, [b]);
    assert [b] + [c] == [b, c] && [a] + [b, c] == [a, b, c] && [a] + [b] == [a, b];
    hide RenderFrom, Decimal;
  }

  lemma KeyOfThree(a: int, b: int, c: int)
    requires b < a && b < c
    ensures Key([a, b, c]) == MinText(Render([b, c, a]), Render([b, a, c]))
  {
    var ids := [a, b, c];
    assert ids[1] == b && ids[MinIndex(ids)] <= ids[1];
    assert Forward(ids) == [b, c, a];
    assert Reversed(ids) == [c, b, a];
    assert Backward(ids) == [b, a, c];
  }

  lemma KeyOfTwo(a: int, b: int)
    requires a < b
    ensures Key([b, a]) == Render([a, b])
  {
    hide Render;
    var ids := [b, a];
    assert ids[1] == a && ids[MinIndex(ids)] <= ids[1];
    assert Forward(ids) == [a, b];
    assert Reversed(ids) == [a, b] && Backward(ids) == [a, b];
  }

  lemma Decimals()
    ensures Decimal(1) == "1" && Decimal(2) == "2" && Decimal(3) == "3" && Decimal(10) == "10"
  {
    assert Digits(10) == Digits(1) + "0";
  }

  /** The smallest id leads, the direction with the lesser text wins, and two
      devices have a prefix of their own. */
  lemma KeyExamples()
    ensures Key([3, 1, 2]) == "[1 2 3]" && Key([10, 1, 2]) == "[1 10 2]"
    ensures KeyFor([2, 1]) == "parallel:[1 2]"
  {
    hide Key, Render, Decimal;
    Decimals();
    KeyOfThree(3, 1, 2);
    KeyOfThree(10, 1, 2);
    KeyOfTwo(1, 2);
    RenderThree(1, 2, 3, "1", "2", "3");
    RenderThree(1, 3, 2, "1", "3", "2");
    RenderThree(1, 2, 10, "1", "2", "10");
    RenderThree(1, 10, 2, "1", "10", "2");
    LessAt(Render([1, 2, 3]), Render([1, 3, 2]), 3);
    LessAt(Render([1, 10, 2]), Render([1, 2, 10]), 3);
  }

  lemma LessAt(a: string, b: string, n: nat)
    requires n < |a| && n < |b| && a[..n] == b[..n] && a[n] < b[n]
    ensures Less(a, b) && !Less(b, a)
  {
    LessMeans(a, b);
    LessTotal(a, b);
  }

  ghost predicate HasKey(cycles: seq<TopologyCycle>, key: string) {
    exists i :: 0 <= i < |cycles| && KeyFor(cycles[i].deviceIDs) == key
  }

  ghost predicate KeysDiffer(cycles: seq<TopologyCycle>) {
    forall i, j :: 0 <= i < j < |cycles| ==> KeyFor(cycles[i].deviceIDs) != KeyFor(cycles[j].deviceIDs)
  }

  lemma AddUnique(uniq: seq<TopologyCycle>, seen: set<string>, c: TopologyCycle)
    requires (forall key :: key in seen <==> HasKey(uniq, key)) && KeysDiffer(uniq) && KeyFor(c.deviceIDs) !in seen
    ensures KeysDiffer(uniq + [c])
    ensures forall key :: key in seen + {KeyFor(c.deviceIDs)} <==> HasKey(uniq + [c], key)
  {
    hide KeyFor;
    var all := uniq + [c];
    assert all[|uniq|] == c && forall i :: 0 <= i < |uniq| ==> all[i] == uniq[i];
    forall i | 0 <= i < |uniq|
      ensures KeyFor(uniq[i].deviceIDs) != KeyFor(c.deviceIDs)
    {
      assert HasKey(uniq, KeyFor(uniq[i].deviceIDs));
    }
    forall key
      ensures key in seen + {KeyFor(c.deviceIDs)} <==> HasKey(all, key)
    {
      if key in seen {
        var i :| 0 <= i < |uniq| && KeyFor(uniq[i].deviceIDs) == key;
        assert KeyFor(all[i].deviceIDs) == key;
      }
    }
  }

  lemma FreshKey(cycles: seq<TopologyCycle>, k: nat)
    requires KeysDiffer(cycles) && k < |cycles|
    ensures !HasKey(cycles[..k], KeyFor(cycles[k].deviceIDs))
  {
  }

  /** Keeps the first cycle of every key. */
  method DedupeCycles(cycles: seq<TopologyCycle>) returns (uniq: seq<TopologyCycle>)
    ensures KeysDiffer(uniq) && forall k :: 0 <= k < |cycles| ==> HasKey(uniq, KeyFor(cycles[k].deviceIDs))
    ensures forall c :: c in uniq ==> c in cycles
    ensures KeysDiffer(cycles) ==> uniq == cycles
  {
    hide KeyFor, KeysDiffer, HasKey;
    var seen: set<string> := {};
    uniq := [];
    NoKeys();
    for k := 0 to |cycles|
      invariant KeysDiffer(uniq) && forall key :: key in seen <==> HasKey(uniq, key)
      invariant forall c :: c in uniq ==> c in cycles
      invariant forall i :: 0 <= i < k ==> KeyFor(cycles[i].deviceIDs) in seen
      invariant KeysDiffer(cycles) ==> uniq == cycles[..k]
    {
      var key := KeyFor(cycles[k].deviceIDs);
      if KeysDiffer(cycles) {
        FreshKey(cycles, k);
      }
      if key in seen {
        continue;
      }
      AddUnique(uniq, seen, cycles[k]);
      seen := seen + {key};
      uniq := uniq + [cycles[k]];
      assert cycles[..k + 1] == cycles[..k] + [cycles[k]];
    }
    assert cycles[..|cycles|] == cycles;
  }

  lemma NoKeys()
    ensures KeysDiffer([]) && forall key :: !HasKey([], key)
  {
  }

  // ----- order

  /** The text that describes a cycle; device names go into it. */
  type Summary = (seq<int>, seq<Hop>) -> string

  lemma {:induction false} NotLessTransitive(a: string, b: string, c: string)
    requires !Less(b, a) && !Less(c, b)
    ensures !Less(c, a)
    decreases |a|
  {
    if |a| > 0 && |b| > 0 && |c| > 0 && a[0] == b[0] == c[0] {
      NotLessTransitive(a[1..], b[1..], c[1..]);
    }
  }

  /** By length, then by text. */
  predicate InOrder(a: TopologyCycle, b: TopologyCycle, summary: Summary) {
    || |a.deviceIDs| < |b.deviceIDs|
    || (|a.deviceIDs| == |b.deviceIDs| && !Less(summary(b.deviceIDs, b.hops), summary(a.deviceIDs, a.hops)))
  }

  lemma InOrderTransitive(a: TopologyCycle, b: TopologyCycle, c: TopologyCycle, summary: Summary)
    requires InOrder(a, b, summary) && InOrder(b, c, summary)
    ensures InOrder(a, c, summary)
  {
    if |a.deviceIDs| == |b.deviceIDs| == |c.deviceIDs| {
      NotLessTransitive(summary(a.deviceIDs, a.hops), summary(b.deviceIDs, b.hops), summary(c.deviceIDs, c.hops));
    }
  }

  lemma InOrderTotal(a: TopologyCycle, b: TopologyCycle, summary: Summary)
    ensures InOrder(a, b, summary) || InOrder(b, a, summary)
  {
    LessTotal(summary(a.deviceIDs, a.hops), summary(b.deviceIDs, b.hops));
  }

  /** Shorter cycles stand first; of equally long ones no later text comes before. */
  ghost predicate Sorted(a: TopologyCycle, b: TopologyCycle, summary: Summary) {
    && |a.deviceIDs| <= |b.deviceIDs|
    && (|a.deviceIDs| == |b.deviceIDs| ==> !Before(summary(b.deviceIDs, b.hops), summary(a.deviceIDs, a.hops)))
  }

  ghost predicate Ordered(cycles: seq<TopologyCycle>, summary: Summary) {
    forall i, j :: 0 <= i < j < |cycles| ==> Sorted(cycles[i], cycles[j], summary)
  }

  lemma InOrderMeans(a: TopologyCycle, b: TopologyCycle, summary: Summary)
    ensures InOrder(a, b, summary) <==> Sorted(a, b, summary)
  {
    LessMeans(summary(b.deviceIDs, b.hops), summary(a.deviceIDs, a.hops));
  }

  function InsertCycle(s: seq<TopologyCycle>, c: TopologyCycle, summary: Summary): seq<TopologyCycle> {
    if |s| == 0 || InOrder(c, s[0], summary) then [c] + s else [s[0]] + InsertCycle(s[1..], c, summary)
  }

  function SortCycles(s: seq<TopologyCycle>, summary: Summary): seq<TopologyCycle> {
    if |s| == 0 then [] else InsertCycle(SortCycles(s[1..], summary), s[0], summary)
  }

  lemma {:induction false} InsertAdds(s: seq<TopologyCycle>, c: TopologyCycle, summary: Summary)
    ensures multiset(InsertCycle(s, c, summary)) == multiset(s) + multiset{c}
    decreases |s|
  {
    hide InOrder;
    if |s| > 0 {
      assert s == [s[0]] + s[1..];
      if !InOrder(c, s[0], summary) {
        InsertAdds(s[1..], c, summary);
      }
    }
  }

  lemma InsertedOrSame(s: seq<TopologyCycle>, c: TopologyCycle, summary: Summary, i: nat)
    requires i < |InsertCycle(s, c, summary)|
    ensures InsertCycle(s, c, summary)[i] == c || InsertCycle(s, c, summary)[i] in s
  {
    hide InsertCycle;
    InsertAdds(s, c, summary);
    var t := InsertCycle(s, c, summary);
    assert t[i] in multiset(t);
  }

  lemma {:induction false} InsertOrdered(s: seq<TopologyCycle>, c: TopologyCycle, summary: Summary)
    requires Ordered(s, summary)
    ensures Ordered(InsertCycle(s, c, summary), summary)
    decreases |s|
  {
    hide InOrder, Sorted;
    if |s| > 0 {
      InOrderMeans(c, s[0], summary);
      if InOrder(c, s[0], summary) {
        forall i | 0 < i < |s|
          ensures Sorted(c, s[i], summary)
        {
          InOrderMeans(s[0], s[i], summary);
          InOrderTransitive(c, s[0], s[i], summary);
          InOrderMeans(c, s[i], summary);
        }
      } else {
        InOrderTotal(c, s[0], summary);
        InOrderMeans(s[0], c, summary);
        InsertOrdered(s[1..], c, summary);
        var t := InsertCycle(s[1..], c, summary);
        forall i | 0 <= i < |t|
          ensures Sorted(s[0], t[i], summary)
        {
          InsertedOrSame(s[1..], c, summary, i);
        }
      }
    }
  }

  lemma {:induction false} SortOrdered(s: seq<TopologyCycle>, summary: Summary)
    ensures Ordered(SortCycles(s, summary), summary) && multiset(SortCycles(s, summary)) == multiset(s)
    decreases |s|
  {
    hide InOrder, InsertCycle;
    if |s| > 0 {
      SortOrdered(s[1..], summary);
      InsertOrdered(SortCycles(s[1..], summary), s[0], summary);
      InsertAdds(SortCycles(s[1..], summary), s[0], summary);
      assert s == [s[0]] + s[1..];
    }
  }

  // ----- the end of every report

  function Named(c: TopologyCycle): TopologyCycle {
    c.(cycleKey := KeyFor(c.deviceIDs))
  }

  /** Fills in the keys. */
  method NameCycles(cycles: seq<TopologyCycle>) returns (r: seq<TopologyCycle>)
    ensures |r| == |cycles| && forall i :: 0 <= i < |r| ==> r[i] == Named(cycles[i])
  {
    hide KeyFor;
    r := cycles;
    for i := 0 to |cycles|
      invariant |r| == |cycles| && forall j :: 0 <= j < |r| ==> r[j] == if j < i then Named(cycles[j]) else cycles[j]
    {
      r := r[i := r[i].(cycleKey := KeyFor(r[i].deviceIDs))];
    }
  }

  /** `r` holds exactly the cycles `found`, named, each once and in order. */
  ghost predicate IsFinished(found: seq<TopologyCycle>, r: seq<TopologyCycle>, summary: Summary) {
    && |r| == |found| && KeysDiffer(r) && Ordered(r, summary)
    && (forall i :: 0 <= i < |r| ==> exists k :: 0 <= k < |found| && r[i] == Named(found[k]))
    && (forall k :: 0 <= k < |found| ==> Named(found[k]) in r)
  }

  lemma {:induction false} OnceEach(s: seq<TopologyCycle>, c: TopologyCycle)
    requires KeysDiffer(s)
    ensures multiset(s)[c] <= 1
    decreases |s|
  {
    hide KeyFor;
    if |s| > 0 {
      OnceEach(s[1..], c);
      assert s == [s[0]] + s[1..];
      assert c == s[0] ==> c !in s[1..];
    }
  }

  lemma TwiceIsTwo(s: seq<TopologyCycle>, i: nat, j: nat)
    requires i < j < |s| && s[i] == s[j]
    ensures multiset(s)[s[i]] >= 2
  {
    assert s == s[..j] + s[j..];
    assert s[..j][i] == s[i] && s[j..][0] == s[j];
    assert s[i] in multiset(s[..j]) && s[i] in multiset(s[j..]);
  }

  /** Sorting keeps keys apart. */
  lemma PermutedKeysDiffer(s: seq<TopologyCycle>, r: seq<TopologyCycle>)
    requires KeysDiffer(s) && multiset(r) == multiset(s)
    ensures KeysDiffer(r)
  {
    hide KeyFor;
    forall i, j | 0 <= i < j < |r|
      ensures KeyFor(r[i].deviceIDs) != KeyFor(r[j].deviceIDs)
    {
      assert r[i] in multiset(r) && r[j] in multiset(r);
      assert r[i] in s && r[j] in s;
      if r[i] == r[j] {
        TwiceIsTwo(r, i, j);
        OnceEach(s, r[i]);
      }
    }
  }

  lemma FinishedAfterSort(found: seq<TopologyCycle>, sorted: seq<TopologyCycle>, r: seq<TopologyCycle>,
                          summary: Summary)
    requires KeysDiffer(sorted) && Ordered(sorted, summary) && multiset(sorted) == multiset(found)
    requires |r| == |sorted| && forall i :: 0 <= i < |r| ==> r[i] == Named(sorted[i])
    ensures IsFinished(found, r, summary)
  {
    hide KeyFor;
    assert |multiset(sorted)| == |multiset(found)|;
    forall i | 0 <= i < |r|
      ensures exists k :: 0 <= k < |found| && r[i] == Named(found[k])
    {
      assert sorted[i] in multiset(sorted);
      var k :| 0 <= k < |found| && found[k] == sorted[i];
    }
    forall k | 0 <= k < |found|
      ensures Named(found[k]) in r
    {
      assert found[k] in multiset(found) && found[k] in multiset(sorted);
      var i :| 0 <= i < |sorted| && sorted[i] == found[k];
      assert r[i] == Named(found[k]);
    }
  }

  /** Duplicates out, sort, name: nothing found is lost or repeated. */
  method FinishReport(found: seq<TopologyCycle>, summary: Summary) returns (r: seq<TopologyCycle>)
    requires KeysDiffer(found)
    ensures IsFinished(found, r, summary)
  {
    hide KeysDiffer, Ordered, IsFinished, Named, SortCycles;
    var uniq := DedupeCycles(found);
    var sorted := SortCycles(uniq, summary);
    SortOrdered(uniq, summary);
    PermutedKeysDiffer(uniq, sorted);
    r := NameCycles(sorted);
    FinishedAfterSort(found, sorted, r, summary);
  }

  /** What the loop watch relies on: distinct devices, and the key left out or right. */
  ghost predicate WellNamed(c: TopologyCycle) {
    Distinct(c.deviceIDs) && |c.deviceIDs| > 0 && (c.cycleKey == "" || c.cycleKey == KeyFor(c.deviceIDs))
  }

  lemma FinishedIsWellNamed(found: seq<TopologyCycle>, r: seq<TopologyCycle>, summary: Summary)
    requires IsFinished(found, r, summary)
    requires forall k :: 0 <= k < |found| ==> |found[k].deviceIDs| > 0 && Distinct(found[k].deviceIDs)
    ensures forall i :: 0 <= i < |r| ==> WellNamed(r[i])
  {
    hide KeyFor, Distinct;
  }

  lemma SameDevices(found: seq<TopologyCycle>, r: seq<TopologyCycle>, summary: Summary)
    requires IsFinished(found, r, summary)
    ensures forall i :: 0 <= i < |r| ==> Devices(r)[i] in Devices(found)
    ensures forall k :: 0 <= k < |found| ==> Devices(found)[k] in Devices(r)
  {
    hide KeyFor, Ordered, KeysDiffer;
    var a, b := Devices(found), Devices(r);
    forall i | 0 <= i < |r|
      ensures b[i] in a
    {
      var k :| 0 <= k < |found| && r[i] == Named(found[k]);
      assert a[k] == b[i];
    }
    forall k | 0 <= k < |found|
      ensures a[k] in b
    {
      var i :| 0 <= i < |r| && r[i] == Named(found[k]);
      assert b[i] == a[k];
    }
  }

  lemma PlainKeysDiffer(r: seq<TopologyCycle>)
    requires KeysDiffer(r) && forall i :: 0 <= i < |r| ==> |Devices(r)[i]| >= 3
    ensures forall i, j :: 0 <= i < j < |r| ==> Key(Devices(r)[i]) != Key(Devices(r)[j])
  {
    hide Key;
    forall i, j | 0 <= i < j < |r|
      ensures Key(Devices(r)[i]) != Key(Devices(r)[j])
    {
      assert KeyFor(r[i].deviceIDs) != KeyFor(r[j].deviceIDs);
    }
  }

  lemma ReportedAreLoops(adj: Adj, a: seq<seq<int>>, b: seq<seq<int>>)
    requires IsLoopReport(adj, a) && forall i :: 0 <= i < |b| ==> b[i] in a
    ensures forall i :: 0 <= i < |b| ==> IsLoop(adj, b[i]) && |b[i]| >= 3
  {
    hide Key, OnSomeLoop, Bridge, Components, Links;
    forall i | 0 <= i < |b|
      ensures IsLoop(adj, b[i])
    {
      var k :| 0 <= k < |a| && a[k] == b[i];
      assert IsLoop(adj, a[k]);
    }
  }

  lemma SameReport(adj: Adj, a: seq<seq<int>>, b: seq<seq<int>>)
    requires IsLoopReport(adj, a) && |a| == |b|
    requires forall i :: 0 <= i < |b| ==> b[i] in a && IsLoop(adj, b[i])
    requires forall k :: 0 <= k < |a| ==> a[k] in b
    requires forall i, j :: 0 <= i < j < |b| ==> Key(b[i]) != Key(b[j])
    ensures IsLoopReport(adj, b)
  {
    hide Key, OnSomeLoop, Bridge, Components, Links, IsLoop, Linked;
    forall x, y
      ensures OnSomeLoop(a, x, y) <==> OnSomeLoop(b, x, y)
    {
      SameLoopsOn(a, b, x, y);
      SameLoopsOn(b, a, x, y);
    }
  }

  /** The report's laws do not depend on the order of the cycles. */
  lemma ReportInAnyOrder(adj: Adj, found: seq<TopologyCycle>, r: seq<TopologyCycle>, summary: Summary)
    requires IsFinished(found, r, summary) && IsLoopReport(adj, Devices(found))
    ensures IsLoopReport(adj, Devices(r))
  {
    assert |r| == |found| && KeysDiffer(r);
    hide IsFinished, IsLoopReport, KeysDiffer, IsLoop, Key;
    SameDevices(found, r, summary);
    ReportedAreLoops(adj, Devices(found), Devices(r));
    PlainKeysDiffer(r);
    SameReport(adj, Devices(found), Devices(r));
  }

  lemma SameLoopsOn(a: seq<seq<int>>, b: seq<seq<int>>, x: int, y: int)
    requires forall k :: 0 <= k < |a| ==> a[k] in b
    ensures OnSomeLoop(a, x, y) ==> OnSomeLoop(b, x, y)
  {
    hide OnLoop;
    if OnSomeLoop(a, x, y) {
      var k :| 0 <= k < |a| && OnLoop(a[k], x, y);
      var i :| 0 <= i < |b| && b[i] == a[k];
    }
  }

  lemma DistinctKeys(adj: Adj, cycles: seq<TopologyCycle>)
    requires IsLoopReport(adj, Devices(cycles))
    ensures KeysDiffer(cycles)
    ensures forall k :: 0 <= k < |cycles| ==> IsLoop(adj, cycles[k].deviceIDs)
  {
    hide Key;
    forall k | 0 <= k < |cycles|
      ensures IsLoop(adj, cycles[k].deviceIDs)
    {
      assert IsLoop(adj, Devices(cycles)[k]);
    }
    forall i, j | 0 <= i < j < |cycles|
      ensures KeyFor(cycles[i].deviceIDs) != KeyFor(cycles[j].deviceIDs)
    {
      assert Key(Devices(cycles)[i]) != Key(Devices(cycles)[j]);
    }
  }

  /** All cycles of the report run over real links between online devices. */
  lemma FoundHops(adj: Adj, links: seq<TopoLink>, index: LinkIndex, online: Option<map<int, bool>>,
                  found: seq<TopologyCycle>)
    requires LinksOnline(links, online) && IsIndex(links, index)
    requires forall u, v :: Linked(adj, u, v) ==> u != v && Tied(links, u, v)
    requires forall k :: 0 <= k < |found| ==>
        IsLoop(adj, found[k].deviceIDs) && found[k].hops == Hops(found[k].deviceIDs, index)
    ensures forall k :: 0 <= k < |found| ==> HopsRight(found[k], links, online)
  {
    hide LinksOnline, IsIndex, Tied, IsLoop, Hops, HopsRight, Linked;
    forall k | 0 <= k < |found|
      ensures HopsRight(found[k], links, online)
    {
      HopsAreReal(adj, links, index, online, found[k]);
    }
  }

  lemma FinishedHops(found: seq<TopologyCycle>, r: seq<TopologyCycle>, summary: Summary, links: seq<TopoLink>,
                     online: Option<map<int, bool>>)
    requires IsFinished(found, r, summary) && forall k :: 0 <= k < |found| ==> HopsRight(found[k], links, online)
    ensures forall i :: 0 <= i < |r| ==> HopsRight(r[i], links, online)
  {
    hide HopFits, KeyFor;
  }
}
