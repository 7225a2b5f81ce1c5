/** The periodic loop watch: an alert for every loop that was not known before. */
module LoopWatch {
  import opened Graph
  import opened CycleKey
  import opened Loops
  import opened CycleReport

  function CycleKeyFor(c: TopologyCycle): string {
    if c.cycleKey != "" then c.cycleKey else KeyFor(c.deviceIDs)
  }

  /** One pass: the report, or a failure to build it. */
  datatype Pass = Pass(report: Option<seq<TopologyCycle>>, seedOnly: bool)

  datatype State = State(known: set<string>, alerts: seq<TopologyCycle>)

  function See(s: State, c: TopologyCycle, seedOnly: bool): State {
    var key := CycleKeyFor(c);
    if key == "" || key in s.known then s
    else State(s.known + {key}, if seedOnly then s.alerts else s.alerts + [c])
  }

  function SeeAll(s: State, cycles: seq<TopologyCycle>, seedOnly: bool): State
    decreases |cycles|
  {
    if |cycles| == 0 then s else See(SeeAll(s, cycles[..|cycles| - 1], seedOnly), cycles[|cycles| - 1], seedOnly)
  }

  function RunPass(s: State, p: Pass): State {
    if p.report.None? then s else SeeAll(s, p.report.value, p.seedOnly)
  }

  function Run(s: State, passes: seq<Pass>): State
    decreases |passes|
  {
    if |passes| == 0 then s else RunPass(Run(s, passes[..|passes| - 1]), passes[|passes| - 1])
  }

  class Hub {
    var busy: bool
    var seeded: bool
    var knownKeys: set<string>
    var alerts: seq<TopologyCycle>

    constructor ()
      ensures !busy && !seeded && Value() == State({}, [])
    {
      busy, seeded, knownKeys, alerts := false, false, {}, [];
    }

    function Value(): State
      reads this
    {
      State(knownKeys, alerts)
    }

    /** A pass does nothing while another one is under way. */
    method RunOnce(p: Pass)
      modifies this
      ensures busy == old(busy)
      ensures old(busy) ==> Value() == old(Value()) && seeded == old(seeded)
      ensures !old(busy) ==>
          Value() == RunPass(old(Value()), p) && seeded == (old(seeded) || (p.seedOnly && p.report.Some?))
    {
      if busy {
        return;
      }
      busy := true;
      if p.report.None? {
        busy := false;
        return;
      }
      var cycles := p.report.value;
      for i := 0 to |cycles|
        invariant busy && seeded == old(seeded)
        invariant Value() == SeeAll(old(Value()), cycles[..i], p.seedOnly)
      {
        assert cycles[..i + 1][..i] == cycles[..i];
        var key := CycleKeyFor(cycles[i]);
        if key == "" {
          continue;
        }
        var seen := key in knownKeys;
        if !seen {
          knownKeys := knownKeys + {key};
        }
        if p.seedOnly || seen {
          continue;
        }
        alerts := alerts + [cycles[i]];
      }
      assert cycles[..|cycles|] == cycles;
      if p.seedOnly {
        seeded := true;
      }
      busy := false;
    }
  }

  /** Alerts have different keys, and all of them are known. */
  ghost predicate AlertsKnown(s: State) {
    && (forall i :: 0 <= i < |s.alerts| ==> CycleKeyFor(s.alerts[i]) in s.known)
    && (forall i, j :: 0 <= i < j < |s.alerts| ==> CycleKeyFor(s.alerts[i]) != CycleKeyFor(s.alerts[j]))
  }

  /** Keys stay known, alerts stay, and later alerts are for keys unknown before. */
  ghost predicate Grows(s: State, t: State) {
    && s.known <= t.known && s.alerts <= t.alerts
    && forall i :: |s.alerts| <= i < |t.alerts| ==> CycleKeyFor(t.alerts[i]) !in s.known
  }

  lemma SeeGrows(s: State, c: TopologyCycle, seedOnly: bool)
    requires AlertsKnown(s)
    ensures AlertsKnown(See(s, c, seedOnly)) && Grows(s, See(s, c, seedOnly))
    ensures CycleKeyFor(c) != "" ==> CycleKeyFor(c) in See(s, c, seedOnly).known
  {
    hide CycleKeyFor;
  }

  lemma GrowsTransitive(s: State, t: State, u: State)
    requires Grows(s, t) && Grows(t, u)
    ensures Grows(s, u)
  {
    hide CycleKeyFor;
    forall i | |s.alerts| <= i < |u.alerts|
      ensures CycleKeyFor(u.alerts[i]) !in s.known
    {
      if i < |t.alerts| {
        assert u.alerts[i] == t.alerts[i];
      }
    }
  }

  lemma {:induction false} SeeAllGrows(s: State, cycles: seq<TopologyCycle>, seedOnly: bool)
    requires AlertsKnown(s)
    ensures AlertsKnown(SeeAll(s, cycles, seedOnly)) && Grows(s, SeeAll(s, cycles, seedOnly))
    decreases |cycles|
  {
    hide CycleKeyFor, AlertsKnown, Grows, See;
    if |cycles| > 0 {
      var n := |cycles| - 1;
      var m := SeeAll(s, cycles[..n], seedOnly);
      SeeAllGrows(s, cycles[..n], seedOnly);
      SeeGrows(m, cycles[n], seedOnly);
      GrowsTransitive(s, m, See(m, cycles[n], seedOnly));
    } else {
      SelfGrows(s);
    }
  }

  lemma {:induction false} SeeAllKnows(s: State, cycles: seq<TopologyCycle>, seedOnly: bool, k: nat)
    requires AlertsKnown(s) && k < |cycles| && CycleKeyFor(cycles[k]) != ""
    ensures CycleKeyFor(cycles[k]) in SeeAll(s, cycles, seedOnly).known
    decreases |cycles|
  {
    hide CycleKeyFor, AlertsKnown, Grows, See;
    var n := |cycles| - 1;
    var m := SeeAll(s, cycles[..n], seedOnly);
    SeeAllGrows(s, cycles[..n], seedOnly);
    SeeGrows(m, cycles[n], seedOnly);
    if k < n {
      assert cycles[..n][k] == cycles[k];
      SeeAllKnows(s, cycles[..n], seedOnly, k);
      KnownGrows(m, See(m, cycles[n], seedOnly));
    }
  }

  lemma KnownGrows(s: State, t: State)
    requires Grows(s, t)
    ensures forall key :: key in s.known ==> key in t.known
  {
  }

  lemma {:induction false} RunKnown(s: State, passes: seq<Pass>)
    requires AlertsKnown(s)
    ensures AlertsKnown(Run(s, passes))
    decreases |passes|
  {
    if |passes| > 0 {
      hide AlertsKnown, Grows, RunPass;
      RunKnown(s, passes[..|passes| - 1]);
      PassGrows(Run(s, passes[..|passes| - 1]), passes[|passes| - 1]);
    }
  }

  lemma {:induction false} RunGrows(s: State, passes: seq<Pass>, m: nat)
    requires AlertsKnown(s) && m <= |passes|
    ensures Grows(Run(s, passes[..m]), Run(s, passes))
    decreases |passes|
  {
    hide AlertsKnown, Grows, RunPass;
    if m == |passes| {
      assert passes[..m] == passes;
      SelfGrows(Run(s, passes));
    } else {
      var n := |passes| - 1;
      var t := Run(s, passes[..n]);
      RunKnown(s, passes[..n]);
      RunGrows(s, passes[..n], m);
      assert passes[..n][..m] == passes[..m];
      PassGrows(t, passes[n]);
      GrowsTransitive(Run(s, passes[..m]), t, Run(s, passes));
    }
  }

  lemma SelfGrows(s: State)
    ensures Grows(s, s)
  {
  }

  lemma PassGrows(s: State, p: Pass)
    requires AlertsKnown(s)
    ensures AlertsKnown(RunPass(s, p)) && Grows(s, RunPass(s, p))
    ensures p.report.Some? ==>
        forall c :: c in p.report.value && CycleKeyFor(c) != "" ==> CycleKeyFor(c) in RunPass(s, p).known
  {
    hide AlertsKnown, Grows, SeeAll, CycleKeyFor;
    if p.report.Some? {
      var cycles := p.report.value;
      SeeAllGrows(s, cycles, p.seedOnly);
      forall c | c in cycles && CycleKeyFor(c) != ""
        ensures CycleKeyFor(c) in SeeAll(s, cycles, p.seedOnly).known
      {
        var k :| 0 <= k < |cycles| && cycles[k] == c;
        SeeAllKnows(s, cycles, p.seedOnly, k);
      }
    } else {
      SelfGrows(s);
    }
  }

  lemma KeyNotEmpty(c: TopologyCycle)
    requires WellNamed(c)
    ensures CycleKeyFor(c) == KeyFor(c.deviceIDs) && CycleKeyFor(c) != ""
  {
    KeyStart(c.deviceIDs);
  }

  // ----- what the report guarantees of its cycles

  ghost predicate AllNamed(cycles: seq<TopologyCycle>) {
    forall i :: 0 <= i < |cycles| ==> WellNamed(cycles[i])
  }

  /** Every pass got its cycles from `BuildLoopReport`, which names them well. */
  ghost predicate NamedReports(passes: seq<Pass>) {
    forall m :: 0 <= m < |passes| && passes[m].report.Some? ==> AllNamed(passes[m].report.value)
  }

  lemma {:induction false} SeeAllNamed(s: State, cycles: seq<TopologyCycle>, seedOnly: bool)
    requires AllNamed(s.alerts) && AllNamed(cycles)
    ensures AllNamed(SeeAll(s, cycles, seedOnly).alerts)
    decreases |cycles|
  {
    hide WellNamed, CycleKeyFor;
    if |cycles| > 0 {
      SeeAllNamed(s, cycles[..|cycles| - 1], seedOnly);
    }
  }

  lemma {:induction false} AlertsAreNamed(passes: seq<Pass>)
    requires NamedReports(passes)
    ensures AllNamed(Run(State({}, []), passes).alerts)
    decreases |passes|
  {
    hide WellNamed, SeeAll;
    if |passes| > 0 {
      var n := |passes| - 1;
      AlertsAreNamed(passes[..n]);
      if passes[n].report.Some? {
        SeeAllNamed(Run(State({}, []), passes[..n]), passes[n].report.value, passes[n].seedOnly);
      }
    }
  }

  /** Over a whole run no loop alerts twice, from whatever device and in whatever
      direction it was found. */
  lemma AlertsOnce(passes: seq<Pass>, i: nat, j: nat)
    requires NamedReports(passes) && i < j < |Run(State({}, []), passes).alerts|
    ensures var alerts := Run(State({}, []), passes).alerts;
            !SameLoop(alerts[i].deviceIDs, alerts[j].deviceIDs)
  {
    var alerts := Run(State({}, []), passes).alerts;
    RunKnown(State({}, []), passes);
    AlertsAreNamed(passes);
    KeyNotEmpty(alerts[i]);
    KeyNotEmpty(alerts[j]);
    KeyForIsCanonical(alerts[i].deviceIDs, alerts[j].deviceIDs);
  }

  /** A loop reported by pass `m`, the seed pass for one, never alerts in a later pass. */
  lemma KnownLoopNeverAlerts(passes: seq<Pass>, m: nat, c: TopologyCycle, i: nat)
    requires NamedReports(passes) && m < |passes| && passes[m].report.Some? && c in passes[m].report.value
    requires |Run(State({}, []), passes[..m + 1]).alerts| <= i < |Run(State({}, []), passes).alerts|
    ensures !SameLoop(c.deviceIDs, Run(State({}, []), passes).alerts[i].deviceIDs)
  {
    var s := State({}, []);
    var a := Run(s, passes).alerts[i];
    RunGrows(s, passes, m + 1);
    RunKnown(s, passes[..m]);
    assert passes[..m + 1][..m] == passes[..m] && passes[..m + 1][m] == passes[m];
    PassGrows(Run(s, passes[..m]), passes[m]);
    AlertsAreNamed(passes);
    KeyNotEmpty(c);
    KeyNotEmpty(a);
    KeyForIsCanonical(c.deviceIDs, a.deviceIDs);
  }

  // ----- which loops alert

  ghost predicate Keyed(cycles: seq<TopologyCycle>, from: nat, key: string) {
    exists i :: from <= i < |cycles| && CycleKeyFor(cycles[i]) == key
  }

  lemma KeyedMore(cycles: seq<TopologyCycle>, from: nat, c: TopologyCycle, key: string)
    requires from <= |cycles|
    ensures Keyed(cycles + [c], from, key) <==> Keyed(cycles, from, key) || CycleKeyFor(c) == key
  {
    hide CycleKeyFor;
    var all := cycles + [c];
    assert all[|cycles|] == c;
    if Keyed(cycles, from, key) {
      var i :| from <= i < |cycles| && CycleKeyFor(cycles[i]) == key;
      assert CycleKeyFor(all[i]) == key;
    }
  }

  /** A pass learns exactly the reported keys and alerts exactly those new to it. */
  lemma {:induction false} SeeAllExact(s: State, cycles: seq<TopologyCycle>, seedOnly: bool, key: string)
    requires key != ""
    ensures var t := SeeAll(s, cycles, seedOnly);
            && |s.alerts| <= |t.alerts|
            && (key in t.known <==> key in s.known || Keyed(cycles, 0, key))
            && (!seedOnly ==> (Keyed(t.alerts, |s.alerts|, key) <==> key !in s.known && Keyed(cycles, 0, key)))
    decreases |cycles|
  {
    hide CycleKeyFor, Keyed;
    if |cycles| > 0 {
      var n := |cycles| - 1;
      var m := SeeAll(s, cycles[..n], seedOnly);
      SeeAllExact(s, cycles[..n], seedOnly, key);
      assert cycles == cycles[..n] + [cycles[n]];
      KeyedMore(cycles[..n], 0, cycles[n], key);
      KeyedMore(m.alerts, |s.alerts|, cycles[n], key);
    } else {
      NothingKeyed(s, key);
    }
  }

  lemma NothingKeyed(s: State, key: string)
    ensures !Keyed([], 0, key) && !Keyed(s.alerts, |s.alerts|, key)
  {
  }

  ghost predicate SeenBefore(passes: seq<Pass>, key: string) {
    exists m :: 0 <= m < |passes| && passes[m].report.Some? && Keyed(passes[m].report.value, 0, key)
  }

  /** The known keys are those of all cycles reported so far. */
  lemma {:induction false} KnownIsReported(passes: seq<Pass>, key: string)
    requires key != ""
    ensures key in Run(State({}, []), passes).known <==> SeenBefore(passes, key)
    decreases |passes|
  {
    hide Keyed, SeeAll;
    if |passes| > 0 {
      var n := |passes| - 1;
      KnownIsReported(passes[..n], key);
      if passes[n].report.Some? {
        SeeAllExact(Run(State({}, []), passes[..n]), passes[n].report.value, passes[n].seedOnly, key);
      }
      if SeenBefore(passes[..n], key) {
        var m :| 0 <= m < n && passes[m].report.Some? && Keyed(passes[m].report.value, 0, key);
      }
    }
  }

  ghost predicate ReportedBefore(passes: seq<Pass>, ids: seq<int>) {
    exists m, c :: 0 <= m < |passes| && passes[m].report.Some? && c in passes[m].report.value &&
        SameLoop(ids, c.deviceIDs)
  }

  ghost predicate HasLoop(alerts: seq<TopologyCycle>, from: nat, ids: seq<int>) {
    exists i :: from <= i < |alerts| && SameLoop(ids, alerts[i].deviceIDs)
  }

  lemma KeyedIsSameLoop(cycles: seq<TopologyCycle>, from: nat, c: TopologyCycle)
    requires AllNamed(cycles) && WellNamed(c)
    ensures Keyed(cycles, from, CycleKeyFor(c)) <==> HasLoop(cycles, from, c.deviceIDs)
  {
    KeyNotEmpty(c);
    forall i | from <= i < |cycles|
      ensures CycleKeyFor(cycles[i]) == CycleKeyFor(c) <==> SameLoop(c.deviceIDs, cycles[i].deviceIDs)
    {
      KeyNotEmpty(cycles[i]);
      KeyForIsCanonical(c.deviceIDs, cycles[i].deviceIDs);
    }
    hide CycleKeyFor, SameLoop;
  }

  lemma SeenIsReported(passes: seq<Pass>, c: TopologyCycle)
    requires NamedReports(passes) && WellNamed(c)
    ensures SeenBefore(passes, CycleKeyFor(c)) <==> ReportedBefore(passes, c.deviceIDs)
  {
    hide Keyed, SameLoop, WellNamed, CycleKeyFor;
    forall m | 0 <= m < |passes| && passes[m].report.Some?
      ensures Keyed(passes[m].report.value, 0, CycleKeyFor(c)) <==> HasLoop(passes[m].report.value, 0, c.deviceIDs)
    {
      KeyedIsSameLoop(passes[m].report.value, 0, c);
    }
  }

  /** A pass alerts for a loop exactly when it is no seed pass and no earlier pass
      reported that loop, from whatever start and in whatever direction. */
  lemma LoopAlertsIffNew(passes: seq<Pass>, p: Pass, c: TopologyCycle)
    requires NamedReports(passes + [p]) && p.report.Some? && c in p.report.value
    ensures var before, after := Run(State({}, []), passes), Run(State({}, []), passes + [p]);
            HasLoop(after.alerts, |before.alerts|, c.deviceIDs) <==> !p.seedOnly && !ReportedBefore(passes, c.deviceIDs)
  {
    var all := passes + [p];
    assert all[..|passes|] == passes && all[|passes|] == p;
    assert NamedReports(passes) by {
      assert forall m :: 0 <= m < |passes| ==> all[m] == passes[m];
    }
    var before, after := Run(State({}, []), passes), Run(State({}, []), all);
    assert after == SeeAll(before, p.report.value, p.seedOnly);
    var k :| 0 <= k < |p.report.value| && p.report.value[k] == c;
    KeyNotEmpty(c);
    AlertsAreNamed(all);
    hide CycleKeyFor, Run, SeeAll, SameLoop, WellNamed, ReportedBefore, SeenBefore, HasLoop;
    var key := CycleKeyFor(c);
    KnownIsReported(passes, key);
    SeenIsReported(passes, c);
    KeyedIsSameLoop(after.alerts, |before.alerts|, c);
    SeeAllExact(before, p.report.value, p.seedOnly, key);
    if p.seedOnly {
      SeedAlertsNothing(before, p.report.value);
      NothingKeyed(before, key);
    }
  }

  lemma {:induction false} SeedAlertsNothing(s: State, cycles: seq<TopologyCycle>)
    ensures SeeAll(s, cycles, true).alerts == s.alerts
    decreases |cycles|
  {
    if |cycles| > 0 {
      SeedAlertsNothing(s, cycles[..|cycles| - 1]);
    }
  }
}
