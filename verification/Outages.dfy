/** When the debouncer misses nothing, repeats nothing, and where it can fail. */
module Outages {
  import opened Graph
  import opened Debounce
  import opened Alternation

  // ----- an outage is reported once

  ghost predicate Patient(cfg: Config) {
    cfg.priority == Soft || cfg.priority == Low
  }

  /** Which unanswered poll reports: the first one when the ping of a device that is
      not left to sleep has just stopped, otherwise the second or the third. */
  ghost function ReportingPoll(cfg: Config, d: Device, first: Poll): nat {
    if Patient(cfg) then 2 else if d.ping == Some(true) && !first.ping then 0 else 1
  }

  /** After these unanswered polls: reported already, still counting, or reported at
      the right poll. */
  ghost predicate Counting(cfg: Config, d: Device, polls: seq<Poll>, e: Device)
    requires |polls| > 0
  {
    var k := ReportingPoll(cfg, d, polls[0]);
    && !e.online && e.onlineStreak.None? && e.offlineStreak.Some? && e.offlineStreak.value.fromOnline
    && if Reported(d) then e.log == d.log && e.offlineStreak.value.n >= OfflineConfirm(cfg)
       else if |polls| <= k then e.log == d.log && e.offlineStreak.value.n == |polls|
       else e.log == d.log + [Event(WentOffline, polls[k].eventAt)] && e.offlineStreak.value.n >= OfflineConfirm(cfg)
  }

  lemma CountingStarts(cfg: Config, d: Device, p: Poll)
    requires Sane(d) && d.online && !p.online
    ensures Counting(cfg, d, [p], PollOne(cfg, d, p))
  {
    hide HasOfflineEvent;
  }

  lemma CountingGoesOn(cfg: Config, d: Device, polls: seq<Poll>, e: Device, p: Poll)
    requires |polls| > 0 && Counting(cfg, d, polls, e) && !p.online
    ensures Counting(cfg, d, polls + [p], PollOne(cfg, e, p))
  {
    hide HasOfflineEvent, Reported;
    var k := ReportingPoll(cfg, d, polls[0]);
    assert (polls + [p])[0] == polls[0] && (k <= |polls| ==> (polls + [p])[k] == if k < |polls| then polls[k] else p);
  }

  lemma {:induction false} CountingRun(cfg: Config, d: Device, polls: seq<Poll>)
    requires Sane(d) && d.online && |polls| > 0 && forall i :: 0 <= i < |polls| ==> !polls[i].online
    ensures Counting(cfg, d, polls, Run(cfg, d, Steps(polls)))
    decreases |polls|
  {
    hide Counting, Apply;
    var n := |polls| - 1;
    StepsPrefix(polls, n);
    var e := Run(cfg, d, Steps(polls[..n]));
    ApplyPoll(cfg, e, polls[n]);
    if n == 0 {
      CountingStarts(cfg, d, polls[0]);
      assert polls == [polls[0]];
    } else {
      CountingRun(cfg, d, polls[..n]);
      CountingGoesOn(cfg, d, polls[..n], e, polls[n]);
      assert polls == polls[..n] + [polls[n]];
    }
  }

  /** Unanswered polls after an answered one log exactly one OFFLINE, at the poll the
      category asks for or at once when the ping went dead, and nothing before or
      after it; none at all if they interrupt the confirmation of a recovery,
      because that outage is already reported. */
  lemma OutageReportedOnce(cfg: Config, steps: seq<Step>, polls: seq<Poll>)
    requires Run(cfg, FRESH, steps).online && |polls| > 0
    requires forall i :: 0 <= i < |polls| ==> !polls[i].online
    ensures var d := Run(cfg, FRESH, steps);
            var k := if Patient(cfg) then 2 else if d.ping == Some(true) && !polls[0].ping then 0 else 1;
            Run(cfg, d, Steps(polls)).log ==
            if Reported(d) || |polls| <= k then d.log else d.log + [Event(WentOffline, polls[k].eventAt)]
  {
    RunKeepsSane(cfg, FRESH, steps);
    CountingRun(cfg, Run(cfg, FRESH, steps), polls);
    hide HasOfflineEvent, Apply, Run;
  }

  // ----- after a restart

  /** The first poll after a restart of a device that was offline logs OFFLINE
      exactly when the outage is long enough and not reported yet, whether the
      device answers or not; and it logs nothing else. */
  lemma CatchUpExact(cfg: Config, d: Device, at: int, p: Poll)
    requires !d.online
    ensures var r := Restart(d, at);
            && r.offlineSince.Some?
            && PollOne(cfg, r, p).log ==
               if !Reported(r) && p.now - r.offlineSince.value >= 180_000 &&
                  p.now - r.offlineSince.value >= 2000 * cfg.intervalSec
               then d.log + [Event(WentOffline, p.eventAt)]
               else d.log
  {
    hide HasOfflineEvent;
  }

  // ----- where alternation fails

  function At(online: bool, t: int): Poll {
    Poll(online, false, t, t, t, t)
  }

  const SLOW := Config(Critical, 60)

  /** A long outage of a device never seen online is caught up when it answers; a
      short outage two polls later is taken for the same one. */
  const FLAP: seq<Poll> :=
    [At(false, 15_000), At(true, 200_000), At(true, 215_000),
     At(false, 230_000), At(true, 245_000), At(true, 260_000)]

  const FIRST_OFFLINE := Event(WentOffline, 200_000)
  const FIRST_ONLINE := Event(CameOnline, 215_000)
  const SECOND_ONLINE := Event(CameOnline, 260_000)

  lemma NoneLogged(since: int)
    ensures !HasOfflineEvent([], since)
  {
  }

  lemma FirstLogged(log: seq<Event>, since: int)
    requires |log| > 0 && log[0].kind == WentOffline && log[0].at >= since
    ensures HasOfflineEvent(log, since)
  {
  }

  lemma FlapSteps()
    ensures var d1 := Device(false, Some(false), Some(15_000), [], Some(Streak(1, false)), None);
            var d2 := Device(true, Some(false), Some(15_000), [FIRST_OFFLINE], None, Some(1));
            var d3 := Device(true, Some(false), None, [FIRST_OFFLINE, FIRST_ONLINE], None, None);
            && PollOne(SLOW, FRESH, FLAP[0]) == d1 && PollOne(SLOW, d1, FLAP[1]) == d2
            && PollOne(SLOW, d2, FLAP[2]) == d3
  {
    NoneLogged(15_000 - LOOKUP_SKEW);
    FirstLogged([FIRST_OFFLINE], 15_000 - LOOKUP_SKEW);
    hide HasOfflineEvent;
  }

  lemma FlapAgain()
    ensures var d3 := Device(true, Some(false), None, [FIRST_OFFLINE, FIRST_ONLINE], None, None);
            var d4 := Device(false, Some(false), Some(230_000), [FIRST_OFFLINE, FIRST_ONLINE], Some(Streak(1, true)),
                             None);
            var d5 := Device(true, Some(false), Some(230_000), [FIRST_OFFLINE, FIRST_ONLINE], None, Some(1));
            var d6 := Device(true, Some(false), None, [FIRST_OFFLINE, FIRST_ONLINE, SECOND_ONLINE], None, None);
            && PollOne(SLOW, d3, FLAP[3]) == d4 && PollOne(SLOW, d4, FLAP[4]) == d5 && PollOne(SLOW, d5, FLAP[5]) == d6
  {
    FirstLogged([FIRST_OFFLINE, FIRST_ONLINE], 230_000 - LOOKUP_SKEW);
    hide HasOfflineEvent;
  }

  lemma {:induction false} RunFrom(cfg: Config, d: Device, polls: seq<Poll>)
    requires |polls| > 0
    ensures Run(cfg, d, Steps(polls)) == Run(cfg, PollOne(cfg, d, polls[0]), Steps(polls[1..]))
    decreases |polls|
  {
    hide Apply;
    var n := |polls| - 1;
    StepsPrefix(polls, n);
    ApplyPoll(cfg, d, polls[0]);
    if n > 0 {
      RunFrom(cfg, d, polls[..n]);
      assert polls[..n][1..] == polls[1..][..n - 1];
      StepsPrefix(polls[1..], n - 1);
    } else {
      assert Steps(polls)[..0] == [] && Steps(polls[1..]) == [];
    }
  }

  lemma FlapRun()
    ensures Run(SLOW, FRESH, Steps(FLAP)).log == [FIRST_OFFLINE, FIRST_ONLINE, SECOND_ONLINE]
  {
    hide PollOne;
    FlapSteps();
    FlapAgain();
    RunFrom(SLOW, FRESH, FLAP);
    RunFrom(SLOW, PollOne(SLOW, FRESH, FLAP[0]), FLAP[1..]);
    assert FLAP[1..][1..] == FLAP[2..] && FLAP[2..][1..] == FLAP[3..] && FLAP[3..][1..] == FLAP[4..] &&
           FLAP[4..][1..] == FLAP[5..] && FLAP[5..][1..] == [];
    var d2 := PollOne(SLOW, PollOne(SLOW, FRESH, FLAP[0]), FLAP[1]);
    RunFrom(SLOW, d2, FLAP[2..]);
    var d3 := PollOne(SLOW, d2, FLAP[2]);
    RunFrom(SLOW, d3, FLAP[3..]);
    var d4 := PollOne(SLOW, d3, FLAP[3]);
    RunFrom(SLOW, d4, FLAP[4..]);
    var d5 := PollOne(SLOW, d4, FLAP[4]);
    RunFrom(SLOW, d5, FLAP[5..]);
  }

  ghost predicate RunAlternates(cfg: Config, polls: seq<Poll>) {
    Alternates(Run(cfg, FRESH, Steps(polls)).log, 0, false)
  }

  lemma FlapBreaks(gap: int)
    requires gap <= 15_000
    ensures Spaced(FLAP, 0, gap) && !RunAlternates(SLOW, FLAP)
  {
    FlapRun();
    forall i | 0 <= i < |FLAP|
      ensures InOrder(FLAP[i]) && StartsLate(FLAP, i, 0, gap)
    {
    }
    var log := [FIRST_OFFLINE, FIRST_ONLINE, SECOND_ONLINE];
    assert log[..2] == [FIRST_OFFLINE, FIRST_ONLINE];
    assert log[2].kind == CameOnline && !Down(log[..2], 0, false);
  }

  /** From a fresh start, events alternate for every sequence of poll results and
      every category exactly when polls are kept more than 15 s apart: two gaps
      must outlast the 30 s lookup skew. */
  lemma AlternationIffGap(gap: int)
    ensures (forall cfg, polls :: Spaced(polls, 0, gap) ==> RunAlternates(cfg, polls)) <==> gap > 15_000
  {
    if gap > 15_000 {
      forall cfg, polls | Spaced(polls, 0, gap)
        ensures RunAlternates(cfg, polls)
      {
        LifetimeAlternates(cfg, FRESH, polls, 0, gap);
      }
    } else {
      FlapBreaks(gap);
    }
  }

  lemma {:induction false} RunStepFrom(cfg: Config, d: Device, steps: seq<Step>)
    requires |steps| > 0
    ensures Run(cfg, d, steps) == Run(cfg, Apply(cfg, d, steps[0]), steps[1..])
    decreases |steps|
  {
    hide Apply;
    var n := |steps| - 1;
    if n > 0 {
      RunStepFrom(cfg, d, steps[..n]);
      assert steps[..n][1..] == steps[1..][..n - 1];
    }
  }

  /** A restart while one ONLINE poll awaits confirmation forgets the open outage. */
  const INTERRUPTED: seq<Step> :=
    [PollStep(At(true, 0)), PollStep(At(false, 60_000)), PollStep(At(false, 120_000)), PollStep(At(true, 180_000)),
     RestartStep(190_000), PollStep(At(false, 240_000)), PollStep(At(false, 300_000))]

  lemma InterruptedSteps()
    ensures var d1 := Device(true, Some(false), None, [], None, None);
            var d2 := Device(false, Some(false), Some(60_000), [], Some(Streak(1, true)), None);
            var d3 := Device(false, Some(false), Some(60_000), [Event(WentOffline, 120_000)], Some(Streak(2, true)),
                             None);
            var d4 := Device(true, Some(false), Some(60_000), [Event(WentOffline, 120_000)], None, Some(1));
            && Apply(SLOW, FRESH, INTERRUPTED[0]) == d1 && Apply(SLOW, d1, INTERRUPTED[1]) == d2
            && Apply(SLOW, d2, INTERRUPTED[2]) == d3 && Apply(SLOW, d3, INTERRUPTED[3]) == d4
  {
    NoneLogged(60_000 - LOOKUP_SKEW);
    FirstLogged([Event(WentOffline, 120_000)], 60_000 - LOOKUP_SKEW);
    hide HasOfflineEvent;
  }

  lemma InterruptedAgain()
    ensures var off := Event(WentOffline, 120_000);
            var d4 := Device(true, Some(false), Some(60_000), [off], None, Some(1));
            var d5 := Device(true, Some(false), None, [off], None, None);
            var d6 := Device(false, Some(false), Some(240_000), [off], Some(Streak(1, true)), None);
            && Apply(SLOW, d4, INTERRUPTED[4]) == d5 && Apply(SLOW, d5, INTERRUPTED[5]) == d6
            && Apply(SLOW, d6, INTERRUPTED[6]).log == [off, Event(WentOffline, 300_000)]
  {
    hide HasOfflineEvent;
  }

  /** Across a restart the second confirmation branch does not look into the log,
      so the same process history can hold two OFFLINE in a row. */
  lemma RestartCanRepeatOffline()
    ensures Run(SLOW, FRESH, INTERRUPTED).log == [Event(WentOffline, 120_000), Event(WentOffline, 300_000)]
  {
    hide Apply;
    InterruptedSteps();
    InterruptedAgain();
    var s := INTERRUPTED;
    assert s[1..][1..] == s[2..] && s[2..][1..] == s[3..] && s[3..][1..] == s[4..] && s[4..][1..] == s[5..] &&
           s[5..][1..] == s[6..] && s[6..][1..] == [];
    var d1 := Apply(SLOW, FRESH, s[0]);
    var d2 := Apply(SLOW, d1, s[1]);
    var d3 := Apply(SLOW, d2, s[2]);
    var d4 := Apply(SLOW, d3, s[3]);
    var d5 := Apply(SLOW, d4, s[4]);
    var d6 := Apply(SLOW, d5, s[5]);
    RunStepFrom(SLOW, FRESH, s);
    RunStepFrom(SLOW, d1, s[1..]);
    RunStepFrom(SLOW, d2, s[2..]);
    RunStepFrom(SLOW, d3, s[3..]);
    RunStepFrom(SLOW, d4, s[4..]);
    RunStepFrom(SLOW, d5, s[5..]);
    RunStepFrom(SLOW, d6, s[6..]);
  }
}
