/** The debouncer across restarts of the process: when OFFLINE and ONLINE still
    alternate, and how a long outage is reported all the same. */
module Restarts {
  import opened Graph
  import opened Debounce
  import opened Alternation
  import opened Outages

  // ----- runs of polls and restarts

  function StepEnd(s: Step): int {
    match s
    case PollStep(p) => p.refreshAt
    case RestartStep(at) => at
  }

  /** When the last step ended. */
  function ClockAfter(steps: seq<Step>, clock: int): int {
    if |steps| == 0 then clock else StepEnd(steps[|steps| - 1])
  }

  /** When the last poll ended, restarts left aside. */
  function PolledAfter(steps: seq<Step>, clock: int): int
    decreases |steps|
  {
    if |steps| == 0 then clock
    else if steps[|steps| - 1].PollStep? then steps[|steps| - 1].poll.refreshAt
    else PolledAfter(steps[..|steps| - 1], clock)
  }

  ghost predicate Fits(s: Step, polled: int, clock: int, gap: int) {
    match s
    case PollStep(p) => InOrder(p) && p.now >= polled + gap && p.now >= clock
    case RestartStep(at) => at >= clock
  }

  /** Steps in order of time, polls at least `gap` apart; a restart may come at any
      moment between two polls. */
  ghost predicate Timely(steps: seq<Step>, clock: int, gap: int)
    decreases |steps|
  {
    |steps| == 0 ||
    (var n := |steps| - 1;
     && Timely(steps[..n], clock, gap)
     && Fits(steps[n], PolledAfter(steps[..n], clock), ClockAfter(steps[..n], clock), gap))
  }

  /** A reported outage is open and the first answered poll awaits its confirmation. */
  predicate Confirming(d: Device) {
    d.online && Reported(d)
  }

  /** No restart of the run hits that moment. */
  predicate SafeRestarts(cfg: Config, d: Device, steps: seq<Step>)
    decreases |steps|
  {
    |steps| == 0 ||
    (var n := |steps| - 1;
     SafeRestarts(cfg, d, steps[..n]) && (steps[n].RestartStep? ==> !Confirming(Run(cfg, d, steps[..n]))))
  }

  /** Start-up has seen to the row: an offline device has its `offline_since`, unless
      no OFFLINE was ever logged for it. */
  ghost predicate Refreshed(d: Device) {
    !d.online && d.offlineSince.None? ==> forall i :: 0 <= i < |d.log| ==> d.log[i].kind != WentOffline
  }

  lemma StepKeepsRefreshed(cfg: Config, d: Device, s: Step)
    requires Refreshed(d)
    ensures Refreshed(Apply(cfg, d, s))
  {
    hide HasOfflineEvent;
  }

  lemma UpIsUnreported(cfg: Config, d: Device, polled: int, gap: int)
    requires UpState(cfg, d, polled, gap)
    ensures !Reported(d)
  {
    if d.offlineSince.Some? {
      QuietMeansUnreported(d);
    }
  }

  /** A restart forgets nothing that alternation needs, unless an ONLINE awaits
      confirmation. */
  lemma RestartKeepsLifetime(cfg: Config, d: Device, base: nat, down0: bool, polled: int, clock: int, gap: int, at: int)
    requires Lifetime(cfg, d, base, down0, polled, clock, gap) && Refreshed(d) && clock <= at && gap > 0
    requires !Confirming(d)
    ensures Lifetime(cfg, Restart(d, at), base, down0, polled, at, gap)
  {
    StepKeepsSane(cfg, d, RestartStep(at));
    if Down(d.log, base, down0) {
      hide Quiet, Past, Alternates;
    } else {
      RestartStaysQuiet(cfg, d, polled, gap, at);
      hide Quiet, Past, Alternates, HasOfflineEvent;
    }
  }

  lemma RestartStaysQuiet(cfg: Config, d: Device, polled: int, gap: int, at: int)
    requires UpState(cfg, d, polled, gap) && Refreshed(d)
    requires d.online && d.offlineSince.Some? ==> d.offlineSince.value <= polled + gap
    ensures UpState(cfg, Restart(d, at), polled, gap)
  {
    if d.online && d.offlineSince.Some? {
      QuietLater(d.log, d.offlineSince.value, polled + gap);
    }
  }

  lemma {:induction false} SafeRunKeepsLifetime(cfg: Config, d: Device, steps: seq<Step>, base: nat, down0: bool,
                                                clock: int, gap: int)
    requires Lifetime(cfg, d, base, down0, clock, clock, gap) && Refreshed(d)
    requires Timely(steps, clock, gap) && gap > 15_000 && SafeRestarts(cfg, d, steps)
    ensures Lifetime(cfg, Run(cfg, d, steps), base, down0, PolledAfter(steps, clock), ClockAfter(steps, clock), gap)
    ensures Refreshed(Run(cfg, d, steps))
    decreases |steps|
  {
    hide Lifetime, PollOne, Restart, Confirming, Refreshed;
    if |steps| > 0 {
      var n := |steps| - 1;
      var e := Run(cfg, d, steps[..n]);
      var polled, now := PolledAfter(steps[..n], clock), ClockAfter(steps[..n], clock);
      SafeRunKeepsLifetime(cfg, d, steps[..n], base, down0, clock, gap);
      StepKeepsRefreshed(cfg, e, steps[n]);
      match steps[n]
      case PollStep(p) => PollKeepsLifetime(cfg, e, base, down0, polled, now, gap, p);
      case RestartStep(at) => RestartKeepsLifetime(cfg, e, base, down0, polled, now, gap, at);
    }
  }

  // ----- a restart during the confirmation breaks alternation

  /** Three unanswered polls, the first `gap` after `t`. */
  function Unanswered(t: int, gap: int): (polls: seq<Poll>) {
    [At(false, t + gap), At(false, t + 2 * gap), At(false, t + 3 * gap)]
  }

  /** Whatever came before: after a restart that hits the confirmation, unanswered
      polls log a second OFFLINE for the same outage. */
  lemma RestartBreaks(cfg: Config, d: Device, base: nat, down0: bool, polled: int, clock: int, gap: int, at: int,
                      polls: seq<Poll>)
    requires Lifetime(cfg, d, base, down0, polled, clock, gap) && Confirming(d)
    requires |polls| >= OfflineConfirm(cfg) && forall i :: 0 <= i < |polls| ==> !polls[i].online
    ensures !Alternates(Run(cfg, Restart(d, at), Steps(polls)).log, base, down0)
  {
    var r := Restart(d, at);
    StepKeepsSane(cfg, d, RestartStep(at));
    CountingRun(cfg, r, polls);
    assert Down(d.log, base, down0) by {
      if !Down(d.log, base, down0) {
        UpIsUnreported(cfg, d, polled, gap);
      }
    }
    hide Run, Steps, UpState, DownState, Past, Quiet, HasOfflineEvent;
    var e := Run(cfg, r, Steps(polls));
    assert !Reported(r);
    assert e.log[..|d.log|] == d.log && e.log[|d.log|].kind == WentOffline;
  }

  lemma {:induction false} RunOn(cfg: Config, d: Device, a: seq<Step>, b: seq<Step>)
    ensures Run(cfg, d, a + b) == Run(cfg, Run(cfg, d, a), b)
    decreases |b|
  {
    hide Apply;
    if |b| == 0 {
      assert a + b == a;
    } else {
      var n := |b| - 1;
      RunOn(cfg, d, a, b[..n]);
      assert (a + b)[..|a + b| - 1] == a + b[..n];
    }
  }

  lemma TimelyAppend(steps: seq<Step>, s: Step, clock: int, gap: int)
    requires Timely(steps, clock, gap) && Fits(s, PolledAfter(steps, clock), ClockAfter(steps, clock), gap)
    ensures Timely(steps + [s], clock, gap) && ClockAfter(steps + [s], clock) == StepEnd(s)
    ensures PolledAfter(steps + [s], clock) == if s.PollStep? then StepEnd(s) else PolledAfter(steps, clock)
  {
    assert (steps + [s])[..|steps|] == steps;
  }

  lemma {:induction false} PolledBeforeClock(steps: seq<Step>, clock: int, gap: int)
    requires Timely(steps, clock, gap) && gap > 0
    ensures PolledAfter(steps, clock) <= ClockAfter(steps, clock)
    decreases |steps|
  {
    if |steps| > 0 {
      PolledBeforeClock(steps[..|steps| - 1], clock, gap);
    }
  }

  lemma UnansweredFit(steps: seq<Step>, clock: int, gap: int)
    requires Timely(steps, clock, gap) && gap > 0
    ensures Timely(steps + Steps(Unanswered(ClockAfter(steps, clock), gap)), clock, gap)
  {
    var t := ClockAfter(steps, clock);
    PolledBeforeClock(steps, clock, gap);
    var p := Unanswered(t, gap);
    hide Timely, PolledAfter, ClockAfter;
    TimelyAppend(steps, PollStep(p[0]), clock, gap);
    TimelyAppend(steps + [PollStep(p[0])], PollStep(p[1]), clock, gap);
    TimelyAppend(steps + [PollStep(p[0])] + [PollStep(p[1])], PollStep(p[2]), clock, gap);
    assert steps + Steps(p) == steps + [PollStep(p[0])] + [PollStep(p[1])] + [PollStep(p[2])];
  }

  // ----- the exact condition

  /** At every moment of the run: whatever the polls from then on answer, and
      whenever they come, the events alternate. */
  ghost predicate AlwaysAlternates(cfg: Config, d: Device, steps: seq<Step>, clock: int, gap: int) {
    forall n, polls :: 0 <= n <= |steps| && Timely(steps[..n] + Steps(polls), clock, gap) ==>
                         Alternates(Run(cfg, d, steps[..n] + Steps(polls)).log, |d.log|, Reported(d))
  }

  lemma {:induction false} SafePrefix(cfg: Config, d: Device, steps: seq<Step>, n: nat)
    requires n <= |steps| && SafeRestarts(cfg, d, steps)
    ensures SafeRestarts(cfg, d, steps[..n])
    decreases |steps|
  {
    if n == |steps| {
      assert steps[..n] == steps;
    } else {
      SafePrefix(cfg, d, steps[..|steps| - 1], n);
      assert steps[..|steps| - 1][..n] == steps[..n];
    }
  }

  lemma {:induction false} PollsAreSafe(cfg: Config, d: Device, steps: seq<Step>, polls: seq<Poll>)
    requires SafeRestarts(cfg, d, steps)
    ensures SafeRestarts(cfg, d, steps + Steps(polls))
    decreases |polls|
  {
    hide Run;
    var all := steps + Steps(polls);
    if |polls| == 0 {
      assert all == steps;
    } else {
      var n := |polls| - 1;
      PollsAreSafe(cfg, d, steps, polls[..n]);
      assert all[..|all| - 1] == steps + Steps(polls[..n]);
    }
  }

  /** The first restart that hits the confirmation. */
  lemma {:induction false} FirstUnsafe(cfg: Config, d: Device, steps: seq<Step>) returns (k: nat)
    requires !SafeRestarts(cfg, d, steps)
    ensures k < |steps| && SafeRestarts(cfg, d, steps[..k]) && steps[k].RestartStep?
    ensures Confirming(Run(cfg, d, steps[..k]))
    decreases |steps|
  {
    var n := |steps| - 1;
    if SafeRestarts(cfg, d, steps[..n]) {
      k := n;
    } else {
      k := FirstUnsafe(cfg, d, steps[..n]);
      assert steps[..n][..k] == steps[..k];
    }
  }

  lemma {:induction false} TimelyPrefix(steps: seq<Step>, n: nat, clock: int, gap: int)
    requires n <= |steps| && Timely(steps, clock, gap)
    ensures Timely(steps[..n], clock, gap)
    decreases |steps|
  {
    if n == |steps| {
      assert steps[..n] == steps;
    } else {
      TimelyPrefix(steps[..|steps| - 1], n, clock, gap);
      assert steps[..|steps| - 1][..n] == steps[..n];
    }
  }

  /** With polls more than 15 s apart and restarts at any time, the events are sure
      to alternate if and only if no restart hits the confirmation of an ONLINE. */
  lemma AlternationIffSafeRestarts(cfg: Config, d: Device, steps: seq<Step>, clock: int, gap: int)
    requires JustStarted(d, clock, gap) && Refreshed(d) && Timely(steps, clock, gap) && gap > 15_000
    ensures AlwaysAlternates(cfg, d, steps, clock, gap) <==> SafeRestarts(cfg, d, steps)
  {
    JustStartedIsLifetime(cfg, d, clock, gap);
    hide JustStarted, Refreshed, Run, Alternates, Confirming;
    if SafeRestarts(cfg, d, steps) {
      forall n, polls | 0 <= n <= |steps| && Timely(steps[..n] + Steps(polls), clock, gap)
        ensures Alternates(Run(cfg, d, steps[..n] + Steps(polls)).log, |d.log|, Reported(d))
      {
        SafePrefix(cfg, d, steps, n);
        PollsAreSafe(cfg, d, steps[..n], polls);
        SafeRunKeepsLifetime(cfg, d, steps[..n] + Steps(polls), |d.log|, Reported(d), clock, gap);
      }
    } else {
      UnsafeBreaks(cfg, d, steps, clock, gap);
    }
  }

  lemma UnsafeBreaks(cfg: Config, d: Device, steps: seq<Step>, clock: int, gap: int)
    requires Lifetime(cfg, d, |d.log|, Reported(d), clock, clock, gap) && Refreshed(d) && Timely(steps, clock, gap)
    requires gap > 15_000
    requires !SafeRestarts(cfg, d, steps)
    ensures !AlwaysAlternates(cfg, d, steps, clock, gap)
  {
    hide Lifetime, Refreshed, Alternates, Confirming, Timely, SafeRestarts, PolledAfter;
    var k := FirstUnsafe(cfg, d, steps);
    var e := Run(cfg, d, steps[..k]);
    TimelyPrefix(steps, k, clock, gap);
    TimelyPrefix(steps, k + 1, clock, gap);
    SafeRunKeepsLifetime(cfg, d, steps[..k], |d.log|, Reported(d), clock, gap);
    var before := steps[..k + 1];
    var polls := Unanswered(ClockAfter(before, clock), gap);
    UnansweredFit(before, clock, gap);
    RestartBreaks(cfg, e, |d.log|, Reported(d), PolledAfter(steps[..k], clock), ClockAfter(steps[..k], clock), gap,
                  steps[k].at, polls);
    RunOn(cfg, d, before, Steps(polls));
    assert before[..k] == steps[..k];
    assert Run(cfg, d, before) == Restart(e, steps[k].at);
    assert !Alternates(Run(cfg, d, steps[..k + 1] + Steps(polls)).log, |d.log|, Reported(d));
  }

  // ----- one outage, however often the process restarts meanwhile

  ghost predicate OneOffline(log0: seq<Event>, log: seq<Event>) {
    |log| == |log0| + 1 && log[..|log0|] == log0 && log[|log0|].kind == WentOffline
  }

  /** An outage since `since`, found with the log `log0`: not reported yet, or
      reported once.  A restart has ended the counting towards a confirmation. */
  ghost predicate InOutage(cfg: Config, log0: seq<Event>, e: Device, since: int, restarted: bool) {
    && !e.online && e.onlineStreak.None? && e.offlineSince == Some(since)
    && (e.log != log0 ==> OneOffline(log0, e.log)) && (Reported(e) <==> e.log != log0)
    && (Peek(e.offlineStreak).fromOnline ==>
          if e.log == log0 then !restarted && Peek(e.offlineStreak).n < OfflineConfirm(cfg)
          else Peek(e.offlineStreak).n >= OfflineConfirm(cfg))
  }

  lemma OutageBegins(cfg: Config, d: Device, polled: int, gap: int, p: Poll)
    requires Sane(d) && UpState(cfg, d, polled, gap) && d.online && !p.online
    requires InOrder(p) && p.now >= polled + gap && gap > 0 && (d.offlineSince.Some? ==> d.offlineSince.value <= p.now)
    ensures var e := PollOne(cfg, d, p);
            && e.offlineSince.Some? && e.offlineSince.value <= p.refreshAt
            && InOutage(cfg, d.log, e, e.offlineSince.value, false)
  {
    PollWhenUp(cfg, d, polled, gap, p);
    CountingStarts(cfg, d, p);
    UpIsUnreported(cfg, d, polled, gap);
    var e := PollOne(cfg, d, p);
    if e.log == d.log {
      UpIsUnreported(cfg, e, p.refreshAt, gap);
    }
    hide HasOfflineEvent, Quiet;
  }

  ghost predicate Overdue(cfg: Config, s: Step, since: int) {
    s.PollStep? && s.poll.now - since >= 180_000 && s.poll.now - since >= 2000 * cfg.intervalSec
  }

  /** A step of the outage.  Once the process has restarted, exactly a poll at or
      past the threshold reports what is not reported yet. */
  lemma OutageGoesOn(cfg: Config, log0: seq<Event>, e: Device, since: int, restarted: bool, s: Step)
    requires InOutage(cfg, log0, e, since, restarted)
    requires s.PollStep? ==> !s.poll.online && InOrder(s.poll) && since <= s.poll.now
    ensures InOutage(cfg, log0, Apply(cfg, e, s), since, restarted || s.RestartStep?)
    ensures restarted ==> (Apply(cfg, e, s).log == log0 <==> e.log == log0 && !Overdue(cfg, s, since))
  {
    if s.PollStep? {
      var log := log0 + [Event(WentOffline, s.poll.eventAt)];
      assert log[..|log0|] == log0 && log[|log0|].kind == WentOffline;
      NewOfflineIsReported(log0, s.poll.eventAt, since);
    }
    hide HasOfflineEvent;
  }

  ghost predicate OutageSteps(steps: seq<Step>, since: int) {
    forall i :: 0 <= i < |steps| && steps[i].PollStep? ==>
        !steps[i].poll.online && InOrder(steps[i].poll) && since <= steps[i].poll.now
  }

  predicate HasRestart(steps: seq<Step>) {
    exists i :: 0 <= i < |steps| && steps[i].RestartStep?
  }

  /** No step from this position on is a poll at or past the threshold. */
  ghost predicate NoneOverdue(cfg: Config, steps: seq<Step>, from: nat, since: int) {
    forall i :: from <= i < |steps| ==> !Overdue(cfg, steps[i], since)
  }

  lemma {:induction false} OutageRun(cfg: Config, log0: seq<Event>, e: Device, since: int, restarted: bool,
                                     steps: seq<Step>)
    requires InOutage(cfg, log0, e, since, restarted) && OutageSteps(steps, since)
    ensures InOutage(cfg, log0, Run(cfg, e, steps), since, restarted || HasRestart(steps))
    ensures restarted ==> (Run(cfg, e, steps).log == log0 <==> e.log == log0 && NoneOverdue(cfg, steps, 0, since))
    decreases |steps|
  {
    hide InOutage, Apply, Overdue;
    if |steps| > 0 {
      var n := |steps| - 1;
      OutageRun(cfg, log0, e, since, restarted, steps[..n]);
      var r := restarted || HasRestart(steps[..n]);
      OutageGoesOn(cfg, log0, Run(cfg, e, steps[..n]), since, r, steps[n]);
    }
  }

  /** The same for the poll that ends it: even an answered one reports first. */
  lemma OutageEnds(cfg: Config, log0: seq<Event>, e: Device, since: int, p: Poll)
    requires InOutage(cfg, log0, e, since, true)
    ensures var log := PollOne(cfg, e, p).log;
            if e.log == log0 && !Overdue(cfg, PollStep(p), since) then log == log0 else OneOffline(log0, log)
  {
    var log := log0 + [Event(WentOffline, p.eventAt)];
    assert log[..|log0|] == log0 && log[|log0|].kind == WentOffline;
    hide HasOfflineEvent;
  }

  lemma {:induction false} TimelyOrder(steps: seq<Step>, clock: int, gap: int, i: nat)
    requires Timely(steps, clock, gap) && i < |steps|
    ensures StepEnd(steps[i]) <= ClockAfter(steps, clock)
    decreases |steps|
  {
    if i < |steps| - 1 {
      TimelyOrder(steps[..|steps| - 1], clock, gap, i);
    }
  }

  lemma TimelyPolls(steps: seq<Step>, clock: int, gap: int, i: nat, j: nat)
    requires Timely(steps, clock, gap) && i < j < |steps| && steps[j].PollStep?
    ensures InOrder(steps[j].poll) && StepEnd(steps[i]) <= steps[j].poll.now
  {
    TimelyPrefix(steps, j + 1, clock, gap);
    TimelyPrefix(steps, j, clock, gap);
    var pre := steps[..j + 1];
    assert pre[..j] == steps[..j] && pre[j] == steps[j];
    TimelyOrder(steps[..j], clock, gap, i);
  }

  /** Unanswered polls and restarts only. */
  predicate Unheard(steps: seq<Step>) {
    forall i :: 0 <= i < |steps| && steps[i].PollStep? ==> !steps[i].poll.online
  }

  /** The first unanswered poll of an outage in a run. */
  lemma OutageBeginsInRun(cfg: Config, d0: Device, before: seq<Step>, p: Poll, clock: int, gap: int)
    requires JustStarted(d0, clock, gap) && Refreshed(d0) && gap > 15_000
    requires Timely(before + [PollStep(p)], clock, gap) && SafeRestarts(cfg, d0, before)
    requires var d := Run(cfg, d0, before); d.online && !Reported(d) && !p.online
    ensures var d := Run(cfg, d0, before);
            var e := Run(cfg, d0, before + [PollStep(p)]);
            && e.offlineSince.Some? && e.offlineSince.value <= p.refreshAt
            && InOutage(cfg, d.log, e, e.offlineSince.value, false)
  {
    var d := Run(cfg, d0, before);
    var all := before + [PollStep(p)];
    assert all[..|before|] == before;
    assert Fits(PollStep(p), PolledAfter(before, clock), ClockAfter(before, clock), gap);
    JustStartedIsLifetime(cfg, d0, clock, gap);
    SafeRunKeepsLifetime(cfg, d0, before, |d0.log|, Reported(d0), clock, gap);
    assert Run(cfg, d0, all) == PollOne(cfg, d, p);
    hide HasOfflineEvent, Quiet, Past, Alternates, Run, PollOne, UpState, InOutage, Sane;
    OutageBegins(cfg, d, PolledAfter(before, clock), gap, p);
  }

  /** An outage of a device that was up, with the process restarting any number of
      times: whatever happens it is reported at most once, and it is reported if
      and only if it was before the restart or some later poll, answered or not,
      comes at or past the threshold. */
  lemma OutageAcrossRestarts(cfg: Config, d0: Device, before: seq<Step>, p0: Poll, outage: seq<Step>, r: nat, p: Poll,
                             clock: int, gap: int)
    requires JustStarted(d0, clock, gap) && Refreshed(d0) && gap > 15_000
    requires Timely(before + [PollStep(p0)] + outage + [PollStep(p)], clock, gap) && SafeRestarts(cfg, d0, before)
    requires var d := Run(cfg, d0, before); d.online && !Reported(d) && !p0.online
    requires Unheard(outage) && r < |outage| && outage[r].RestartStep?
    ensures var log0 := Run(cfg, d0, before).log;
            var e := Run(cfg, d0, before + [PollStep(p0)]);
            var log := Run(cfg, e, outage + [PollStep(p)]).log;
            && e.offlineSince.Some?
            && if Run(cfg, e, outage[..r]).log == log0 &&
                  NoneOverdue(cfg, outage + [PollStep(p)], r + 1, e.offlineSince.value)
               then log == log0 else OneOffline(log0, log)
  {
    hide InOutage, Timely, JustStarted, Refreshed, SafeRestarts, Overdue, OneOffline, Run, Reported, Unheard,
      OutageSteps;
    var all := before + [PollStep(p0)] + outage + [PollStep(p)];
    TimelyPrefix(all, |before| + 1, clock, gap);
    assert all[..|before| + 1] == before + [PollStep(p0)];
    OutageBeginsInRun(cfg, d0, before, p0, clock, gap);
    var e := Run(cfg, d0, before + [PollStep(p0)]);
    OutageIsTimely(before, p0, outage, p, clock, gap, e.offlineSince.value);
    OutageSplit(cfg, Run(cfg, d0, before).log, e, e.offlineSince.value, outage, r, p);
  }

  lemma OutageIsTimely(before: seq<Step>, p0: Poll, outage: seq<Step>, p: Poll, clock: int, gap: int, since: int)
    requires Timely(before + [PollStep(p0)] + outage + [PollStep(p)], clock, gap) && Unheard(outage)
    requires since <= p0.refreshAt
    ensures OutageSteps(outage, since)
  {
    hide Timely;
    var all := before + [PollStep(p0)] + outage + [PollStep(p)];
    var n := |before|;
    forall i | 0 <= i < |outage| && outage[i].PollStep?
      ensures !outage[i].poll.online && InOrder(outage[i].poll) && since <= outage[i].poll.now
    {
      assert all[n + 1 + i] == outage[i] && all[n] == PollStep(p0);
      TimelyPolls(all, clock, gap, n, n + 1 + i);
    }
  }

  lemma OutageSplit(cfg: Config, log0: seq<Event>, e: Device, since: int, outage: seq<Step>, r: nat, p: Poll)
    requires InOutage(cfg, log0, e, since, false) && OutageSteps(outage, since) && r < |outage|
    requires outage[r].RestartStep?
    ensures var log := Run(cfg, e, outage + [PollStep(p)]).log;
            if Run(cfg, e, outage[..r]).log == log0 && NoneOverdue(cfg, outage + [PollStep(p)], r + 1, since)
            then log == log0 else OneOffline(log0, log)
  {
    hide InOutage, Overdue, OneOffline, Apply;
    var head, tail := outage[..r], outage[r + 1..];
    OutageRun(cfg, log0, e, since, false, head);
    var e1 := Run(cfg, e, head);
    OutageGoesOn(cfg, log0, e1, since, HasRestart(head), outage[r]);
    var e2 := Apply(cfg, e1, outage[r]);
    RestartLogsNothing(cfg, e1, outage[r]);
    OutageRun(cfg, log0, e2, since, true, tail);
    var e3 := Run(cfg, e2, tail);
    OutageEnds(cfg, log0, e3, since, p);
    assert outage == outage[..r + 1] + tail && outage[..r + 1][..r] == head;
    RunOn(cfg, e, outage[..r + 1], tail);
    ApplyPoll(cfg, e3, p);
    var all := outage + [PollStep(p)];
    assert all[..|outage|] == outage;
    assert forall i :: 0 <= i < |tail| ==> tail[i] == all[r + 1 + i];
    assert all[|outage|] == PollStep(p);
  }

  lemma RestartLogsNothing(cfg: Config, d: Device, s: Step)
    requires s.RestartStep?
    ensures Apply(cfg, d, s).log == d.log
  {
  }
}
