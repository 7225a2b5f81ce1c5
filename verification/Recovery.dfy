/** What each poll logs, exactly, and when a reported outage ends. */
module Recovery {
  import opened Graph
  import opened Debounce
  import opened Alternation
  import opened Outages
  import opened Restarts

  // ----- one poll

  /** No count towards a confirmation is running, and an outage that nobody reported
      has lasted three minutes and two poll intervals. */
  ghost predicate Unnoticed(cfg: Config, d: Device, p: Poll) {
    && !d.online && d.offlineSince.Some? && !Reported(d)
    && (d.offlineStreak.Some? ==> !d.offlineStreak.value.fromOnline)
    && p.now - d.offlineSince.value >= 180_000 && p.now - d.offlineSince.value >= 2000 * cfg.intervalSec
  }

  /** The first answer after an outage waits for the second; so does the first one
      after two or more unanswered polls that were not reported. */
  ghost predicate Waits(d: Device) {
    !d.online && (Reported(d) || (d.offlineStreak.Some? && d.offlineStreak.value.fromOnline &&
                                  d.offlineStreak.value.n >= 2))
  }

  /** An answered poll logs ONLINE exactly when it confirms the end of a reported
      outage, OFFLINE exactly when it finds one that went unnoticed, and else nothing. */
  lemma AnsweredPoll(cfg: Config, d: Device, p: Poll)
    requires Sane(d) && p.online
    ensures var e := PollOne(cfg, d, p);
            && e.online && (e.onlineStreak == Some(1) <==> Waits(d) || Unnoticed(cfg, d, p))
            && (e.onlineStreak == Some(1) && d.offlineSince.Some? ==> e.offlineSince == d.offlineSince)
            && (e.onlineStreak != Some(1) ==> e.onlineStreak == None && e.offlineSince == None)
            && e.log == if d.online && Reported(d) then d.log + [Event(CameOnline, p.eventAt)]
                        else if Unnoticed(cfg, d, p) then d.log + [Event(WentOffline, p.eventAt)]
                        else d.log
  {
    hide HasOfflineEvent;
  }

  /** The unanswered poll completes the count of its category, or the ping of a
      device that is not left to sleep has just stopped. */
  ghost predicate Completes(cfg: Config, d: Device, p: Poll) {
    if d.online then !Patient(cfg) && d.ping == Some(true) && !p.ping
    else && d.offlineStreak.Some? && d.offlineStreak.value.fromOnline
         && d.offlineStreak.value.n == if Patient(cfg) then 2 else 1
  }

  /** An unanswered poll logs OFFLINE exactly when it completes the count or finds an
      unnoticed outage; never while a reported one is being confirmed over. */
  lemma UnansweredPoll(cfg: Config, d: Device, p: Poll)
    requires Sane(d) && !p.online
    ensures var e := PollOne(cfg, d, p);
            && !e.online && e.onlineStreak == None
            && e.log == if !(d.online && Reported(d)) && (Completes(cfg, d, p) || Unnoticed(cfg, d, p))
                        then d.log + [Event(WentOffline, p.eventAt)] else d.log
  {
    hide HasOfflineEvent;
  }

  // ----- two answers in a row

  lemma RunOfTwo(cfg: Config, d: Device, p1: Poll, p2: Poll)
    ensures Run(cfg, d, Steps([p1, p2])) == PollOne(cfg, PollOne(cfg, d, p1), p2)
  {
    RunFrom(cfg, d, [p1, p2]);
    var e := PollOne(cfg, d, p1);
    assert [p1, p2][1..] == [p2];
    RunFrom(cfg, e, [p2]);
    assert [p2][1..] == [];
    hide PollOne;
  }

  /** A reported outage ends with ONLINE at the second of two answered polls. */
  lemma SecondAnswerEnds(cfg: Config, d: Device, p1: Poll, p2: Poll)
    requires Sane(d) && !d.online && Reported(d) && p1.online && p2.online
    ensures Run(cfg, d, Steps([p1, p2])).log == d.log + [Event(CameOnline, p2.eventAt)]
  {
    hide HasOfflineEvent, PollOne, Run;
    RunOfTwo(cfg, d, p1, p2);
    AnsweredPoll(cfg, d, p1);
    StepKeepsSane(cfg, d, PollStep(p1));
    ApplyPoll(cfg, d, p1);
    AnsweredPoll(cfg, PollOne(cfg, d, p1), p2);
  }

  /** An unnoticed outage that two answered polls end is reported at the first of
      them and ended at the second. */
  lemma UnnoticedEnds(cfg: Config, d: Device, p1: Poll, p2: Poll)
    requires Sane(d) && Unnoticed(cfg, d, p1) && InOrder(p1) && p1.online && p2.online
    ensures Run(cfg, d, Steps([p1, p2])).log ==
            d.log + [Event(WentOffline, p1.eventAt), Event(CameOnline, p2.eventAt)]
  {
    NewOfflineIsReported(d.log, p1.eventAt, d.offlineSince.value);
    hide HasOfflineEvent, PollOne, Run;
    RunOfTwo(cfg, d, p1, p2);
    AnsweredPoll(cfg, d, p1);
    StepKeepsSane(cfg, d, PollStep(p1));
    ApplyPoll(cfg, d, p1);
    assert Reported(PollOne(cfg, d, p1));
    AnsweredPoll(cfg, PollOne(cfg, d, p1), p2);
  }

  // ----- a reported outage over a run

  predicate Answered(s: Step) {
    s.PollStep? && s.poll.online
  }

  /** Whether the last step was an answered poll; before the first step, `online0`. */
  predicate LastAnswered(online0: bool, steps: seq<Step>) {
    if |steps| == 0 then online0 else Answered(steps[|steps| - 1])
  }

  /** No two consecutive steps are answered polls. */
  ghost predicate NoPair(online0: bool, steps: seq<Step>) {
    forall i :: 0 <= i < |steps| ==> !(LastAnswered(online0, steps[..i]) && Answered(steps[i]))
  }

  lemma NoPairPrefix(online0: bool, steps: seq<Step>, n: nat)
    requires NoPair(online0, steps) && n <= |steps|
    ensures NoPair(online0, steps[..n])
  {
    hide LastAnswered;
    forall i | 0 <= i < n
      ensures !(LastAnswered(online0, steps[..n][..i]) && Answered(steps[..n][i]))
    {
      assert steps[..n][..i] == steps[..i] && steps[..n][i] == steps[i];
    }
  }

  /** A restart while no confirmation is pending leaves a reported outage open. */
  lemma RestartWhenDown(cfg: Config, d: Device, at: int)
    requires Sane(d) && DownState(cfg, d) && !d.online
    ensures var e := Restart(d, at);
            DownState(cfg, e) && e.log == d.log && e.offlineSince == d.offlineSince && !e.online
  {
    hide HasOfflineEvent;
  }

  /** Without two answers in a row a reported outage stays open, silently. */
  lemma {:induction false} StaysOpen(cfg: Config, d: Device, steps: seq<Step>)
    requires Sane(d) && DownState(cfg, d) && SafeRestarts(cfg, d, steps) && NoPair(d.online, steps)
    ensures var e := Run(cfg, d, steps);
            Sane(e) && DownState(cfg, e) && e.log == d.log && e.offlineSince == d.offlineSince &&
              e.online == LastAnswered(d.online, steps)
    decreases |steps|
  {
    hide PollOne, Restart, Reported, Sane;
    if |steps| > 0 {
      var n := |steps| - 1;
      NoPairPrefix(d.online, steps, n);
      StaysOpen(cfg, d, steps[..n]);
      var e := Run(cfg, d, steps[..n]);
      StepKeepsSane(cfg, e, steps[n]);
      assert !(LastAnswered(d.online, steps[..n]) && Answered(steps[n]));
      match steps[n]
      case PollStep(p) => PollWhenDown(cfg, e, p);
      case RestartStep(at) => RestartWhenDown(cfg, e, at);
    }
  }

  /** In any state a run of polls and restarts leads to, with a reported outage open
      and no restart during a confirmation: ONLINE comes at the second of the first
      two consecutive answered polls, and nothing is logged before. */
  lemma OutageEndsAtPair(cfg: Config, d0: Device, before: seq<Step>, during: seq<Step>, p: Poll, clock: int, gap: int)
    requires JustStarted(d0, clock, gap) && Refreshed(d0) && gap > 15_000
    requires Timely(before + during, clock, gap) && SafeRestarts(cfg, d0, before + during)
    requires Down(Run(cfg, d0, before).log, |d0.log|, Reported(d0))
    requires NoPair(Run(cfg, d0, before).online, during)
    ensures var d := Run(cfg, d0, before);
            && Run(cfg, d0, before + during).log == d.log
            && Run(cfg, d0, before + during + [PollStep(p)]).log ==
               if p.online && LastAnswered(d.online, during) then d.log + [Event(CameOnline, p.eventAt)] else d.log
  {
    var d := Run(cfg, d0, before);
    JustStartedIsLifetime(cfg, d0, clock, gap);
    hide JustStarted, Refreshed, Run, Reported, Timely, SafeRestarts, NoPair, LastAnswered, PollOne, Apply;
    var all := before + during;
    assert all[..|before|] == before;
    TimelyPrefix(all, |before|, clock, gap);
    SafePrefix(cfg, d0, all, |before|);
    SafeRunKeepsLifetime(cfg, d0, before, |d0.log|, Reported(d0), clock, gap);
    SafeAfter(cfg, d0, before, during);
    StaysOpen(cfg, d, during);
    RunOn(cfg, d0, before, during);
    var e := Run(cfg, d, during);
    PollWhenDown(cfg, e, p);
    RunOnPoll(cfg, d0, all, p);
  }

  lemma RunOnPoll(cfg: Config, d: Device, steps: seq<Step>, p: Poll)
    ensures Run(cfg, d, steps + [PollStep(p)]) == PollOne(cfg, Run(cfg, d, steps), p)
  {
    hide PollOne;
    assert (steps + [PollStep(p)])[..|steps|] == steps;
  }

  lemma {:induction false} SafeAfter(cfg: Config, d: Device, a: seq<Step>, b: seq<Step>)
    requires SafeRestarts(cfg, d, a + b)
    ensures SafeRestarts(cfg, Run(cfg, d, a), b)
    decreases |b|
  {
    hide Run, Confirming;
    if |b| > 0 {
      var n := |b| - 1;
      var all := a + b;
      assert all[..|all| - 1] == a + b[..n] && all[|all| - 1] == b[n];
      SafeAfter(cfg, d, a, b[..n]);
      RunOn(cfg, d, a, b[..n]);
    }
  }

  // ----- where it does not end

  /** A restart between the two answers forgets the outage: from then on answered
      polls log nothing, so its end is never reported. */
  lemma {:induction false} ForgottenOutage(cfg: Config, d: Device, at: int, polls: seq<Poll>)
    requires Sane(d) && Confirming(d) && forall i :: 0 <= i < |polls| ==> polls[i].online
    ensures var e := Run(cfg, Restart(d, at), Steps(polls));
            Sane(e) && e.online && e.offlineSince == None && e.log == d.log
    decreases |polls|
  {
    hide PollOne, Reported;
    if |polls| > 0 {
      var n := |polls| - 1;
      StepsPrefix(polls, n);
      ForgottenOutage(cfg, d, at, polls[..n]);
      var e := Run(cfg, Restart(d, at), Steps(polls[..n]));
      StepKeepsSane(cfg, e, PollStep(polls[n]));
      NotReported(e);
      AnsweredPoll(cfg, e, polls[n]);
    }
  }

  lemma NotReported(d: Device)
    requires d.offlineSince.None?
    ensures !Reported(d)
  {
  }
}
