/** Within one process lifetime OFFLINE and ONLINE alternate, provided the polls
    are far enough apart; and how far that is. */
module Alternation {
  import opened Graph
  import opened Debounce

  /** The times inside a poll are in order. */
  ghost predicate InOrder(p: Poll) {
    p.now <= p.ensureAt <= p.eventAt <= p.refreshAt
  }

  ghost predicate StartsLate(polls: seq<Poll>, i: int, clock: int, gap: int)
    requires 0 <= i < |polls|
  {
    polls[i].now >= (if i == 0 then clock else polls[i - 1].refreshAt) + gap
  }

  /** Polls after `clock`, each starting at least `gap` after the end of the one before. */
  ghost predicate Spaced(polls: seq<Poll>, clock: int, gap: int) {
    forall i :: 0 <= i < |polls| ==> InOrder(polls[i]) && StartsLate(polls, i, clock, gap)
  }

  function Steps(polls: seq<Poll>): (s: seq<Step>)
    ensures |s| == |polls| && forall i :: 0 <= i < |polls| ==> s[i] == PollStep(polls[i])
  {
    seq(|polls|, i requires 0 <= i < |polls| => PollStep(polls[i]))
  }

  /** The kind of the last event since `base`, or what was open before. */
  predicate Down(log: seq<Event>, base: nat, down0: bool) {
    if |log| <= base then down0 else log[|log| - 1].kind == WentOffline
  }

  /** From position `base` on, events alternate; the first one is ONLINE exactly
      when a reported outage was open. */
  ghost predicate Alternates(log: seq<Event>, base: nat, down0: bool) {
    && base <= |log|
    && forall i :: base <= i < |log| ==> log[i].kind == if Down(log[..i], base, down0) then CameOnline else WentOffline
  }

  /** Every logged OFFLINE is older than `t` by more than the lookup skew. */
  ghost predicate Quiet(log: seq<Event>, t: int) {
    forall i :: 0 <= i < |log| && log[i].kind == WentOffline ==> log[i].at + LOOKUP_SKEW < t
  }

  ghost predicate Past(log: seq<Event>, clock: int) {
    forall i :: 0 <= i < |log| ==> log[i].at <= clock
  }

  /** No outage is open: online and settled, online while a short outage that was
      never reported is still held, or offline and not yet reported. */
  ghost predicate UpState(cfg: Config, d: Device, clock: int, gap: int) {
    && (d.offlineSince.None? ==> Quiet(d.log, clock + gap))
    && (d.offlineSince.Some? ==> Quiet(d.log, d.offlineSince.value))
    && (d.online && d.offlineSince.Some? ==> OfflineConfirm(cfg) == 3)
    && (!d.online ==> d.onlineStreak.None?)
    && (!d.online && Peek(d.offlineStreak).fromOnline ==> 1 <= Peek(d.offlineStreak).n < OfflineConfirm(cfg))
    && (!d.online && Peek(d.offlineStreak).fromOnline ==> d.offlineSince.Some?)
  }

  /** A reported outage is open: still offline, or online once and waiting for confirmation. */
  ghost predicate DownState(cfg: Config, d: Device) {
    && Reported(d)
    && (!d.online ==> d.onlineStreak.None?)
    && (!d.online && Peek(d.offlineStreak).fromOnline ==> Peek(d.offlineStreak).n >= OfflineConfirm(cfg))
  }

  /** What holds between two polls: `polled` is the end of the last one, `clock` that
      of the last step, a poll or a restart. */
  ghost predicate Lifetime(cfg: Config, d: Device, base: nat, down0: bool, polled: int, clock: int, gap: int) {
    && Sane(d) && Past(d.log, polled) && polled <= clock
    && (d.offlineSince.Some? ==> d.offlineSince.value <= if d.online then polled else clock)
    && Alternates(d.log, base, down0)
    && if Down(d.log, base, down0) then DownState(cfg, d) else UpState(cfg, d, polled, gap)
  }

  lemma QuietMeansUnreported(d: Device)
    requires d.offlineSince.Some? && Quiet(d.log, d.offlineSince.value)
    ensures !Reported(d)
  {
  }

  lemma AddEvent(log: seq<Event>, base: nat, down0: bool, e: Event)
    requires Alternates(log, base, down0) && e.kind == if Down(log, base, down0) then CameOnline else WentOffline
    ensures Alternates(log + [e], base, down0) && Down(log + [e], base, down0) == e.kind.WentOffline?
  {
    var all := log + [e];
    forall i | base <= i < |all|
      ensures all[i].kind == if Down(all[..i], base, down0) then CameOnline else WentOffline
    {
      if i < |log| {
        assert all[..i] == log[..i];
      } else {
        assert all[..i] == log;
      }
    }
  }

  lemma PastLater(log: seq<Event>, clock: int, e: Event, later: int)
    requires Past(log, clock) && clock <= later && e.at <= later
    ensures Past(log, later) && Past(log + [e], later)
  {
  }

  lemma NewOfflineIsReported(log: seq<Event>, at: int, since: int)
    requires since - LOOKUP_SKEW <= at
    ensures HasOfflineEvent(log + [Event(WentOffline, at)], since - LOOKUP_SKEW)
  {
    var all := log + [Event(WentOffline, at)];
    assert all[|log|].kind == WentOffline;
  }

  /** A poll while a reported outage is open: the second answer in a row closes it
      with ONLINE, any other poll logs nothing and leaves it open. */
  lemma PollWhenDown(cfg: Config, d: Device, p: Poll)
    requires Sane(d) && DownState(cfg, d)
    ensures var e := PollOne(cfg, d, p);
            if p.online && d.online then
              e.log == d.log + [Event(CameOnline, p.eventAt)] && e.online && e.offlineSince.None?
            else
              e.log == d.log && DownState(cfg, e) && e.offlineSince == d.offlineSince && e.online == p.online
  {
    hide HasOfflineEvent;
  }

  lemma QuietLater(log: seq<Event>, t: int, t': int)
    requires Quiet(log, t) && t <= t'
    ensures Quiet(log, t')
  {
  }

  /** A poll while no outage is open: nothing is logged, or OFFLINE opens one. */
  lemma PollWhenUp(cfg: Config, d: Device, polled: int, gap: int, p: Poll)
    requires Sane(d) && UpState(cfg, d, polled, gap) && (d.offlineSince.Some? ==> d.offlineSince.value <= p.now)
    requires InOrder(p) && p.now >= polled + gap && gap > 0
    ensures var e := PollOne(cfg, d, p);
            || (e.log == d.log && UpState(cfg, e, p.refreshAt, gap))
            || (e.log == d.log + [Event(WentOffline, p.eventAt)] && DownState(cfg, e))
  {
    if d.offlineSince.Some? {
      QuietMeansUnreported(d);
      QuietLater(d.log, d.offlineSince.value, p.refreshAt + gap);
      NewOfflineIsReported(d.log, p.eventAt, d.offlineSince.value);
    } else {
      QuietLater(d.log, polled + gap, p.refreshAt);
      QuietLater(d.log, polled + gap, p.refreshAt + gap);
      NewOfflineIsReported(d.log, p.eventAt, p.ensureAt);
    }
    assert !Reported(d);
    hide HasOfflineEvent, Quiet;
  }

  lemma QuietAfterOnline(log: seq<Event>, clock: int, at: int, t: int)
    requires Past(log, clock) && clock + LOOKUP_SKEW < t
    ensures Quiet(log + [Event(CameOnline, at)], t)
  {
  }

  /** Two poll gaps outlast the lookup skew: one poll keeps the lifetime invariant. */
  lemma PollKeepsLifetime(cfg: Config, d: Device, base: nat, down0: bool, polled: int, clock: int, gap: int, p: Poll)
    requires Lifetime(cfg, d, base, down0, polled, clock, gap)
    requires InOrder(p) && p.now >= polled + gap && p.now >= clock && gap > 15_000
    ensures Lifetime(cfg, PollOne(cfg, d, p), base, down0, p.refreshAt, p.refreshAt, gap)
  {
    hide HasOfflineEvent, Quiet, Past, Alternates, OnlineTransition, OfflineTransition, UpState, DownState;
    var e := PollOne(cfg, d, p);
    StepKeepsSane(cfg, d, PollStep(p));
    SinceInPast(cfg, d, clock, p);
    PastLater(d.log, polled, Event(CameOnline, p.eventAt), p.refreshAt);
    PastLater(d.log, polled, Event(WentOffline, p.eventAt), p.refreshAt);
    if Down(d.log, base, down0) {
      PollWhenDown(cfg, d, p);
      if e.log != d.log {
        AddEvent(d.log, base, down0, Event(CameOnline, p.eventAt));
        QuietAfterOnline(d.log, polled, p.eventAt, p.refreshAt + gap);
        OnlineIsUp(cfg, e, p.refreshAt, gap);
      }
    } else {
      PollWhenUp(cfg, d, polled, gap, p);
      if e.log != d.log {
        AddEvent(d.log, base, down0, Event(WentOffline, p.eventAt));
      }
    }
  }

  lemma OnlineIsUp(cfg: Config, d: Device, clock: int, gap: int)
    requires d.online && d.offlineSince.None? && Quiet(d.log, clock + gap)
    ensures UpState(cfg, d, clock, gap)
  {
  }

  lemma SinceInPast(cfg: Config, d: Device, clock: int, p: Poll)
    requires InOrder(p) && p.now >= clock && (d.offlineSince.Some? ==> d.offlineSince.value <= clock)
    ensures var e := PollOne(cfg, d, p); e.offlineSince.Some? ==> e.offlineSince.value <= p.refreshAt
  {
    hide HasOfflineEvent;
  }

  function LastEnd(polls: seq<Poll>, clock: int): int {
    if |polls| == 0 then clock else polls[|polls| - 1].refreshAt
  }

  lemma {:induction false} RunKeepsLifetime(cfg: Config, d: Device, polls: seq<Poll>, base: nat, down0: bool,
                                            clock: int, gap: int)
    requires Lifetime(cfg, d, base, down0, clock, clock, gap) && Spaced(polls, clock, gap) && gap > 15_000
    ensures var end := LastEnd(polls, clock); Lifetime(cfg, Run(cfg, d, Steps(polls)), base, down0, end, end, gap)
    decreases |polls|
  {
    hide Lifetime, Apply, Spaced;
    if |polls| > 0 {
      var n := |polls| - 1;
      var end := LastEnd(polls[..n], clock);
      SpacedPrefix(polls, n, clock, gap);
      RunKeepsLifetime(cfg, d, polls[..n], base, down0, clock, gap);
      StepsPrefix(polls, n);
      ApplyPoll(cfg, Run(cfg, d, Steps(polls[..n])), polls[n]);
      PollKeepsLifetime(cfg, Run(cfg, d, Steps(polls[..n])), base, down0, end, end, gap, polls[n]);
    }
  }

  lemma ApplyPoll(cfg: Config, d: Device, p: Poll)
    ensures Apply(cfg, d, PollStep(p)) == PollOne(cfg, d, p)
  {
  }

  lemma SpacedPrefix(polls: seq<Poll>, n: nat, clock: int, gap: int)
    requires Spaced(polls, clock, gap) && n < |polls|
    ensures Spaced(polls[..n], clock, gap)
    ensures InOrder(polls[n]) && polls[n].now >= (if n == 0 then clock else polls[n - 1].refreshAt) + gap
  {
    var q := polls[..n];
    forall i | 0 <= i < |q|
      ensures InOrder(q[i]) && StartsLate(q, i, clock, gap)
    {
      assert StartsLate(polls, i, clock, gap);
    }
    assert StartsLate(polls, n, clock, gap);
  }

  lemma StepsPrefix(polls: seq<Poll>, n: nat)
    requires n < |polls|
    ensures Steps(polls)[..n] == Steps(polls[..n])
  {
  }

  /** A process that has just started: no streaks, `offline_since` refreshed, and no
      OFFLINE logged so recently that the next outage could be taken for it. */
  ghost predicate JustStarted(d: Device, clock: int, gap: int) {
    && d.offlineStreak.None? && d.onlineStreak.None? && (d.online ==> d.offlineSince.None?)
    && Past(d.log, clock) && (d.offlineSince.Some? ==> d.offlineSince.value <= clock)
    && (d.offlineSince.None? ==> Quiet(d.log, clock + gap))
  }

  lemma JustStartedIsLifetime(cfg: Config, d: Device, clock: int, gap: int)
    requires JustStarted(d, clock, gap)
    ensures Lifetime(cfg, d, |d.log|, Reported(d), clock, clock, gap)
  {
    if !Reported(d) && d.offlineSince.Some? {
      UnreportedIsQuiet(d);
    }
    hide HasOfflineEvent, Quiet, Past;
  }

  /** Over one process lifetime, for every sequence of poll results more than 15 s
      apart, the events logged alternate; they start with OFFLINE unless a
      reported outage was open at the start. */
  lemma LifetimeAlternates(cfg: Config, d: Device, polls: seq<Poll>, clock: int, gap: int)
    requires JustStarted(d, clock, gap) && Spaced(polls, clock, gap) && gap > 15_000
    ensures Alternates(Run(cfg, d, Steps(polls)).log, |d.log|, Reported(d))
  {
    JustStartedIsLifetime(cfg, d, clock, gap);
    hide HasOfflineEvent, Quiet, Past, Reported;
    RunKeepsLifetime(cfg, d, polls, |d.log|, Reported(d), clock, gap);
  }

  lemma UnreportedIsQuiet(d: Device)
    requires d.offlineSince.Some? && !Reported(d)
    ensures Quiet(d.log, d.offlineSince.value)
  {
    forall i | 0 <= i < |d.log| && d.log[i].kind == WentOffline
      ensures d.log[i].at + LOOKUP_SKEW < d.offlineSince.value
    {
      assert !HasOfflineEvent(d.log, d.offlineSince.value - LOOKUP_SKEW);
    }
  }
}
