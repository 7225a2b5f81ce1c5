/** When DEVICE_OFFLINE and DEVICE_ONLINE are reported: one device as a state
    machine over polls and restarts.  Times are milliseconds. */
module Debounce {
  import opened Graph

  const OFFLINE_CONFIRM_POLLS := 2
  const ONLINE_CONFIRM_POLLS := 2
  const LOOKUP_SKEW := 30_000
  const RECOVER_MIN_OFFLINE := 180_000

  datatype Priority = Critical | High | Important | Soft | Low

  /** Category and poll interval of the device. */
  datatype Config = Config(priority: Priority, intervalSec: int)

  datatype Kind = WentOffline | CameOnline

  datatype Event = Event(kind: Kind, at: int)

  datatype Streak = Streak(n: nat, fromOnline: bool)

  /** The stored row and event log, and the two streaks kept in memory only. */
  datatype Device = Device(online: bool, ping: Option<bool>, offlineSince: Option<int>, log: seq<Event>,
                           offlineStreak: Option<Streak>, onlineStreak: Option<nat>)

  /** One poll: its outcome and the times of its reads and writes. */
  datatype Poll = Poll(online: bool, ping: bool, now: int, ensureAt: int, eventAt: int, refreshAt: int)

  function OfflineConfirm(cfg: Config): (polls: nat)
    ensures cfg.priority == Soft || cfg.priority == Low ==> polls == 3
    ensures cfg.priority != Soft && cfg.priority != Low ==> polls == 2
  {
    if cfg.priority.Soft? || cfg.priority.Low? then 3 else OFFLINE_CONFIRM_POLLS
  }

  predicate AllowInstantPingDead(cfg: Config) {
    !cfg.priority.Soft? && !cfg.priority.Low?
  }

  /** Three minutes, or two poll intervals when those are longer. */
  function RecoverThreshold(cfg: Config): (t: int)
    ensures t >= 180_000 && t >= 2000 * cfg.intervalSec
    ensures t == 180_000 || t == 2000 * cfg.intervalSec
  {
    var twice := cfg.intervalSec * 2 * 1000;
    if cfg.intervalSec > 0 && twice > RECOVER_MIN_OFFLINE then twice else RECOVER_MIN_OFFLINE
  }

  predicate HasOfflineEvent(log: seq<Event>, since: int) {
    exists i :: 0 <= i < |log| && log[i].kind == WentOffline && log[i].at >= since
  }

  predicate OfflineLongEnough(cfg: Config, since: Option<int>, now: int) {
    since.Some? && now - since.value >= RecoverThreshold(cfg)
  }

  predicate ShouldEmitOnline(cfg: Config, wasOnline: bool, streak: Streak, since: Option<int>, now: int, hasOff: bool) {
    && !wasOnline
    && ((streak.fromOnline && streak.n >= OFFLINE_CONFIRM_POLLS) || (hasOff && OfflineLongEnough(cfg, since, now)))
  }

  predicate ShouldCatchUp(cfg: Config, wasOnline: bool, streak: Streak, since: Option<int>, now: int, hasOff: bool) {
    !wasOnline && !hasOff && !streak.fromOnline && OfflineLongEnough(cfg, since, now)
  }

  predicate ShouldEmitOfflineNow(cfg: Config, streak: Streak, pingWentDead: bool) {
    && streak.fromOnline
    && (streak.n == OfflineConfirm(cfg) || (AllowInstantPingDead(cfg) && streak.n == 1 && pingWentDead))
  }

  predicate PingWentDead(prev: Option<bool>, cur: bool) {
    prev.Some? && prev.value && !cur
  }

  function Peek(streak: Option<Streak>): Streak {
    if streak.Some? then streak.value else Streak(0, false)
  }

  /** `offline_since` is set if it is not set already. */
  function Ensure(since: Option<int>, at: int): Option<int> {
    if since.Some? then since else Some(at)
  }

  /** Logging DEVICE_OFFLINE sets `offline_since` first. */
  function LogOffline(d: Device, p: Poll): Device {
    d.(offlineSince := Ensure(d.offlineSince, p.ensureAt), log := d.log + [Event(WentOffline, p.eventAt)])
  }

  function NoteOnline(streak: Option<nat>): nat {
    if streak.Some? && streak.value > 0 then streak.value + 1 else 1
  }

  function NoteOffline(d: Device): Streak {
    if d.online then Streak(1, true) else Streak(Peek(d.offlineStreak).n + 1, Peek(d.offlineStreak).fromOnline)
  }

  /** What the lookup in the event log answers for this poll. */
  predicate Reported(d: Device) {
    d.offlineSince.Some? && HasOfflineEvent(d.log, d.offlineSince.value - LOOKUP_SKEW)
  }

  /** The device answered. */
  function OnlineTransition(cfg: Config, d: Device, p: Poll): (Device, bool) {
    var catchUp := ShouldCatchUp(cfg, d.online, Peek(d.offlineStreak), d.offlineSince, p.now, Reported(d));
    var d1 := if catchUp then LogOffline(d, p) else d;
    var hasOff := Reported(d) || catchUp;
    var streak := if catchUp then Streak(OfflineConfirm(cfg), true) else Peek(d.offlineStreak);
    var recovering := hasOff && d.offlineSince.Some?;
    if recovering || ShouldEmitOnline(cfg, d.online, streak, d.offlineSince, p.now, hasOff) then
      if NoteOnline(d.onlineStreak) >= ONLINE_CONFIRM_POLLS then
        (d1.(offlineStreak := None, onlineStreak := None, log := d1.log + [Event(CameOnline, p.eventAt)]), false)
      else
        (d1.(offlineStreak := None, onlineStreak := Some(NoteOnline(d.onlineStreak))), true)
    else (d1.(offlineStreak := None, onlineStreak := None), false)
  }

  /** The device did not answer. */
  function OfflineTransition(cfg: Config, d: Device, p: Poll): Device {
    var confirmed := Some(Streak(OfflineConfirm(cfg), true));
    if d.onlineStreak.Some? && 0 < d.onlineStreak.value < ONLINE_CONFIRM_POLLS && Reported(d) then
      d.(onlineStreak := None, offlineStreak := confirmed)
    else
      var st := NoteOffline(d);
      if ShouldEmitOfflineNow(cfg, st, PingWentDead(d.ping, p.ping)) ||
         ShouldCatchUp(cfg, d.online, st, d.offlineSince, p.now, Reported(d)) then
        LogOffline(d, p).(onlineStreak := None, offlineStreak := confirmed)
      else d.(onlineStreak := None, offlineStreak := Some(st))
  }

  /** A whole poll: the transition, then holding or refreshing `offline_since`. */
  function PollOne(cfg: Config, d: Device, p: Poll): Device {
    var t := if p.online then OnlineTransition(cfg, d, p) else (OfflineTransition(cfg, d, p), false);
    t.0.(online := p.online, ping := Some(p.ping),
         offlineSince := if p.online && !t.1 then None else Ensure(t.0.offlineSince, p.refreshAt))
  }

  /** `offline_since` is cleared for an online device and set if it is not set for an offline one. */
  function Refresh(d: Device, at: int): Device {
    d.(offlineSince := if d.online then None else Ensure(d.offlineSince, at))
  }

  /** A restart loses the streaks; start-up refreshes `offline_since`. */
  function Restart(d: Device, at: int): Device {
    Refresh(d, at).(offlineStreak := None, onlineStreak := None)
  }

  datatype Step = PollStep(poll: Poll) | RestartStep(at: int)

  function Apply(cfg: Config, d: Device, s: Step): Device {
    match s
    case PollStep(p) => PollOne(cfg, d, p)
    case RestartStep(at) => Restart(d, at)
  }

  function Run(cfg: Config, d: Device, steps: seq<Step>): Device
    decreases |steps|
  {
    if |steps| == 0 then d else Apply(cfg, Run(cfg, d, steps[..|steps| - 1]), steps[|steps| - 1])
  }

  const FRESH := Device(false, None, None, [], None, None)

  // ----- what holds in every reachable state, across restarts

  /** A pending ONLINE confirmation counts exactly one poll, the device was online
      then, and `offline_since` is being held; an online device whose
      `offline_since` is held has one pending. */
  ghost predicate Sane(d: Device) {
    && (d.onlineStreak.Some? ==> d.onlineStreak.value == 1 && d.online && d.offlineSince.Some?)
    && (d.online && d.offlineSince.Some? ==> d.onlineStreak.Some?)
    && (d.online ==> d.offlineStreak.None?) && (d.offlineStreak.Some? ==> d.offlineStreak.value.n > 0)
  }

  lemma StepKeepsSane(cfg: Config, d: Device, s: Step)
    requires Sane(d)
    ensures Sane(Apply(cfg, d, s))
  {
    hide HasOfflineEvent;
  }

  lemma {:induction false} RunKeepsSane(cfg: Config, d: Device, steps: seq<Step>)
    requires Sane(d)
    ensures Sane(Run(cfg, d, steps))
    decreases |steps|
  {
    if |steps| > 0 {
      RunKeepsSane(cfg, d, steps[..|steps| - 1]);
      StepKeepsSane(cfg, Run(cfg, d, steps[..|steps| - 1]), steps[|steps| - 1]);
    }
  }

  /** The events a step adds: at most one, and which one. */
  ghost predicate Emits(before: Device, after: Device, k: Kind) {
    |after.log| > |before.log| && after.log[|after.log| - 1].kind == k
  }

  /** A DEVICE_ONLINE is only logged for a device that was online at the previous
      poll of the same process, with a DEVICE_OFFLINE inside the lookup window. */
  lemma OnlineNeedsOffline(cfg: Config, d: Device, p: Poll)
    requires Sane(d) && Emits(d, PollOne(cfg, d, p), CameOnline)
    ensures p.online && d.online && d.onlineStreak == Some(1) && Reported(d)
    ensures PollOne(cfg, d, p).log == d.log + [Event(CameOnline, p.eventAt)]
  {
    hide HasOfflineEvent;
  }

  /** A pending confirmation was left by a poll that found the device online. */
  lemma PendingComesFromOnlinePoll(cfg: Config, d: Device, steps: seq<Step>)
    requires Sane(d) && d.onlineStreak.None? && Run(cfg, d, steps).onlineStreak.Some?
    ensures |steps| > 0 && steps[|steps| - 1].PollStep? && steps[|steps| - 1].poll.online
  {
    hide HasOfflineEvent;
    RunKeepsSane(cfg, d, steps);
  }

  /** In any run, restarts included: the poll that logs DEVICE_ONLINE is the second
      of two consecutive polls that found the device online, and the outage it
      ends was reported. */
  lemma OnlineIsConfirmed(cfg: Config, steps: seq<Step>, p: Poll)
    requires Emits(Run(cfg, FRESH, steps), PollOne(cfg, Run(cfg, FRESH, steps), p), CameOnline)
    ensures p.online && |steps| > 0 && steps[|steps| - 1].PollStep? && steps[|steps| - 1].poll.online
    ensures Reported(Run(cfg, FRESH, steps))
  {
    hide HasOfflineEvent;
    var d := Run(cfg, FRESH, steps);
    RunKeepsSane(cfg, FRESH, steps);
    OnlineNeedsOffline(cfg, d, p);
    PendingComesFromOnlinePoll(cfg, FRESH, steps);
  }
}
