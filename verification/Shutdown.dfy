/** Shutting the hook down: dispatchers, sends and the two waits around the flush.
    Taking a batch and registering its send are two steps, as they are under two
    different mutexes.  Neither wait times out. */
module Shutdown {
  import opened Graph
  import opened EmailBatch
  import opened EmailFates
  import opened EmailRuns

  /** Where the shutdown stands.  `own` is the batch the flush took last. */
  datatype Phase =
    | Running
    | Stopping
    | Quiet
    | Flushing(kinds: seq<Kind>, own: Option<nat>)
    | Draining
    | Drained
    | Closed

  /** What became of a taken batch. */
  datatype Stage = Unregistered | Sending | Sent | Dropped

  datatype System = System(mail: Mail, stages: seq<Stage>, dispatching: nat, phase: Phase)

  datatype Move =
    | BeginDispatch
    | DispatchEnqueue(kind: Kind, device: int, durationSec: int, settings: int, stopWins: bool)
    | EndDispatch
    | TimerRuns(timer: nat)
    | Register(firing: nat)
    | FinishSend(sent: nat)
    | BeginStop
    | FirstWaitOver
    | BeginFlush(order: seq<Kind>, late: set<nat>)
    | FlushTake
    | EndFlush
    | SecondWaitOver
    | Close

  const FRESH := System(EMPTY_MAIL, [], 0, Running)

  predicate Settled(stages: seq<Stage>, own: Option<nat>) {
    own.Some? && own.value < |stages| ==> stages[own.value] != Unregistered
  }

  /** The wait group counts dispatchers and registered sends that are not done. */
  ghost predicate Idle(s: System) {
    s.dispatching == 0 && forall f :: 0 <= f < |s.stages| ==> s.stages[f] != Sending
  }

  ghost predicate ListsBatches(order: seq<Kind>, batches: map<Kind, Batch>) {
    forall k :: k in batches ==> k in order
  }

  ghost predicate Enabled(s: System, m: Move) {
    match m
    case BeginDispatch => true
    case DispatchEnqueue(_, _, _, _, _) => s.dispatching > 0
    case EndDispatch => s.dispatching > 0
    case TimerRuns(t) => t < |s.mail.box.timers| && s.mail.box.timers[t].Armed?
    case Register(f) => f < |s.stages| && s.stages[f] == Unregistered
    case FinishSend(f) => f < |s.stages| && s.stages[f] == Sending
    case BeginStop => s.phase.Running?
    case FirstWaitOver => s.phase.Stopping? && Idle(s)
    case BeginFlush(order, _) => s.phase.Quiet? && ListsBatches(order, s.mail.box.batches)
    case FlushTake => s.phase.Flushing? && |s.phase.kinds| > 0 && Settled(s.stages, s.phase.own)
    case EndFlush => s.phase.Flushing? && |s.phase.kinds| == 0 && Settled(s.stages, s.phase.own)
    case SecondWaitOver => s.phase.Draining? && Idle(s)
    case Close => s.phase.Drained?
  }

  /** A batch just taken is not registered yet. */
  function Grown(stages: seq<Stage>, firings: seq<Firing>): seq<Stage> {
    if |firings| > |stages| then stages + [Unregistered] else stages
  }

  ghost function Acted(s: System, a: Action): System {
    var mail := Act(s.mail, a);
    s.(mail := mail, stages := Grown(s.stages, mail.box.firings))
  }

  ghost function Step(s: System, m: Move): System
    requires Enabled(s, m)
  {
    match m
    case BeginDispatch => if s.phase.Running? then s.(dispatching := s.dispatching + 1) else s
    case DispatchEnqueue(kind, device, durationSec, settings, stopWins) =>
      Acted(s, EnqueueAct(kind, device, durationSec, settings, stopWins))
    case EndDispatch => s.(dispatching := s.dispatching - 1)
    case TimerRuns(t) => Acted(s, TimerAct(t))
    case Register(f) => s.(stages := s.stages[f := if s.phase.Closed? then Dropped else Sending])
    case FinishSend(f) => s.(stages := s.stages[f := Sent])
    case BeginStop => s.(phase := Stopping)
    case FirstWaitOver => s.(phase := Quiet)
    case BeginFlush(order, late) => Acted(s, StopAct(late)).(phase := Flushing(order, None))
    case FlushTake =>
      var t := Acted(s, FireAct(s.phase.kinds[0]));
      t.(phase := Flushing(s.phase.kinds[1..], if |t.stages| > |s.stages| then Some(|s.stages|) else None))
    case EndFlush => s.(phase := Draining)
    case SecondWaitOver => s.(phase := Drained)
    case Close => s.(phase := Closed)
  }

  /** `states` is a run that makes `moves`. */
  ghost predicate IsRun(states: seq<System>, moves: seq<Move>) {
    && |states| == |moves| + 1 && states[0] == FRESH
    && forall i :: 0 <= i < |moves| ==> Stepped(states[i], moves[i], states[i + 1])
  }

  ghost predicate Stepped(s: System, m: Move, t: System) {
    Enabled(s, m) && t == Step(s, m)
  }

  // ----- what every move keeps

  ghost predicate NoBatch(batches: map<Kind, Batch>) {
    forall k :: k !in batches
  }

  /** The phase tells which dispatchers and batches can be left. */
  ghost predicate PhaseOk(dispatching: nat, batches: map<Kind, Batch>, phase: Phase) {
    match phase
    case Running => true
    case Stopping => true
    case Quiet => dispatching == 0
    case Flushing(kinds, _) => dispatching == 0 && ListsBatches(kinds, batches)
    case _ => dispatching == 0 && NoBatch(batches)
  }

  ghost predicate Orderly(s: System) {
    && Right(s.mail.box, s.mail.ledger) && |s.stages| == |s.mail.box.firings|
    && PhaseOk(s.dispatching, s.mail.box.batches, s.phase)
  }

  /** Taking and stopping never put a batch into the map. */
  lemma ActShrinks(m: Mail, a: Action)
    requires !a.EnqueueAct?
    ensures forall k :: k in Act(m, a).box.batches ==> k in m.box.batches
  {
    hide Takes, TimerTakes;
  }

  lemma FireRemoves(m: Mail, kind: Kind)
    requires Right(m.box, m.ledger)
    ensures kind !in Act(m, FireAct(kind)).box.batches
  {
    hide PendingOk, TakenOk, ReasonsOk, Numbered, Takes, OnePerDevice;
    if kind in m.box.batches {
      assert BatchOk(kind, m.box.batches[kind], m.box.timers);
    }
  }

  lemma ActFires(m: Mail, a: Action)
    ensures |m.box.firings| <= |Act(m, a).box.firings| <= |m.box.firings| + 1
  {
    hide Upsert, Without, Accept, Takes, TimerTakes;
  }

  lemma ActedKeeps(s: System, a: Action)
    requires Right(s.mail.box, s.mail.ledger) && |s.stages| == |s.mail.box.firings|
    ensures Right(Acted(s, a).mail.box, Acted(s, a).mail.ledger)
    ensures |Acted(s, a).stages| == |Acted(s, a).mail.box.firings|
  {
    hide Right, Act;
    ActKeepsRight(s.mail, a);
    ActFires(s.mail, a);
  }

  lemma PhaseShrinks(dispatching: nat, before: map<Kind, Batch>, after: map<Kind, Batch>, phase: Phase)
    requires PhaseOk(dispatching, before, phase) && forall k :: k in after ==> k in before
    ensures PhaseOk(dispatching, after, phase)
  {
  }

  lemma FlushTakeKeeps(s: System)
    requires Orderly(s) && Enabled(s, FlushTake)
    ensures Orderly(Step(s, FlushTake))
  {
    hide Right, Act;
    var kind := s.phase.kinds[0];
    var t := Acted(s, FireAct(kind));
    ActedKeeps(s, FireAct(kind));
    FireRemoves(s.mail, kind);
    ActShrinks(s.mail, FireAct(kind));
    var rest := s.phase.kinds[1..];
    assert s.phase.kinds == [kind] + rest;
    forall k | k in t.mail.box.batches ensures k in rest {
      assert k in s.phase.kinds && k != kind;
    }
  }

  lemma StepKeepsOrderly(s: System, m: Move)
    requires Orderly(s) && Enabled(s, m)
    ensures Orderly(Step(s, m))
  {
    hide Right, Act;
    match m
    case DispatchEnqueue(kind, device, durationSec, settings, stopWins) =>
      ActedKeeps(s, EnqueueAct(kind, device, durationSec, settings, stopWins));
    case TimerRuns(t) =>
      ActedKeeps(s, TimerAct(t));
      ActShrinks(s.mail, TimerAct(t));
      PhaseShrinks(s.dispatching, s.mail.box.batches, Act(s.mail, TimerAct(t)).box.batches, s.phase);
    case BeginFlush(order, late) =>
      ActedKeeps(s, StopAct(late));
      ActShrinks(s.mail, StopAct(late));
    case FlushTake => FlushTakeKeeps(s);
    case _ =>
  }

  lemma {:induction false} RunIsOrderly(states: seq<System>, moves: seq<Move>, n: nat)
    requires IsRun(states, moves) && n < |states|
    ensures Orderly(states[n])
  {
    hide Orderly, Enabled, Step;
    if n == 0 {
      FreshIsOrderly();
    } else {
      RunIsOrderly(states, moves, n - 1);
      assert Stepped(states[n - 1], moves[n - 1], states[n - 1 + 1]);
      StepKeepsOrderly(states[n - 1], moves[n - 1]);
    }
  }

  lemma FreshIsOrderly()
    ensures Orderly(FRESH)
  {
    hide Right;
    EmptyIsRight();
  }

  // ----- once closed

  /** Nothing is pending when the hook closes: every accepted card was taken,
      overwritten or cancelled, whatever the timers did meanwhile. */
  lemma ClosedLeavesNothingPending(states: seq<System>, moves: seq<Move>, n: nat, i: nat)
    requires IsRun(states, moves) && n < |states| && states[n].phase.Closed?
    requires i < |states[n].mail.ledger.cards|
    ensures var s := states[n];
            && i < |s.mail.ledger.fates| && !s.mail.ledger.fates[i].Pending?
            && (s.mail.ledger.fates[i].Taken? ==> s.mail.ledger.fates[i].firing < |s.stages|)
  {
    hide IsRun, Reason;
    var s := states[n];
    RunIsOrderly(states, moves, n);
    RightPlaces(s.mail.box, s.mail.ledger, i);
  }

  /** From closing on: the same batches, no new dispatch, no new send. */
  ghost predicate Frozen(s: System, t: System) {
    && t.phase.Closed? && t.dispatching == 0 && t.mail.ledger.cards == s.mail.ledger.cards
    && t.mail.ledger.fates == s.mail.ledger.fates && |t.stages| == |s.stages|
    && forall f :: 0 <= f < |s.stages| ==> Later(s.stages[f], t.stages[f])
  }

  /** A batch not registered by then is never sent; a registered one is never dropped. */
  predicate Later(a: Stage, b: Stage) {
    match a
    case Unregistered => b == Unregistered || b == Dropped
    case Sending => b == Sending || b == Sent
    case Sent => b == Sent
    case Dropped => b == Dropped
  }

  lemma NoPendingNoTake(m: Mail, t: nat)
    requires Right(m.box, m.ledger) && NoBatch(m.box.batches)
    ensures Act(m, TimerAct(t)).box.firings == m.box.firings && Act(m, TimerAct(t)).ledger == m.ledger
  {
    hide TakenOk, ReasonsOk, BatchesOk;
    var l := m.ledger;
    assert forall i :: 0 <= i < |l.fates| ==> !l.fates[i].Pending?;
    if t < |m.box.timers| && m.box.timers[t].Armed? {
      assert Takes(m.box, l, m.box.timers[t].kind).fates == l.fates;
    }
  }

  lemma StepAfterClosed(s: System, m: Move)
    requires Orderly(s) && s.phase.Closed? && Enabled(s, m)
    ensures Frozen(s, Step(s, m))
  {
    hide Right, Act;
    match m
    case TimerRuns(t) => NoPendingNoTake(s.mail, t);
    case _ =>
  }

  lemma {:induction false} AfterClosed(states: seq<System>, moves: seq<Move>, n: nat, k: nat)
    requires IsRun(states, moves) && n <= k < |states| && states[n].phase.Closed?
    ensures Frozen(states[n], states[k])
    decreases k
  {
    hide Orderly, Enabled, Step;
    if n == k {
      ClosedIsQuiet(states, moves, n);
    } else {
      AfterClosed(states, moves, n, k - 1);
      assert Stepped(states[k - 1], moves[k - 1], states[k - 1 + 1]);
      RunIsOrderly(states, moves, k - 1);
      StepAfterClosed(states[k - 1], moves[k - 1]);
    }
  }

  lemma ClosedIsQuiet(states: seq<System>, moves: seq<Move>, n: nat)
    requires IsRun(states, moves) && n < |states| && states[n].phase.Closed?
    ensures states[n].dispatching == 0
  {
    hide IsRun, Right;
    RunIsOrderly(states, moves, n);
  }

  ghost predicate Handed(s: System, i: nat) {
    && i < |s.mail.ledger.fates| && s.mail.ledger.fates[i].Taken? && s.mail.ledger.fates[i].firing < |s.stages|
    && (s.stages[s.mail.ledger.fates[i].firing] == Sending || s.stages[s.mail.ledger.fates[i].firing] == Sent)
  }

  ghost predicate Superseded(s: System, i: nat) {
    i < |s.mail.ledger.fates| && (s.mail.ledger.fates[i].Overwritten? || s.mail.ledger.fates[i].Cancelled?)
  }

  /** Its batch had been taken but not registered. */
  ghost predicate InBetween(s: System, i: nat) {
    && i < |s.mail.ledger.fates| && s.mail.ledger.fates[i].Taken? && s.mail.ledger.fates[i].firing < |s.stages|
    && s.stages[s.mail.ledger.fates[i].firing] == Unregistered
  }

  ghost predicate NoDrops(s: System) {
    forall f :: 0 <= f < |s.stages| ==> s.stages[f] != Dropped
  }

  lemma StepDropsNothing(s: System, m: Move)
    requires NoDrops(s) && Enabled(s, m) && !s.phase.Closed?
    ensures NoDrops(Step(s, m))
  {
    hide Act;
  }

  lemma StaysClosed(s: System, m: Move)
    requires Enabled(s, m) && s.phase.Closed?
    ensures Step(s, m).phase.Closed?
  {
    hide Act;
  }

  lemma {:induction false} DropsNeedClosed(states: seq<System>, moves: seq<Move>, n: nat)
    requires IsRun(states, moves) && n < |states|
    requires n > 0 ==> !states[n - 1].phase.Closed?
    ensures NoDrops(states[n])
  {
    hide Step, Enabled;
    if n > 0 {
      assert Stepped(states[n - 1], moves[n - 1], states[n - 1 + 1]);
      if n > 1 {
        assert Stepped(states[n - 2], moves[n - 2], states[n - 2 + 1]);
        if states[n - 2].phase.Closed? {
          StaysClosed(states[n - 2], moves[n - 2]);
        }
      }
      DropsNeedClosed(states, moves, n - 1);
      StepDropsNothing(states[n - 1], moves[n - 1]);
    }
  }

  /** The exact loss: a card is never handed to the sender and not superseded,
      however long the run goes on after the hook closes, if and only if at
      the moment of closing its batch was between being taken and registered. */
  lemma LostIffInBetween(states: seq<System>, moves: seq<Move>, n: nat, k: nat, i: nat)
    requires IsRun(states, moves) && n < |moves| && moves[n] == Close && n < k < |states|
    requires i < |states[k].mail.ledger.cards|
    ensures (Handed(states[k], i) || Superseded(states[k], i)) <==> !InBetween(states[n], i)
    ensures !(Handed(states[k], i) && Superseded(states[k], i))
  {
    hide Orderly, Right, Idle;
    assert Stepped(states[n], moves[n], states[n + 1]);
    AfterClosed(states, moves, n + 1, k);
    ClosedLeavesNothingPending(states, moves, k, i);
    if n > 0 { assert Stepped(states[n - 1], moves[n - 1], states[n - 1 + 1]); }
    DropsNeedClosed(states, moves, n);
  }

  /** Every batch taken is registered by the very next move. */
  ghost predicate Prompt(states: seq<System>, moves: seq<Move>)
    requires |states| == |moves| + 1
  {
    forall j :: 0 <= j < |moves| ==> AtOnce(states[j], moves[j])
  }

  ghost predicate AtOnce(s: System, m: Move) {
    forall f :: 0 <= f < |s.stages| && s.stages[f] == Unregistered ==> m == Register(f)
  }

  /** With taking and registering joined, no accepted card is lost. */
  lemma PromptLosesNothing(states: seq<System>, moves: seq<Move>, n: nat, k: nat, i: nat)
    requires IsRun(states, moves) && Prompt(states, moves) && n < |moves| && moves[n] == Close && n < k < |states|
    requires i < |states[k].mail.ledger.cards|
    ensures Handed(states[k], i) || Superseded(states[k], i)
  {
    hide Stepped, Handed, Superseded;
    LostIffInBetween(states, moves, n, k, i);
    PromptAtClose(states, moves, n);
  }

  lemma PromptAtClose(states: seq<System>, moves: seq<Move>, n: nat)
    requires |states| == |moves| + 1 && Prompt(states, moves) && n < |moves| && moves[n] == Close
    ensures forall f :: 0 <= f < |states[n].stages| ==> states[n].stages[f] != Unregistered
  {
    assert AtOnce(states[n], moves[n]);
  }

  // ----- the race is real

  const LONE_CARD := Card(0, DeviceOffline, 1, 0)

  /** One card accepted, its batch taken by its timer. */
  const WAITING_MAIL :=
    Mail(Box(map[DeviceOffline := Batch([LONE_CARD], Some(0), 0)], [Armed(DeviceOffline)], []),
         Ledger([LONE_CARD], [Pending]))
  const GONE_MAIL := Mail(Box(map[], [Ran], [Firing(DeviceOffline, [LONE_CARD], 0)]), Ledger([LONE_CARD], [Taken(0)]))

  lemma LoneEnqueued()
    ensures Act(EMPTY_MAIL, EnqueueAct(DeviceOffline, 1, 0, 0, true)) == WAITING_MAIL
  {
    assert Accept(EMPTY_MAIL.ledger, LONE_CARD).fates == [Pending];
    assert !HasDevice([], 1);
  }

  lemma LoneTaken()
    ensures Act(WAITING_MAIL, TimerAct(0)) == GONE_MAIL
  {
    assert Takes(WAITING_MAIL.box, WAITING_MAIL.ledger, DeviceOffline).fates == [Taken(0)];
    assert Remove(WAITING_MAIL.box.batches, DeviceOffline) == map[];
    assert [Armed(DeviceOffline)][0 := Ran] == [Ran];
  }

  lemma GoneStopped()
    ensures Act(GONE_MAIL, StopAct({})) == GONE_MAIL
  {
    assert StopAll(GONE_MAIL.box, {}).timers == [Ran];
  }

  const JUST_TAKEN := [Unregistered]

  lemma RaceStarts()
    ensures Stepped(FRESH, BeginDispatch, System(EMPTY_MAIL, [], 1, Running))
    ensures Stepped(System(EMPTY_MAIL, [], 1, Running), DispatchEnqueue(DeviceOffline, 1, 0, 0, true),
                    System(WAITING_MAIL, [], 1, Running))
    ensures Stepped(System(WAITING_MAIL, [], 1, Running), EndDispatch, System(WAITING_MAIL, [], 0, Running))
    ensures Stepped(System(WAITING_MAIL, [], 0, Running), TimerRuns(0), System(GONE_MAIL, JUST_TAKEN, 0, Running))
  {
    hide Act;
    LoneEnqueued();
    LoneTaken();
    assert Grown([], GONE_MAIL.box.firings) == JUST_TAKEN;
  }

  lemma RaceEnds()
    ensures Stepped(System(GONE_MAIL, JUST_TAKEN, 0, Running), BeginStop, System(GONE_MAIL, JUST_TAKEN, 0, Stopping))
    ensures Stepped(System(GONE_MAIL, JUST_TAKEN, 0, Stopping), FirstWaitOver, System(GONE_MAIL, JUST_TAKEN, 0, Quiet))
    ensures Stepped(System(GONE_MAIL, JUST_TAKEN, 0, Quiet), BeginFlush([], {}),
                    System(GONE_MAIL, JUST_TAKEN, 0, Flushing([], None)))
    ensures Stepped(System(GONE_MAIL, JUST_TAKEN, 0, Flushing([], None)), EndFlush,
                    System(GONE_MAIL, JUST_TAKEN, 0, Draining))
    ensures Stepped(System(GONE_MAIL, JUST_TAKEN, 0, Draining), SecondWaitOver,
                    System(GONE_MAIL, JUST_TAKEN, 0, Drained))
    ensures Stepped(System(GONE_MAIL, JUST_TAKEN, 0, Drained), Close, System(GONE_MAIL, JUST_TAKEN, 0, Closed))
    ensures Stepped(System(GONE_MAIL, JUST_TAKEN, 0, Closed), Register(0), System(GONE_MAIL, [Dropped], 0, Closed))
  {
    hide Act;
    GoneStopped();
    assert JUST_TAKEN[0 := Dropped] == [Dropped];
  }

  /** The timer's function takes the batch, the whole shutdown passes, and only
      then does it try to register the send: the card is lost. */
  lemma TakenBatchCanBeLost() returns (states: seq<System>, moves: seq<Move>)
    ensures IsRun(states, moves) && |states| == 12 && states[11].phase.Closed?
    ensures states[11].mail.ledger.cards == [LONE_CARD] && states[11].stages == [Dropped]
    ensures !Handed(states[11], 0) && !Superseded(states[11], 0)
  {
    hide Act, Stepped;
    RaceStarts();
    RaceEnds();
    moves := [BeginDispatch, DispatchEnqueue(DeviceOffline, 1, 0, 0, true), EndDispatch, TimerRuns(0), BeginStop,
              FirstWaitOver, BeginFlush([], {}), EndFlush, SecondWaitOver, Close, Register(0)];
    states := [FRESH, System(EMPTY_MAIL, [], 1, Running),
               System(WAITING_MAIL, [], 1, Running), System(WAITING_MAIL, [], 0, Running),
               System(GONE_MAIL, JUST_TAKEN, 0, Running), System(GONE_MAIL, JUST_TAKEN, 0, Stopping),
               System(GONE_MAIL, JUST_TAKEN, 0, Quiet), System(GONE_MAIL, JUST_TAKEN, 0, Flushing([], None)),
               System(GONE_MAIL, JUST_TAKEN, 0, Draining), System(GONE_MAIL, JUST_TAKEN, 0, Drained),
               System(GONE_MAIL, JUST_TAKEN, 0, Closed), System(GONE_MAIL, [Dropped], 0, Closed)];
  }
}
