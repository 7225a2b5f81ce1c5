/** Runs of the batching: any order of enqueues, timer functions and flushes. */
module EmailRuns {
  import opened Graph
  import opened EmailBatch
  import opened EmailFates

  datatype Mail = Mail(box: Box, ledger: Ledger)

  /** `EnqueueAct` accepts a card; `stopWins` and `late` say which stops came in time. */
  datatype Action =
    | EnqueueAct(kind: Kind, device: int, durationSec: int, settings: int, stopWins: bool)
    | TimerAct(timer: nat)
    | StopAct(late: set<nat>)
    | FireAct(fireKind: Kind)

  const EMPTY_MAIL := Mail(Box(map[], [], []), Ledger([], []))

  ghost function Act(m: Mail, a: Action): Mail {
    match a
    case EnqueueAct(kind, device, durationSec, settings, stopWins) =>
      var card := Card(|m.ledger.cards|, kind, device, durationSec);
      Mail(Enqueue(m.box, card, settings, stopWins), Accept(m.ledger, card))
    case TimerAct(t) => Mail(RunTimer(m.box, t), TimerTakes(m.box, m.ledger, t))
    case StopAct(late) => m.(box := StopAll(m.box, late))
    case FireAct(kind) => Mail(Take(m.box, kind), Takes(m.box, m.ledger, kind))
  }

  ghost function Run(m: Mail, acts: seq<Action>): Mail
    decreases |acts|
  {
    if |acts| == 0 then m else Act(Run(m, acts[..|acts| - 1]), acts[|acts| - 1])
  }

  lemma ActKeepsRight(m: Mail, a: Action)
    requires Right(m.box, m.ledger)
    ensures Right(Act(m, a).box, Act(m, a).ledger)
  {
    hide Right, Enqueue, Accept, RunTimer, TimerTakes, StopAll, Take, Takes;
    match a
    case EnqueueAct(kind, device, durationSec, settings, stopWins) =>
      EnqueueKeeps(m.box, m.ledger, Card(|m.ledger.cards|, kind, device, durationSec), settings, stopWins);
    case TimerAct(t) => RunTimerKeeps(m.box, m.ledger, t);
    case StopAct(late) => StopAllKeeps(m.box, m.ledger, late);
    case FireAct(kind) => TakeKeeps(m.box, m.ledger, kind);
  }

  lemma EmptyIsRight()
    ensures Right(EMPTY_MAIL.box, EMPTY_MAIL.ledger)
  {
  }

  /** Every interleaving. */
  lemma {:induction false} RunIsRight(acts: seq<Action>)
    ensures Right(Run(EMPTY_MAIL, acts).box, Run(EMPTY_MAIL, acts).ledger)
    decreases |acts|
  {
    hide Right, Act;
    if |acts| == 0 {
      EmptyIsRight();
    } else {
      RunIsRight(acts[..|acts| - 1]);
      ActKeepsRight(Run(EMPTY_MAIL, acts[..|acts| - 1]), acts[|acts| - 1]);
    }
  }

  lemma {:induction false} OncePerItem(items: seq<Card>, c: Card)
    requires OnePerDevice(items)
    ensures multiset(items)[c] == if c in items then 1 else 0
    decreases |items|
  {
    if |items| > 0 {
      var n := |items| - 1;
      var init := items[..n];
      OncePerItem(init, c);
      assert items == init + [items[n]];
      assert items[n] !in init;
    }
  }

  /** Where a card is: in a batch exactly while it is pending, in a fired batch
      exactly when it was taken with it, never in two, never twice in one. */
  lemma EachCardOnce(acts: seq<Action>, i: nat)
    requires i < |Run(EMPTY_MAIL, acts).ledger.cards|
    ensures var m := Run(EMPTY_MAIL, acts);
            var c := m.ledger.cards[i];
            && |m.ledger.fates| == |m.ledger.cards| && Reason(m.ledger, c, m.ledger.fates[i])
            && (forall k :: k in m.box.batches ==>
                  multiset(m.box.batches[k].items)[c] == if m.ledger.fates[i].Pending? && c.kind == k then 1 else 0)
            && (forall f :: 0 <= f < |m.box.firings| ==>
                  multiset(m.box.firings[f].items)[c] == if m.ledger.fates[i] == Taken(f) then 1 else 0)
            && (m.ledger.fates[i].Pending? ==> c.kind in m.box.batches)
            && (m.ledger.fates[i].Taken? ==> m.ledger.fates[i].firing < |m.box.firings|)
  {
    hide Run, Act;
    var m := Run(EMPTY_MAIL, acts);
    RunIsRight(acts);
    RightPlaces(m.box, m.ledger, i);
  }

  lemma RightPlaces(box: Box, l: Ledger, i: nat)
    requires Right(box, l) && i < |l.cards|
    ensures Reason(l, l.cards[i], l.fates[i])
    ensures forall k :: k in box.batches ==>
        multiset(box.batches[k].items)[l.cards[i]] == if l.fates[i].Pending? && l.cards[i].kind == k then 1 else 0
    ensures forall f :: 0 <= f < |box.firings| ==>
        multiset(box.firings[f].items)[l.cards[i]] == if l.fates[i] == Taken(f) then 1 else 0
    ensures l.fates[i].Pending? ==> l.cards[i].kind in box.batches
    ensures l.fates[i].Taken? ==> l.fates[i].firing < |box.firings|
  {
    hide Reason, OnePerDevice;
    var c := l.cards[i];
    forall k | k in box.batches
      ensures multiset(box.batches[k].items)[c] == if l.fates[i].Pending? && c.kind == k then 1 else 0
    {
      OncePerItem(box.batches[k].items, c);
      assert c in box.batches[k].items <==> InBatch(box.batches, k, c);
    }
    forall f | 0 <= f < |box.firings|
      ensures multiset(box.firings[f].items)[c] == if l.fates[i] == Taken(f) then 1 else 0
    {
      OncePerItem(box.firings[f].items, c);
      assert c in box.firings[f].items <==> InFiring(box.firings, f, c);
    }
  }

  // ----- what an accepted card does

  /** What becomes of a card when the `n`-th one comes in: an unsent OFFLINE card is
      cancelled by the end of the same device's outage of at most 25 s, a card of the
      same kind and device is overwritten, and no other card is touched. */
  ghost function FateAfter(c: Card, fate: Fate, n: nat, kind: Kind, device: int, durationSec: int): Fate {
    if fate != Pending || c.device != device then fate
    else if kind == DeviceOnline && durationSec <= 25 && c.kind == DeviceOffline then Cancelled(n)
    else if c.kind == kind then Overwritten(n)
    else Pending
  }

  lemma AcceptedCard(acts: seq<Action>, kind: Kind, device: int, durationSec: int, settings: int, stopWins: bool)
    ensures var l := Run(EMPTY_MAIL, acts).ledger;
            var l1 := Run(EMPTY_MAIL, acts + [EnqueueAct(kind, device, durationSec, settings, stopWins)]).ledger;
            var n := |l.cards|;
            && l1.cards == l.cards + [Card(n, kind, device, durationSec)]
            && |l.fates| == n && |l1.fates| == n + 1 && l1.fates[n] == Pending
            && forall i :: 0 <= i < n ==>
                l1.fates[i] == FateAfter(l.cards[i], l.fates[i], n, kind, device, durationSec)
  {
    hide Run, Enqueue, Accept, BatchesOk, PendingOk, TakenOk, FateAfter;
    RunIsRight(acts);
    RunOne(EMPTY_MAIL, acts, EnqueueAct(kind, device, durationSec, settings, stopWins));
    var l := Run(EMPTY_MAIL, acts).ledger;
    AcceptMeans(l, Card(|l.cards|, kind, device, durationSec));
  }

  lemma AcceptMeans(l: Ledger, card: Card)
    requires Numbered(l) && card.id == |l.cards|
    ensures var l1 := Accept(l, card);
            && l1.cards == l.cards + [card] && |l1.fates| == card.id + 1 && l1.fates[card.id] == Pending
            && forall i :: 0 <= i < card.id ==>
                l1.fates[i] == FateAfter(l.cards[i], l.fates[i], card.id, card.kind, card.device, card.durationSec)
  {
  }

  /** Only the end of a short outage cancels a card, and only an OFFLINE one of the
      same device. */
  lemma CancelledByShortOutage(acts: seq<Action>, i: nat)
    requires var l := Run(EMPTY_MAIL, acts).ledger; i < |l.cards| && i < |l.fates| && l.fates[i].Cancelled?
    ensures var l := Run(EMPTY_MAIL, acts).ledger;
            var n := l.fates[i].rival;
            && i < n < |l.cards| && l.cards[i].kind == DeviceOffline && l.cards[i].device == l.cards[n].device
            && l.cards[n].kind == DeviceOnline && l.cards[n].durationSec <= 25
  {
    RunIsRight(acts);
    var l := Run(EMPTY_MAIL, acts).ledger;
    hide Run, BatchesOk, PendingOk, TakenOk;
    assert Reason(l, l.cards[i], l.fates[i]);
  }

  /** The first card of a batch arms its timer; while the batch waits neither another
      card nor a cancellation re-arms it.  A new device's card brings its settings,
      a replacing one leaves those of the batch. */
  lemma AcceptedTimer(acts: seq<Action>, kind: Kind, device: int, durationSec: int, settings: int, stopWins: bool)
    ensures var m := Run(EMPTY_MAIL, acts);
            var m1 := Run(EMPTY_MAIL, acts + [EnqueueAct(kind, device, durationSec, settings, stopWins)]);
            TimerRight(m.box, m1.box, Card(|m.ledger.cards|, kind, device, durationSec), settings)
  {
    hide Run, TimerRight, Enqueue, Accept, PendingOk, TakenOk, ReasonsOk, BatchesOk;
    RunIsRight(acts);
    var m := Run(EMPTY_MAIL, acts);
    EnqueueTimers(m.box, Card(|m.ledger.cards|, kind, device, durationSec), settings, stopWins);
    RunOne(EMPTY_MAIL, acts, EnqueueAct(kind, device, durationSec, settings, stopWins));
  }

  lemma RunOne(m: Mail, acts: seq<Action>, a: Action)
    ensures Run(m, acts + [a]) == Act(Run(m, acts), a)
  {
    assert (acts + [a])[..|acts|] == acts;
  }

  /** A cancellation leaves the timers of the remaining batches alone. */
  lemma CancelTimers(box: Box, device: int, stopWins: bool)
    ensures var after := CancelOffline(box, device, stopWins);
            && (forall k :: k in after.batches ==> k in box.batches && after.batches[k].timer == box.batches[k].timer)
            && (DeviceOnline in box.batches <==> DeviceOnline in after.batches)
            && (DeviceOnline in box.batches ==> after.batches[DeviceOnline] == box.batches[DeviceOnline])
            && |after.timers| == |box.timers|
  {
    hide Without;
  }

  /** The batch a card went into, compared with the one there was. */
  ghost predicate TimerRight(box: Box, after: Box, card: Card, settings: int) {
    && card.kind in after.batches && (forall k :: k in after.batches ==> k == card.kind || k in box.batches)
    && (forall k :: k in after.batches && k in box.batches ==> after.batches[k].timer == box.batches[k].timer)
    && (card.kind !in box.batches ==>
          && |after.timers| == |box.timers| + 1 && after.timers[|box.timers|] == Armed(card.kind)
          && after.batches[card.kind].timer == Some(|box.timers|)
          && after.batches[card.kind].settings == settings)
    && (card.kind in box.batches ==>
          && |after.timers| == |box.timers|
          && after.batches[card.kind].settings ==
             if exists c :: c in box.batches[card.kind].items && c.device == card.device
             then box.batches[card.kind].settings else settings)
  }

  lemma PutTimers(box: Box, card: Card, settings: int)
    requires card.kind in box.batches ==> box.batches[card.kind].timer.Some?
    ensures TimerRight(box, Put(box, card, settings), card, settings)
  {
    hide Upsert, HasDevice;
    if card.kind in box.batches {
      HasDeviceMeans(box.batches[card.kind].items, card.device);
    } else {
      HasDeviceMeans([], card.device);
    }
  }

  lemma HasDeviceMeans(items: seq<Card>, device: int)
    ensures HasDevice(items, device) <==> exists c :: c in items && c.device == device
  {
    if c :| c in items && c.device == device {
      var j :| 0 <= j < |items| && items[j] == c;
    }
  }

  lemma EnqueueTimers(box: Box, card: Card, settings: int, stopWins: bool)
    requires BatchesOk(box)
    ensures TimerRight(box, Enqueue(box, card, settings, stopWins), card, settings)
  {
    hide CancelOffline, Put, OnePerDevice;
    CancelTimers(box, card.device, stopWins);
    PutTimers(if Cancels(card) then CancelOffline(box, card.device, stopWins) else box, card, settings);
  }

  // ----- fates are final

  ghost predicate Extends(before: Ledger, after: Ledger) {
    && |before.cards| <= |after.cards| && |before.fates| <= |after.fates|
    && (forall i :: 0 <= i < |before.cards| ==> after.cards[i] == before.cards[i])
    && (forall i :: 0 <= i < |before.fates| && !before.fates[i].Pending? ==> after.fates[i] == before.fates[i])
  }

  lemma ActExtends(m: Mail, a: Action)
    ensures Extends(m.ledger, Act(m, a).ledger)
  {
    hide Enqueue, RunTimer, StopAll, Take;
  }

  /** Once taken, overwritten or cancelled, a card stays so. */
  lemma {:induction false} FatesAreFinal(m: Mail, acts: seq<Action>)
    ensures Extends(m.ledger, Run(m, acts).ledger)
    decreases |acts|
  {
    hide Act;
    if |acts| > 0 {
      FatesAreFinal(m, acts[..|acts| - 1]);
      ActExtends(Run(m, acts[..|acts| - 1]), acts[|acts| - 1]);
    }
  }
}
