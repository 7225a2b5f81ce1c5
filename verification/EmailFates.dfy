/** Every card meets exactly one fate, whatever the interleaving. */
module EmailFates {
  import opened Graph
  import opened EmailBatch

  /** The batches lose exactly the cards that match. */
  ghost predicate Thinned(before: map<Kind, Batch>, after: map<Kind, Batch>, kind: Kind, device: Option<int>) {
    forall k, c :: InBatch(after, k, c) <==> InBatch(before, k, c) && !Matches(c, kind, device)
  }

  lemma SettlePending(before: map<Kind, Batch>, after: map<Kind, Batch>, l: Ledger, kind: Kind, device: Option<int>,
                      fate: Fate)
    requires Numbered(l) && PendingOk(before, l) && Thinned(before, after, kind, device) && !fate.Pending?
    ensures PendingOk(after, Settle(l, kind, device, fate))
  {
    hide InBatch;
  }

  lemma SettleKeepsTaken(firings: seq<Firing>, l: Ledger, kind: Kind, device: Option<int>, fate: Fate)
    requires TakenOk(firings, l) && !fate.Taken?
    ensures TakenOk(firings, Settle(l, kind, device, fate))
  {
    hide InFiring, OnePerDevice;
  }

  // ----- a short outage is over

  lemma CancelThins(box: Box, l: Ledger, device: int, stopWins: bool)
    requires PendingOk(box.batches, l)
    ensures Thinned(box.batches, CancelOffline(box, device, stopWins).batches, DeviceOffline, Some(device))
  {
    hide Without;
    var after := CancelOffline(box, device, stopWins).batches;
    forall k, c
      ensures InBatch(after, k, c) <==> InBatch(box.batches, k, c) && !Matches(c, DeviceOffline, Some(device))
    {
      if k == DeviceOffline && k in box.batches {
        var items := box.batches[DeviceOffline].items;
        WithoutHas(items, device);
        assert c in Without(items, device) <==> c in items && c.device != device;
        assert InBatch(box.batches, k, c) ==> c.kind == k;
      } else {
        assert InBatch(after, k, c) <==> InBatch(box.batches, k, c);
        assert InBatch(box.batches, k, c) ==> c.kind == k;
      }
    }
  }

  lemma CancelBatchesOk(box: Box, device: int, stopWins: bool)
    requires BatchesOk(box)
    ensures BatchesOk(CancelOffline(box, device, stopWins))
  {
    hide Without;
    if DeviceOffline in box.batches {
      WithoutOnePerDevice(box.batches[DeviceOffline].items, device);
    }
  }

  // ----- the new card goes in

  ghost predicate PutIn(before: map<Kind, Batch>, after: map<Kind, Batch>, card: Card) {
    forall k, c :: InBatch(after, k, c) <==>
      (k == card.kind && c == card) || (InBatch(before, k, c) && !(k == card.kind && c.device == card.device))
  }

  lemma PutPutsIn(box: Box, card: Card, settings: int)
    requires BatchesOk(box)
    ensures PutIn(box.batches, Put(box, card, settings).batches, card)
  {
    hide Upsert, HasDevice;
    var after := Put(box, card, settings).batches;
    var items := BatchFor(box, card.kind, settings).items;
    UpsertHas(items, card);
    forall k, c ensures InBatch(after, k, c) <==>
      (k == card.kind && c == card) || (InBatch(box.batches, k, c) && !(k == card.kind && c.device == card.device))
    {
      if k == card.kind {
        assert InBatch(after, k, c) <==> c in Upsert(items, card);
        assert InBatch(box.batches, k, c) <==> c in items;
      }
    }
  }

  lemma PutBatchesOk(box: Box, card: Card, settings: int)
    requires BatchesOk(box)
    ensures BatchesOk(Put(box, card, settings))
  {
    hide Upsert, HasDevice, OnePerDevice;
    var items := BatchFor(box, card.kind, settings).items;
    assert OnePerDevice(items) by {
      if card.kind !in box.batches { EmptyOnePerDevice(); }
    }
    UpsertHas(items, card);
    UpsertOnePerDevice(items, card);
  }

  lemma EmptyOnePerDevice()
    ensures OnePerDevice([])
  {
  }

  lemma PutPending(before: map<Kind, Batch>, after: map<Kind, Batch>, l: Ledger, card: Card)
    requires Numbered(l) && PendingOk(before, l) && PutIn(before, after, card) && card.id == |l.cards|
    ensures PendingOk(after, Appended(Settle(l, card.kind, Some(card.device), Overwritten(card.id)), card))
  {
    hide InBatch;
  }

  ghost function Appended(l: Ledger, card: Card): Ledger {
    Ledger(l.cards + [card], l.fates + [Pending])
  }

  lemma AppendKeepsTaken(firings: seq<Firing>, l: Ledger, card: Card)
    requires Numbered(l) && TakenOk(firings, l)
    ensures TakenOk(firings, Appended(l, card))
  {
    hide InFiring, OnePerDevice;
  }

  lemma AcceptReasons(l: Ledger, card: Card)
    requires Numbered(l) && ReasonsOk(l) && card.id == |l.cards|
    ensures Numbered(Accept(l, card)) && ReasonsOk(Accept(l, card))
  {
    var l1 := AfterCancel(l, card);
    var l2 := Accept(l, card);
    forall i | 0 <= i < |l2.cards|
      ensures Reason(l2, l2.cards[i], l2.fates[i])
    {
      if i < |l.cards| {
        assert Reason(l, l.cards[i], l.fates[i]);
        assert l2.cards[i] == l.cards[i];
      }
    }
  }

  lemma CancelKeeps(box: Box, l: Ledger, card: Card, stopWins: bool)
    requires Right(box, l)
    ensures var box1 := if Cancels(card) then CancelOffline(box, card.device, stopWins) else box;
            && BatchesOk(box1) && PendingOk(box1.batches, AfterCancel(l, card))
            && TakenOk(box1.firings, AfterCancel(l, card))
            && Numbered(AfterCancel(l, card))
  {
    hide BatchesOk, PendingOk, TakenOk, Thinned, ReasonsOk;
    if Cancels(card) {
      CancelBatchesOk(box, card.device, stopWins);
      CancelThins(box, l, card.device, stopWins);
      SettlePending(box.batches, CancelOffline(box, card.device, stopWins).batches, l, DeviceOffline, Some(card.device),
                    Cancelled(card.id));
      SettleKeepsTaken(box.firings, l, DeviceOffline, Some(card.device), Cancelled(card.id));
    }
  }

  /** Accepting a card. */
  lemma EnqueueKeeps(box: Box, l: Ledger, card: Card, settings: int, stopWins: bool)
    requires Right(box, l) && card.id == |l.cards|
    ensures Right(Enqueue(box, card, settings, stopWins), Accept(l, card))
  {
    hide BatchesOk, PendingOk, TakenOk, PutIn, ReasonsOk, Settle, CancelOffline;
    CancelKeeps(box, l, card, stopWins);
    var box1 := if Cancels(card) then CancelOffline(box, card.device, stopWins) else box;
    var l1 := AfterCancel(l, card);
    SameCards(l, card);
    PutBatchesOk(box1, card, settings);
    PutPutsIn(box1, card, settings);
    PutPending(box1.batches, Put(box1, card, settings).batches, l1, card);
    SettleKeepsTaken(box1.firings, l1, card.kind, Some(card.device), Overwritten(card.id));
    AppendKeepsTaken(box1.firings, Settle(l1, card.kind, Some(card.device), Overwritten(card.id)), card);
    AcceptReasons(l, card);
  }

  lemma SameCards(l: Ledger, card: Card)
    requires Numbered(l)
    ensures AfterCancel(l, card).cards == l.cards && Numbered(AfterCancel(l, card))
    ensures Numbered(Settle(AfterCancel(l, card), card.kind, Some(card.device), Overwritten(card.id)))
  {
  }

  // ----- a batch is taken

  ghost function Takes(box: Box, l: Ledger, kind: Kind): Ledger {
    Settle(l, kind, None, Taken(|box.firings|))
  }

  lemma TakeThins(box: Box, l: Ledger, kind: Kind)
    requires PendingOk(box.batches, l)
    ensures Thinned(box.batches, Take(box, kind).batches, kind, None)
  {
    var after := Take(box, kind).batches;
    forall k, c
      ensures InBatch(after, k, c) <==> InBatch(box.batches, k, c) && !Matches(c, kind, None)
    {
      assert InBatch(box.batches, k, c) ==> c.kind == k;
    }
  }

  lemma TakeTaken(box: Box, l: Ledger, kind: Kind)
    requires Numbered(l) && BatchesOk(box) && PendingOk(box.batches, l) && TakenOk(box.firings, l)
    ensures TakenOk(Take(box, kind).firings, Takes(box, l, kind))
  {
    var l1 := Takes(box, l, kind);
    var after := Take(box, kind).firings;
    var n := |box.firings|;
    forall f | 0 <= f < |after|
      ensures OnePerDevice(after[f].items)
    {
      if f < n { assert after[f] == box.firings[f]; }
    }
    forall f: nat, c | InFiring(after, f, c)
      ensures Known(l1, c, after[f].kind, Taken(f))
    {
      if f < n {
        assert InFiring(box.firings, f, c);
      } else {
        assert InBatch(box.batches, kind, c);
      }
    }
    forall i | 0 <= i < |l1.cards| && l1.fates[i].Taken?
      ensures InFiring(after, l1.fates[i].firing, l1.cards[i])
    {
      if l.fates[i].Taken? {
        assert InFiring(box.firings, l.fates[i].firing, l.cards[i]);
      } else {
        assert InBatch(box.batches, l.cards[i].kind, l.cards[i]);
      }
    }
  }

  lemma TakeBatchesOk(box: Box, kind: Kind)
    requires BatchesOk(box)
    ensures BatchesOk(Take(box, kind))
  {
    hide OnePerDevice;
  }

  lemma TakeKeeps(box: Box, l: Ledger, kind: Kind)
    requires Right(box, l)
    ensures Right(Take(box, kind), Takes(box, l, kind))
  {
    hide BatchesOk, PendingOk, TakenOk, Thinned, Take, Reason;
    TakeBatchesOk(box, kind);
    TakeThins(box, l, kind);
    SettlePending(box.batches, Take(box, kind).batches, l, kind, None, Taken(|box.firings|));
    TakeTaken(box, l, kind);
    TakeReasons(box, l, kind);
  }

  lemma TakeReasons(box: Box, l: Ledger, kind: Kind)
    requires Numbered(l) && ReasonsOk(l)
    ensures Numbered(Takes(box, l, kind)) && ReasonsOk(Takes(box, l, kind))
  {
    var l1 := Takes(box, l, kind);
    forall i | 0 <= i < |l1.cards|
      ensures Reason(l1, l1.cards[i], l1.fates[i])
    {
      assert Reason(l, l.cards[i], l.fates[i]);
    }
  }

  /** The timer that runs is marked first; a batch of the same kind is gone at once. */
  lemma RunTimerBatchesOk(box: Box, t: nat)
    requires BatchesOk(box)
    ensures BatchesOk(RunTimer(box, t))
  {
    hide OnePerDevice;
  }

  ghost function TimerTakes(box: Box, l: Ledger, t: nat): Ledger {
    if t < |box.timers| && box.timers[t].Armed? then Takes(box, l, box.timers[t].kind) else l
  }

  lemma TakeIgnoresTimers(box: Box, timers: seq<Timer>, kind: Kind)
    ensures Take(box.(timers := timers), kind) == Take(box, kind).(timers := timers)
  {
  }

  /** A timer's function runs, stale or not. */
  lemma RunTimerKeeps(box: Box, l: Ledger, t: nat)
    requires Right(box, l)
    ensures Right(RunTimer(box, t), TimerTakes(box, l, t))
  {
    hide BatchesOk, PendingOk, TakenOk, Numbered, Take, ReasonsOk, Takes;
    RunTimerBatchesOk(box, t);
    if t < |box.timers| && box.timers[t].Armed? {
      TakeKeeps(box, l, box.timers[t].kind);
      TakeIgnoresTimers(box, box.timers[t := Ran], box.timers[t].kind);
    }
  }

  lemma StopAllKeeps(box: Box, l: Ledger, late: set<nat>)
    requires Right(box, l)
    ensures Right(StopAll(box, late), l)
  {
    hide PendingOk, TakenOk, Numbered, ReasonsOk, OnePerDevice;
    var box1 := StopAll(box, late);
    forall k | k in box1.batches
      ensures BatchOk(k, box1.batches[k], box1.timers)
    {
      assert BatchOk(k, box.batches[k], box.timers);
    }
  }
}
