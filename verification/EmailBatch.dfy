/** Pending e-mail cards grouped by kind: the map of batches, its timers, and the
    fate of every card ever accepted. */
module EmailBatch {
  import opened Graph

  const BATCH_WINDOW_SEC := 25

  datatype Kind = DeviceOffline | DeviceOnline

  /** `id` is the order in which cards were accepted. */
  datatype Card = Card(id: nat, kind: Kind, device: int, durationSec: int)

  datatype Batch = Batch(items: seq<Card>, timer: Option<nat>, settings: int)

  /** A timer stays armed until its function has run or a stop has won. */
  datatype Timer = Armed(kind: Kind) | Stopped | Ran

  /** A batch taken out of the map to be sent. */
  datatype Firing = Firing(kind: Kind, items: seq<Card>, settings: int)

  datatype Box = Box(batches: map<Kind, Batch>, timers: seq<Timer>, firings: seq<Firing>)

  predicate ShouldCancelPendingOffline(durationSec: int) {
    durationSec <= 0 || durationSec <= BATCH_WINDOW_SEC
  }

  // ----- the batches

  function Without(items: seq<Card>, device: int): seq<Card> {
    if |items| == 0 then []
    else
      var last := items[|items| - 1];
      Without(items[..|items| - 1], device) + if last.device == device then [] else [last]
  }

  predicate HasDevice(items: seq<Card>, device: int) {
    exists j :: 0 <= j < |items| && items[j].device == device
  }

  /** The card takes the place of the device's earlier one, or comes last. */
  function Upsert(items: seq<Card>, card: Card): seq<Card> {
    if |items| == 0 then [card]
    else if items[0].device == card.device then [card] + items[1..]
    else [items[0]] + Upsert(items[1..], card)
  }

  function Remove(batches: map<Kind, Batch>, kind: Kind): map<Kind, Batch> {
    map k | k in batches && k != kind :: batches[k]
  }

  /** Stopping a timer comes too late when its function has already started. */
  function StopTimer(timers: seq<Timer>, timer: Option<nat>, wins: bool): seq<Timer> {
    if timer.Some? && timer.value < |timers| && timers[timer.value].Armed? && wins
    then timers[timer.value := Stopped]
    else timers
  }

  function CancelOffline(box: Box, device: int, stopWins: bool): Box {
    if DeviceOffline !in box.batches then box
    else
      var b := box.batches[DeviceOffline];
      var items := Without(b.items, device);
      if |items| == 0
      then box.(batches := Remove(box.batches, DeviceOffline), timers := StopTimer(box.timers, b.timer, stopWins))
      else box.(batches := box.batches[DeviceOffline := b.(items := items)])
  }

  function BatchFor(box: Box, kind: Kind, settings: int): Batch {
    if kind in box.batches then box.batches[kind] else Batch([], None, settings)
  }

  function Put(box: Box, card: Card, settings: int): Box {
    var b := BatchFor(box, card.kind, settings);
    var timer := if b.timer.Some? then b.timer else Some(|box.timers|);
    var timers := if b.timer.Some? then box.timers else box.timers + [Armed(card.kind)];
    var b1 := Batch(Upsert(b.items, card), timer, if HasDevice(b.items, card.device) then b.settings else settings);
    box.(batches := box.batches[card.kind := b1], timers := timers)
  }

  predicate Cancels(card: Card) {
    card.kind == DeviceOnline && ShouldCancelPendingOffline(card.durationSec)
  }

  function Enqueue(box: Box, card: Card, settings: int, stopWins: bool): Box {
    Put(if Cancels(card) then CancelOffline(box, card.device, stopWins) else box, card, settings)
  }

  /** Whatever batch of the kind is in the map is taken, if any. */
  function Take(box: Box, kind: Kind): Box {
    if kind !in box.batches || |box.batches[kind].items| == 0 then box
    else
      var b := box.batches[kind];
      box.(batches := Remove(box.batches, kind), firings := box.firings + [Firing(kind, b.items, b.settings)])
  }

  /** A timer's function runs; it may belong to a batch long gone. */
  function RunTimer(box: Box, t: nat): Box {
    if t < |box.timers| && box.timers[t].Armed?
    then Take(box.(timers := box.timers[t := Ran]), box.timers[t].kind)
    else box
  }

  predicate OfSomeBatch(batches: map<Kind, Batch>, t: nat) {
    || (DeviceOffline in batches && batches[DeviceOffline].timer == Some(t))
    || (DeviceOnline in batches && batches[DeviceOnline].timer == Some(t))
  }

  /** The flush stops the timers of the batches in the map, except those it is too late for. */
  function StopAll(box: Box, late: set<nat>): Box {
    box.(timers := seq(|box.timers|, i requires 0 <= i < |box.timers| =>
      if box.timers[i].Armed? && OfSomeBatch(box.batches, i) && i !in late then Stopped else box.timers[i]))
  }

  // ----- the fates

  datatype Fate = Pending | Taken(firing: nat) | Overwritten(rival: nat) | Cancelled(rival: nat)

  datatype Ledger = Ledger(cards: seq<Card>, fates: seq<Fate>)

  ghost predicate Matches(c: Card, kind: Kind, device: Option<int>) {
    c.kind == kind && (device.Some? ==> c.device == device.value)
  }

  /** Every pending card of the kind (and of the device, if one is given) meets its fate. */
  ghost function Settle(l: Ledger, kind: Kind, device: Option<int>, fate: Fate): Ledger {
    l.(fates := seq(|l.fates|, i requires 0 <= i < |l.fates| =>
      if i < |l.cards| && l.fates[i].Pending? && Matches(l.cards[i], kind, device) then fate else l.fates[i]))
  }

  /** An ONLINE card whose outage lasted no longer than the 25 s a batch waits. */
  ghost predicate EndsShortOutage(card: Card) {
    card.kind == DeviceOnline && card.durationSec <= 25
  }

  ghost function AfterCancel(l: Ledger, card: Card): Ledger {
    if EndsShortOutage(card) then Settle(l, DeviceOffline, Some(card.device), Cancelled(card.id)) else l
  }

  ghost function Accept(l: Ledger, card: Card): Ledger {
    var l1 := Settle(AfterCancel(l, card), card.kind, Some(card.device), Overwritten(card.id));
    Ledger(l1.cards + [card], l1.fates + [Pending])
  }

  // ----- what every interleaving keeps

  ghost predicate Numbered(l: Ledger) {
    |l.cards| == |l.fates| && forall i :: 0 <= i < |l.cards| ==> l.cards[i].id == i
  }

  ghost predicate OnePerDevice(items: seq<Card>) {
    forall a, b :: 0 <= a < b < |items| ==> items[a].device != items[b].device
  }

  /** A batch in the map: not empty, one card per device, and its timer has not run. */
  ghost predicate BatchOk(kind: Kind, b: Batch, timers: seq<Timer>) {
    && |b.items| > 0 && OnePerDevice(b.items)
    && b.timer.Some? && b.timer.value < |timers|
    && (timers[b.timer.value] == Armed(kind) || timers[b.timer.value] == Stopped)
  }

  ghost predicate BatchesOk(box: Box) {
    forall k :: k in box.batches ==> BatchOk(k, box.batches[k], box.timers)
  }

  ghost predicate Known(l: Ledger, c: Card, kind: Kind, fate: Fate) {
    c.kind == kind && c.id < |l.cards| && c.id < |l.fates| && l.cards[c.id] == c && l.fates[c.id] == fate
  }

  ghost predicate InBatch(batches: map<Kind, Batch>, k: Kind, c: Card) {
    k in batches && c in batches[k].items
  }

  /** The batches hold exactly the pending cards. */
  ghost predicate PendingOk(batches: map<Kind, Batch>, l: Ledger) {
    && (forall k, c :: InBatch(batches, k, c) ==> Known(l, c, k, Pending))
    && (forall i :: 0 <= i < |l.cards| && i < |l.fates| && l.fates[i].Pending? ==>
          InBatch(batches, l.cards[i].kind, l.cards[i]))
  }

  ghost predicate InFiring(firings: seq<Firing>, f: nat, c: Card) {
    f < |firings| && c in firings[f].items
  }

  /** The fired batches hold exactly the taken cards, each in its own firing. */
  ghost predicate TakenOk(firings: seq<Firing>, l: Ledger) {
    && (forall f :: 0 <= f < |firings| ==> OnePerDevice(firings[f].items))
    && (forall f: nat, c :: InFiring(firings, f, c) ==> Known(l, c, firings[f].kind, Taken(f)))
    && (forall i :: 0 <= i < |l.cards| && i < |l.fates| && l.fates[i].Taken? ==>
          InFiring(firings, l.fates[i].firing, l.cards[i]))
  }

  ghost predicate Reason(l: Ledger, c: Card, fate: Fate) {
    match fate
    case Overwritten(n) => c.id < n < |l.cards| && l.cards[n].kind == c.kind && l.cards[n].device == c.device
    case Cancelled(n) =>
      c.id < n < |l.cards| && c.kind == DeviceOffline && EndsShortOutage(l.cards[n]) && l.cards[n].device == c.device
    case _ => true
  }

  ghost predicate ReasonsOk(l: Ledger) {
    forall i :: 0 <= i < |l.cards| && i < |l.fates| ==> Reason(l, l.cards[i], l.fates[i])
  }

  ghost predicate Right(box: Box, l: Ledger) {
    Numbered(l) && BatchesOk(box) && PendingOk(box.batches, l) && TakenOk(box.firings, l) && ReasonsOk(l)
  }

  // ----- lists of cards

  lemma {:induction false} WithoutHas(items: seq<Card>, device: int)
    ensures forall c :: c in Without(items, device) <==> c in items && c.device != device
  {
    if |items| > 0 {
      var last := items[|items| - 1];
      var init := items[..|items| - 1];
      WithoutHas(init, device);
      assert items == init + [last];
    }
  }

  lemma {:induction false} WithoutOnePerDevice(items: seq<Card>, device: int)
    requires OnePerDevice(items)
    ensures OnePerDevice(Without(items, device))
  {
    if |items| > 0 {
      var last := items[|items| - 1];
      var init := items[..|items| - 1];
      WithoutOnePerDevice(init, device);
      WithoutHas(init, device);
      var w := Without(init, device);
      forall a | 0 <= a < |w| ensures w[a].device != last.device {
        assert w[a] in init;
      }
    }
  }

  lemma {:induction false} UpsertHas(items: seq<Card>, card: Card)
    requires OnePerDevice(items)
    ensures forall c :: c in Upsert(items, card) <==> c == card || (c in items && c.device != card.device)
    ensures |Upsert(items, card)| > 0
  {
    if |items| > 0 {
      var head := items[0];
      var tail := items[1..];
      assert items == [head] + tail;
      forall c | c in tail ensures c.device != head.device {
        var j :| 0 <= j < |tail| && tail[j] == c;
        assert tail[j] == items[j + 1];
      }
      if head.device != card.device {
        UpsertHas(tail, card);
      }
    }
  }

  lemma {:induction false} UpsertOnePerDevice(items: seq<Card>, card: Card)
    requires OnePerDevice(items)
    ensures OnePerDevice(Upsert(items, card))
  {
    if |items| > 0 {
      var head := items[0];
      var tail := items[1..];
      assert forall j :: 0 <= j < |tail| ==> tail[j] == items[j + 1];
      if head.device == card.device {
        OneMore(card, tail);
      } else {
        UpsertOnePerDevice(tail, card);
        UpsertHas(tail, card);
        var u := Upsert(tail, card);
        forall b | 0 <= b < |u|
          ensures u[b].device != head.device
        {
          assert u[b] in u;
        }
        OneMore(head, u);
      }
    }
  }

  lemma OneMore(head: Card, tail: seq<Card>)
    requires OnePerDevice(tail) && forall j :: 0 <= j < |tail| ==> tail[j].device != head.device
    ensures OnePerDevice([head] + tail)
  {
  }
}
