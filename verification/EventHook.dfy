/** The map of pending batches as the hook keeps it, under one mutex. */
module EventHook {
  import opened Graph
  import opened EmailBatch

  class EventHook {
    var batches: map<Kind, Batch>
    var timers: seq<Timer>
    var firings: seq<Firing>

    constructor ()
      ensures Contents() == Box(map[], [], [])
    {
      batches, timers, firings := map[], [], [];
    }

    function Contents(): Box
      reads this
    {
      Box(batches, timers, firings)
    }

    /** The cards of other devices are kept, in order. */
    method DropDevice(items: seq<Card>, device: int) returns (filtered: seq<Card>)
      ensures filtered == Without(items, device)
    {
      filtered := [];
      var i := 0;
      while i < |items|
        invariant 0 <= i <= |items|
        invariant filtered == Without(items[..i], device)
      {
        assert items[..i + 1][..i] == items[..i];
        if items[i].device != device {
          filtered := filtered + [items[i]];
        }
        i := i + 1;
      }
      assert items[..i] == items;
    }

    /** A short outage is over: its unsent OFFLINE card is withdrawn. */
    method CancelPendingOffline(device: int, stopWins: bool)
      modifies this`batches, this`timers
      ensures Contents() == CancelOffline(old(Contents()), device, stopWins)
    {
      hide Without;
      if DeviceOffline in batches {
        var ob := batches[DeviceOffline];
        var filtered := DropDevice(ob.items, device);
        if |filtered| == 0 {
          timers := StopTimer(timers, ob.timer, stopWins);
          batches := Remove(batches, DeviceOffline);
        } else {
          batches := batches[DeviceOffline := ob.(items := filtered)];
        }
      }
    }

    /** Replaces the device's card where it stands, or reports that there is none. */
    method Replace(items: seq<Card>, card: Card) returns (found: bool, r: seq<Card>)
      ensures found == HasDevice(items, card.device)
      ensures r == if found then Upsert(items, card) else items
    {
      var i := 0;
      while i < |items|
        invariant 0 <= i <= |items|
        invariant forall j :: 0 <= j < i ==> items[j].device != card.device
      {
        if items[i].device == card.device {
          UpsertAt(items, i, card);
          return true, items[i := card];
        }
        i := i + 1;
      }
      return false, items;
    }

    method ArmBatchTimer(kind: Kind, b: Batch) returns (armed: Batch)
      modifies this`timers
      ensures armed == b.(timer := if b.timer.Some? then b.timer else Some(|old(timers)|))
      ensures timers == if b.timer.Some? then old(timers) else old(timers) + [Armed(kind)]
    {
      armed := b;
      if b.timer.None? {
        armed := b.(timer := Some(|timers|));
        timers := timers + [Armed(kind)];
      }
    }

    method EnqueueEmailBatch(card: Card, settings: int, stopWins: bool)
      modifies this`batches, this`timers
      ensures Contents() == Enqueue(old(Contents()), card, settings, stopWins)
    {
      hide Upsert, HasDevice, CancelOffline, ShouldCancelPendingOffline;
      ghost var box := Contents();
      if card.kind !in batches {
        batches := batches[card.kind := Batch([], None, settings)];
      }
      var b := batches[card.kind];
      if card.kind == DeviceOnline && ShouldCancelPendingOffline(card.durationSec) {
        CancelPendingOffline(card.device, stopWins);
        CancelThenCreate(box, b, card.device, stopWins);
      }
      ghost var box1 := if Cancels(card) then CancelOffline(box, card.device, stopWins) else box;
      assert batches == box1.batches[card.kind := b] && b == BatchFor(box1, card.kind, settings) &&
             timers == box1.timers;
      var found, items := Replace(b.items, card);
      if found {
        b := b.(items := items);
      } else {
        UpsertNew(b.items, card);
        b := b.(items := items + [card], settings := settings);
      }
      b := ArmBatchTimer(card.kind, b);
      batches := batches[card.kind := b];
      assert batches == Put(box1, card, settings).batches;
    }

    /** Takes the batch of the kind, whichever it is, out of the map. */
    method TakeBatch(kind: Kind) returns (taken: bool)
      modifies this`batches, this`firings
      ensures Contents() == Take(old(Contents()), kind)
      ensures taken == (|firings| > |old(firings)|)
    {
      if kind !in batches || |batches[kind].items| == 0 {
        return false;
      }
      firings := firings + [Firing(kind, batches[kind].items, batches[kind].settings)];
      batches := Remove(batches, kind);
      return true;
    }

    /** The first half of the flush: stops the timer of every batch, except where it
        comes too late, and lists their kinds in whatever order the map yields them. */
    method StopTimers(late: set<nat>) returns (kinds: seq<Kind>)
      modifies this`timers
      ensures Contents() == StopAll(old(Contents()), late)
      ensures forall k :: k in kinds <==> k in batches
    {
      kinds := [];
      var rest := set k | k in batches;
      while rest != {}
        invariant forall k :: k in batches <==> k in kinds || k in rest
        invariant |timers| == |old(timers)|
        invariant forall i :: 0 <= i < |timers| ==>
            timers[i] == Halted(old(timers)[i], Timed(batches, kinds, i) && i !in late)
        decreases |rest|
      {
        ghost var some := Member(rest);
        var k :| k in rest;
        var timer := batches[k].timer;
        if timer.Some? {
          timers := StopTimer(timers, timer, timer.value !in late);
        }
        kinds := kinds + [k];
        rest := rest - {k};
      }
      forall i: nat
        ensures Timed(batches, kinds, i) <==> OfSomeBatch(batches, i)
      {
        AllTimed(batches, kinds, i);
      }
      assert timers == StopAll(old(Contents()), late).timers;
    }

    /** The flush: stop the timers, then take batch after batch. */
    method FlushEmailBatches(late: set<nat>) returns (kinds: seq<Kind>)
      modifies this
      ensures forall k :: k in kinds <==> k in old(batches)
      ensures Contents() == TakeAll(StopAll(old(Contents()), late), kinds)
    {
      kinds := StopTimers(late);
      ghost var stopped := Contents();
      for i := 0 to |kinds|
        invariant Contents() == TakeAll(stopped, kinds[..i])
      {
        assert kinds[..i + 1][..i] == kinds[..i];
        var taken := TakeBatch(kinds[i]);
      }
      assert kinds[..|kinds|] == kinds;
    }
  }

  /** The timer belongs to a batch of one of these kinds. */
  predicate Timed(batches: map<Kind, Batch>, kinds: seq<Kind>, t: nat) {
    exists k :: k in kinds && k in batches && batches[k].timer == Some(t)
  }

  function Halted(timer: Timer, stop: bool): Timer {
    if timer.Armed? && stop then Stopped else timer
  }

  lemma AllTimed(batches: map<Kind, Batch>, kinds: seq<Kind>, t: nat)
    requires forall k :: k in batches <==> k in kinds
    ensures Timed(batches, kinds, t) <==> OfSomeBatch(batches, t)
  {
    if k :| k in kinds && k in batches && batches[k].timer == Some(t) {
      match k
      case DeviceOffline =>
      case DeviceOnline =>
    }
    if DeviceOffline in batches && batches[DeviceOffline].timer == Some(t) {
      assert DeviceOffline in kinds;
    }
    if DeviceOnline in batches && batches[DeviceOnline].timer == Some(t) {
      assert DeviceOnline in kinds;
    }
  }

  function TakeAll(box: Box, kinds: seq<Kind>): Box
    decreases |kinds|
  {
    if |kinds| == 0 then box else Take(TakeAll(box, kinds[..|kinds| - 1]), kinds[|kinds| - 1])
  }

  /** Undisturbed, the flush leaves no batch behind: each becomes one firing. */
  lemma {:induction false} TakeAllEmpties(box: Box, kinds: seq<Kind>)
    requires forall k :: k in box.batches ==> |box.batches[k].items| > 0
    ensures forall k :: k in TakeAll(box, kinds).batches <==> k in box.batches && k !in kinds
    ensures forall k :: k in TakeAll(box, kinds).batches ==> TakeAll(box, kinds).batches[k] == box.batches[k]
    ensures forall k :: k in box.batches && k in kinds ==>
              Firing(k, box.batches[k].items, box.batches[k].settings) in TakeAll(box, kinds).firings
    decreases |kinds|
  {
    if |kinds| > 0 {
      var n := |kinds| - 1;
      TakeAllEmpties(box, kinds[..n]);
      assert kinds == kinds[..n] + [kinds[n]];
    }
  }

  /** Creating the ONLINE batch first makes no difference to the OFFLINE one. */
  lemma CancelThenCreate(box: Box, b: Batch, device: int, stopWins: bool)
    ensures var box1 := box.(batches := box.batches[DeviceOnline := b]);
            && CancelOffline(box1, device, stopWins).batches ==
                CancelOffline(box, device, stopWins).batches[DeviceOnline := b]
            && CancelOffline(box1, device, stopWins).timers == CancelOffline(box, device, stopWins).timers
            && CancelOffline(box1, device, stopWins).firings == box.firings ==
                CancelOffline(box, device, stopWins).firings
    ensures DeviceOnline in CancelOffline(box, device, stopWins).batches <==> DeviceOnline in box.batches
    ensures DeviceOnline in box.batches ==>
        CancelOffline(box, device, stopWins).batches[DeviceOnline] == box.batches[DeviceOnline]
  {
    hide Without;
  }

  lemma {:induction false} UpsertAt(items: seq<Card>, i: nat, card: Card)
    requires i < |items| && items[i].device == card.device
    requires forall j :: 0 <= j < i ==> items[j].device != card.device
    ensures Upsert(items, card) == items[i := card]
    decreases i
  {
    if i > 0 {
      UpsertAt(items[1..], i - 1, card);
      assert items[i := card] == [items[0]] + items[1..][i - 1 := card];
    } else {
      assert items[0 := card] == [card] + items[1..];
    }
  }

  lemma {:induction false} UpsertNew(items: seq<Card>, card: Card)
    requires !HasDevice(items, card.device)
    ensures Upsert(items, card) == items + [card]
    decreases |items|
  {
    if |items| > 0 {
      var tail := items[1..];
      assert forall j :: 0 <= j < |tail| ==> tail[j] == items[j + 1];
      UpsertNew(tail, card);
      assert items + [card] == [items[0]] + (tail + [card]);
    }
  }
}
