/** The polling engine: two in-memory streak maps and the store, updated step by
    step, against the per-device state machine. */
module Poller {
  import opened Graph
  import opened Debounce

  datatype Row = Row(online: bool, ping: Option<bool>, offlineSince: Option<int>)

  class Engine {
    var rows: map<int, Row>
    var events: map<int, seq<Event>>
    var offlineStreak: map<int, Streak>
    var onlineStreak: map<int, nat>

    constructor (rows: map<int, Row>, events: map<int, seq<Event>>)
      ensures this.rows == rows && this.events == events
      ensures offlineStreak == map[] && onlineStreak == map[]
    {
      this.rows, this.events := rows, events;
      offlineStreak, onlineStreak := map[], map[];
    }

    function Log(id: int): seq<Event>
      reads this
    {
      if id in events then events[id] else []
    }

    /** Everything the engine and the store know about one device. */
    function View(id: int): Device
      requires id in rows
      reads this
    {
      Device(rows[id].online, rows[id].ping, rows[id].offlineSince, Log(id),
             if id in offlineStreak then Some(offlineStreak[id]) else None,
             if id in onlineStreak then Some(onlineStreak[id]) else None)
    }

    /** What is known about every other device. */
    ghost function Others(id: int): map<int, Device>
      reads this
    {
      map x | x in rows && x != id :: View(x)
    }

    function OfflineSince(id: int): (r: Option<int>)
      requires id in rows
      reads this
      ensures r == View(id).offlineSince
    {
      rows[id].offlineSince
    }

    function HasEventSince(id: int, since: int): (r: bool)
      requires id in rows
      reads this
      ensures r == HasOfflineEvent(View(id).log, since)
    {
      HasOfflineEvent(Log(id), since)
    }

    function PeekOfflineStreak(id: int): (r: Streak)
      requires id in rows
      reads this
      ensures r == Peek(View(id).offlineStreak)
    {
      if id in offlineStreak then offlineStreak[id] else Streak(0, false)
    }

    method RecordPoll(id: int, online: bool, ping: bool)
      requires id in rows
      modifies this`rows
      ensures id in rows && View(id) == old(View(id)).(online := online, ping := Some(ping))
      ensures Others(id) == old(Others(id))
    {
      rows := rows[id := rows[id].(online := online, ping := Some(ping))];
    }

    method EnsureOfflineSince(id: int, at: int)
      requires id in rows
      modifies this`rows
      ensures id in rows && View(id) == old(View(id)).(offlineSince := Ensure(old(View(id)).offlineSince, at))
      ensures Others(id) == old(Others(id))
    {
      if rows[id].offlineSince.None? {
        rows := rows[id := rows[id].(offlineSince := Some(at))];
      }
    }

    method RefreshOfflineSince(id: int, at: int)
      requires id in rows
      modifies this`rows
      ensures id in rows && View(id) == Refresh(old(View(id)), at)
      ensures Others(id) == old(Others(id))
    {
      if rows[id].online {
        rows := rows[id := rows[id].(offlineSince := None)];
      } else {
        EnsureOfflineSince(id, at);
      }
    }

    method Emit(id: int, e: Event)
      requires id in rows
      modifies this`events
      ensures View(id) == old(View(id)).(log := old(View(id)).log + [e])
      ensures Others(id) == old(Others(id))
    {
      events := events[id := Log(id) + [e]];
    }

    method EmitDeviceOffline(id: int, p: Poll)
      requires id in rows
      modifies this`rows, this`events
      ensures id in rows && View(id) == LogOffline(old(View(id)), p)
      ensures Others(id) == old(Others(id))
    {
      hide View, Others;
      EnsureOfflineSince(id, p.ensureAt);
      Emit(id, Event(WentOffline, p.eventAt));
    }

    method StoreOfflineStreak(id: int, st: Streak)
      requires id in rows
      modifies this`offlineStreak
      ensures View(id) == old(View(id)).(offlineStreak := Some(st))
      ensures Others(id) == old(Others(id))
    {
      offlineStreak := offlineStreak[id := st];
    }

    method NoteOfflinePoll(id: int, wasOnline: bool) returns (st: Streak)
      requires id in rows
      modifies this`offlineStreak
      ensures st == NoteOffline(old(View(id)).(online := wasOnline))
      ensures View(id) == old(View(id)).(offlineStreak := Some(st))
      ensures Others(id) == old(Others(id))
    {
      hide View, Others;
      if wasOnline {
        st := Streak(1, true);
        StoreOfflineStreak(id, st);
        return;
      }
      st := PeekOfflineStreak(id);
      st := Streak(st.n + 1, st.fromOnline);
      StoreOfflineStreak(id, st);
    }

    method NoteOnlinePoll(id: int) returns (n: nat)
      requires id in rows
      modifies this`onlineStreak
      ensures n == NoteOnline(old(View(id)).onlineStreak)
      ensures View(id) == old(View(id)).(onlineStreak := Some(n))
      ensures Others(id) == old(Others(id))
    {
      n := 1;
      if id in onlineStreak && onlineStreak[id] > 0 {
        n := onlineStreak[id] + 1;
      }
      onlineStreak := onlineStreak[id := n];
    }

    method ResetOnlineStreak(id: int) returns (n: nat)
      requires id in rows
      modifies this`onlineStreak
      ensures n == if old(View(id)).onlineStreak.Some? then old(View(id)).onlineStreak.value else 0
      ensures View(id) == old(View(id)).(onlineStreak := None)
      ensures Others(id) == old(Others(id))
    {
      n := 0;
      if id in onlineStreak {
        n := onlineStreak[id];
        onlineStreak := map x | x in onlineStreak && x != id :: onlineStreak[x];
      }
    }

    method ResetOfflineStreak(id: int)
      requires id in rows
      modifies this`offlineStreak
      ensures View(id) == old(View(id)).(offlineStreak := None)
      ensures Others(id) == old(Others(id))
    {
      offlineStreak := map x | x in offlineStreak && x != id :: offlineStreak[x];
    }

    /** The branch for a device that answered. */
    method EmitOnlineTransition(cfg: Config, id: int, p: Poll, wasOnline: bool, ghost d: Device) returns (hold: bool)
      requires id in rows && View(id) == d.(online := true, ping := Some(p.ping)) && d.online == wasOnline
      modifies this
      ensures id in rows && View(id) == OnlineTransition(cfg, d, p).0.(online := true, ping := Some(p.ping))
      ensures hold == OnlineTransition(cfg, d, p).1
      ensures Others(id) == old(Others(id))
    {
      hide HasOfflineEvent, View, Others, OfflineLongEnough, OfflineConfirm;
      var since := OfflineSince(id);
      var hasOff := since.Some? && HasEventSince(id, since.value - LOOKUP_SKEW);
      var prevStreak := PeekOfflineStreak(id);
      if ShouldCatchUp(cfg, wasOnline, prevStreak, since, p.now, hasOff) {
        EmitDeviceOffline(id, p);
        hasOff := true;
        prevStreak := Streak(OfflineConfirm(cfg), true);
        StoreOfflineStreak(id, prevStreak);
      }
      var recovering := hasOff && since.Some?;
      var wantOnline := recovering || ShouldEmitOnline(cfg, wasOnline, prevStreak, since, p.now, hasOff);
      if wantOnline {
        var n := NoteOnlinePoll(id);
        if n >= ONLINE_CONFIRM_POLLS {
          ResetOfflineStreak(id);
          var m := ResetOnlineStreak(id);
          Emit(id, Event(CameOnline, p.eventAt));
          return false;
        }
        ResetOfflineStreak(id);
        return true;
      }
      ResetOfflineStreak(id);
      var m := ResetOnlineStreak(id);
      return false;
    }

    /** The branch for a device that did not answer. */
    method EmitOfflineTransition(cfg: Config, id: int, p: Poll, wasOnline: bool, prevPing: Option<bool>,
                                 ghost d: Device)
      requires id in rows && View(id) == d.(online := false, ping := Some(p.ping)) && d.online == wasOnline
      requires d.ping == prevPing
      modifies this
      ensures id in rows && View(id) == OfflineTransition(cfg, d, p).(online := false, ping := Some(p.ping))
      ensures Others(id) == old(Others(id))
    {
      hide HasOfflineEvent, View, Others, OfflineLongEnough, OfflineConfirm;
      var since := OfflineSince(id);
      var hasOff := since.Some? && HasEventSince(id, since.value - LOOKUP_SKEW);
      var confirm := OfflineConfirm(cfg);
      var onlineN := ResetOnlineStreak(id);
      if onlineN > 0 && onlineN < ONLINE_CONFIRM_POLLS && hasOff {
        StoreOfflineStreak(id, Streak(confirm, true));
        return;
      }
      var st := NoteOfflinePoll(id, wasOnline);
      if ShouldEmitOfflineNow(cfg, st, PingWentDead(prevPing, p.ping)) {
        EmitDeviceOffline(id, p);
        StoreOfflineStreak(id, Streak(confirm, true));
        return;
      }
      if ShouldCatchUp(cfg, wasOnline, st, since, p.now, hasOff) {
        EmitDeviceOffline(id, p);
        StoreOfflineStreak(id, Streak(confirm, true));
      }
    }

    /** One poll of one device; polls of the same device never overlap. */
    method PollDevice(cfg: Config, id: int, p: Poll)
      requires id in rows
      modifies this
      ensures id in rows && View(id) == PollOne(cfg, old(View(id)), p)
      ensures Others(id) == old(Others(id))
    {
      hide View, Others, OnlineTransition, OfflineTransition;
      ghost var d := View(id);
      var wasOnline, prevPing := IsOnline(id), LastPing(id);
      RecordPoll(id, p.online, p.ping);
      var holdOffline := false;
      if p.online {
        holdOffline := EmitOnlineTransition(cfg, id, p, wasOnline, d);
      } else {
        EmitOfflineTransition(cfg, id, p, wasOnline, prevPing, d);
      }
      if holdOffline {
        EnsureOfflineSince(id, p.refreshAt);
      } else {
        RefreshOfflineSince(id, p.refreshAt);
      }
    }

    /** At start-up every row is refreshed, each at its own time. */
    method RefreshAllOfflineSince(ids: seq<int>, at: int -> int)
      requires forall id :: id in ids <==> id in rows
      modifies this`rows
      ensures forall id :: id in rows <==> id in old(rows)
      ensures forall id :: id in rows ==> View(id) == Refresh(old(View(id)), at(id))
    {
      for i := 0 to |ids|
        invariant forall id :: id in rows <==> id in old(rows)
        invariant forall id :: id in rows ==>
            View(id) == if id in ids[..i] then Refresh(old(View(id)), at(id)) else old(View(id))
      {
        var id := ids[i];
        assert ids[..i + 1] == ids[..i] + [id] && id in ids;
        ghost var before := Others(id);
        label Here:
        RefreshOfflineSince(id, at(id));
        assert forall x :: x in Others(id) <==> x in before;
        forall x | x in rows && x != id
          ensures old@Here(x in rows) && View(x) == old@Here(View(x))
        {
          assert x in Others(id) && Others(id)[x] == before[x];
        }
        forall x | old(x in rows)
          ensures x in rows
        {
          assert x != id ==> x in before && x in Others(id);
        }
      }
      assert ids[..|ids|] == ids;
    }

    function IsOnline(id: int): (r: bool)
      requires id in rows
      reads this
      ensures r == View(id).online
    {
      rows[id].online
    }

    function LastPing(id: int): (r: Option<bool>)
      requires id in rows
      reads this
      ensures r == View(id).ping
    {
      rows[id].ping
    }
  }

  /** A restart of the process: the store stays, both streak maps start empty, and
      every device makes one restart step. */
  method StartUp(last: Engine, ids: seq<int>, at: int -> int) returns (e: Engine)
    requires forall id :: id in ids <==> id in last.rows
    ensures fresh(e) && forall id :: id in last.rows ==> id in e.rows && e.View(id) == Restart(last.View(id), at(id))
  {
    e := new Engine(last.rows, last.events);
    assert forall id :: id in e.rows ==> e.View(id) == last.View(id).(offlineStreak := None, onlineStreak := None);
    e.RefreshAllOfflineSince(ids, at);
  }
}
