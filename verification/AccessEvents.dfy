/** Incidents on access ports, as patches of the table restricted to access ports. */
module AccessEvents {
  import opened Graph
  import opened MacMoves

  datatype Role = Access | Trunk | Ignore | OtherRole

  /** What the switch and the inventory say about ports and addresses. */
  datatype Site = Site(role: int -> Role, unicast: string -> bool, inventory: string -> bool,
                       known: (string, int) -> bool)

  datatype Incident =
    | UnknownMac(mac: string, port: int)
    | MacMoved(mac: string, port: int, oldPort: int)
    | MacRemoved(mac: string, port: int)

  predicate IsAccess(site: Site, port: int) {
    site.role(port) == Access
  }

  predicate SkipUnknown(site: Site, mac: string, port: int) {
    site.inventory(mac) || site.known(mac, port)
  }

  /** The port of a unicast MAC, if it is an access port. */
  ghost function View(site: Site, t: Table, mac: string): Option<int> {
    if mac in t && site.unicast(mac) && site.role(t[mac]) == Access then Some(t[mac]) else None
  }

  /** What an incident tells a reader of the access view. */
  function Effect(e: Incident): Option<int> {
    if e.MacRemoved? then None else Some(e.port)
  }

  function Patch(t: Table, es: seq<Incident>): Table
    decreases |es|
  {
    if |es| == 0 then t
    else
      var last := es[|es| - 1];
      Write(Patch(t, es[..|es| - 1]), last.mac, Effect(last))
  }

  ghost function AccessTable(site: Site, t: Table): Table {
    map m | m in t && site.unicast(m) && site.role(t[m]) == Access :: t[m]
  }

  // ----- which changes are reported

  /** A change of the access view that the rules keep quiet about: an inventory
      address that leaves, one of the inventory or known on its port that arrives, and
      one that arrives from a port of no ordinary role. */
  ghost predicate Quiet(site: Site, prev: Table, cur: Table, mac: string) {
    if View(site, cur, mac).None? then site.inventory(mac)
    else
      || (mac in prev && site.role(prev[mac]) == OtherRole)
      || (!(mac in prev && site.role(prev[mac]) == Access) && (site.inventory(mac) || site.known(mac, cur[mac])))
  }

  ghost predicate Differs(site: Site, prev: Table, cur: Table, mac: string) {
    View(site, prev, mac) != View(site, cur, mac)
  }

  ghost predicate Reported(site: Site, prev: Table, cur: Table, mac: string) {
    Differs(site, prev, cur, mac) && !Quiet(site, prev, cur, mac)
  }

  ghost predicate RightIncident(site: Site, prev: Table, cur: Table, e: Incident) {
    && Effect(e) == View(site, cur, e.mac)
    && match e
       case UnknownMac(mac, port) =>
         View(site, prev, mac).None? && !site.inventory(mac) && !site.known(mac, port)
       case MacMoved(mac, port, oldPort) => View(site, prev, mac) == Some(oldPort) && oldPort != port
       case MacRemoved(mac, port) => View(site, prev, mac) == Some(port) && !site.inventory(mac)
  }

  ghost predicate Mentioned(es: seq<Incident>, mac: string) {
    exists i :: 0 <= i < |es| && es[i].mac == mac
  }

  ghost predicate OncePerAddress(es: seq<Incident>) {
    forall i, j :: 0 <= i < j < |es| ==> es[i].mac != es[j].mac
  }

  /** The incidents of the addresses looked at so far. */
  ghost predicate Partial(site: Site, prev: Table, cur: Table, es: seq<Incident>, rest: set<string>, second: bool) {
    && OncePerAddress(es)
    && (forall i :: 0 <= i < |es| ==> RightIncident(site, prev, cur, es[i]))
    && (forall mac :: Mentioned(es, mac) <==>
          Reported(site, prev, cur, mac) &&
              (if View(site, cur, mac).Some? then second || mac !in rest else second && mac !in rest))
  }

  /** One incident for every change that is not kept quiet, and no other. */
  ghost predicate IsReport(site: Site, prev: Table, cur: Table, es: seq<Incident>) {
    && OncePerAddress(es)
    && (forall i :: 0 <= i < |es| ==> RightIncident(site, prev, cur, es[i]))
    && (forall mac :: Mentioned(es, mac) <==> Reported(site, prev, cur, mac))
  }

  lemma MentionedOneMore(es: seq<Incident>, e: Incident)
    ensures forall mac :: Mentioned(es + [e], mac) <==> Mentioned(es, mac) || mac == e.mac
  {
    var more := es + [e];
    forall mac
      ensures Mentioned(more, mac) <==> Mentioned(es, mac) || mac == e.mac
    {
      if Mentioned(es, mac) {
        var i :| 0 <= i < |es| && es[i].mac == mac;
        assert more[i].mac == mac;
      }
      assert more[|es|] == e;
    }
  }

  lemma MentionedAt(es: seq<Incident>, i: nat)
    requires i < |es|
    ensures Mentioned(es, es[i].mac)
  {
  }

  lemma PartialGrows(site: Site, prev: Table, cur: Table, es: seq<Incident>, rest: set<string>, second: bool,
                     e: Incident)
    requires Partial(site, prev, cur, es, rest, second) && RightIncident(site, prev, cur, e) && e.mac in rest
    requires Reported(site, prev, cur, e.mac) && View(site, cur, e.mac).Some? == !second
    ensures Partial(site, prev, cur, es + [e], rest - {e.mac}, second)
  {
    hide Mentioned, Reported, View, RightIncident;
    MentionedOneMore(es, e);
    var more := es + [e];
    forall i, j | 0 <= i < j < |more|
      ensures more[i].mac != more[j].mac
    {
      if j == |es| {
        MentionedAt(es, i);
      }
    }
  }

  lemma PartialSkips(site: Site, prev: Table, cur: Table, es: seq<Incident>, rest: set<string>, second: bool,
                     mac: string)
    requires Partial(site, prev, cur, es, rest, second) && mac in rest
    requires !(Reported(site, prev, cur, mac) && View(site, cur, mac).Some? == !second)
    ensures Partial(site, prev, cur, es, rest - {mac}, second)
  {
    hide Mentioned, Reported, View, RightIncident;
  }

  /** What the first loop finds for one address. */
  function Arrival(site: Site, prev: Table, mac: string, port: int): (r: Option<Incident>)
    ensures forall cur: Table :: mac in cur && cur[mac] == port ==>
      (r.Some? <==> Reported(site, prev, cur, mac) && View(site, cur, mac).Some?)
    ensures forall cur: Table :: mac in cur && cur[mac] == port && r.Some? ==>
        RightIncident(site, prev, cur, r.value) && r.value.mac == mac
  {
    if !site.unicast(mac) || !IsAccess(site, port) then None
    else if mac !in prev then (if SkipUnknown(site, mac, port) then None else Some(UnknownMac(mac, port)))
    else if prev[mac] == port then None
    else match site.role(prev[mac])
         case Access => Some(MacMoved(mac, port, prev[mac]))
         case Trunk => if SkipUnknown(site, mac, port) then None else Some(UnknownMac(mac, port))
         case Ignore => if SkipUnknown(site, mac, port) then None else Some(UnknownMac(mac, port))
         case OtherRole => None
  }

  method ComputeArrivals(site: Site, prev: Table, cur: Table) returns (es: seq<Incident>)
    ensures Partial(site, prev, cur, es, {}, false)
  {
    es := [];
    var rest := set m | m in cur;
    assert Partial(site, prev, cur, [], rest, false);
    hide Partial, Arrival, Reported, View, RightIncident;
    while rest != {}
      invariant forall m :: m in rest ==> m in cur
      invariant Partial(site, prev, cur, es, rest, false)
      decreases |rest|
    {
      ghost var some := Member(rest);
      var mac :| mac in rest;
      var e := Arrival(site, prev, mac, cur[mac]);
      if e.Some? {
        PartialGrows(site, prev, cur, es, rest, false, e.value);
        es := es + [e.value];
      } else {
        PartialSkips(site, prev, cur, es, rest, false, mac);
      }
      rest := rest - {mac};
    }
  }

  lemma OtherHalf(site: Site, prev: Table, cur: Table, es: seq<Incident>, rest: set<string>)
    requires Partial(site, prev, cur, es, {}, false)
    requires forall m :: m in prev ==> m in rest
    ensures Partial(site, prev, cur, es, rest, true)
  {
    hide Mentioned, OncePerAddress, RightIncident;
  }

  lemma Complete(site: Site, prev: Table, cur: Table, es: seq<Incident>)
    requires Partial(site, prev, cur, es, {}, true)
    ensures IsReport(site, prev, cur, es)
  {
    hide Mentioned, OncePerAddress, RightIncident, Reported, View;
  }

  lemma Departure(site: Site, prev: Table, cur: Table, mac: string)
    requires mac in prev
    ensures var quiet := !site.unicast(mac) || !IsAccess(site, prev[mac]) || site.inventory(mac) ||
        (mac in cur && IsAccess(site, cur[mac]));
            (Reported(site, prev, cur, mac) && View(site, cur, mac).None?) == !quiet
            && (!quiet ==> RightIncident(site, prev, cur, MacRemoved(mac, prev[mac])))
  {
  }

  method ComputeFdbAccessEvents(site: Site, prev: Table, cur: Table) returns (es: seq<Incident>)
    ensures IsReport(site, prev, cur, es)
  {
    hide Partial, IsReport, Reported, View, RightIncident;
    es := ComputeArrivals(site, prev, cur);
    var rest := set m | m in prev;
    OtherHalf(site, prev, cur, es, rest);
    while rest != {}
      invariant forall m :: m in rest ==> m in prev
      invariant Partial(site, prev, cur, es, rest, true)
      decreases |rest|
    {
      ghost var some := Member(rest);
      var mac :| mac in rest;
      var oldPort := prev[mac];
      Departure(site, prev, cur, mac);
      if !site.unicast(mac) || !IsAccess(site, oldPort) || site.inventory(mac) ||
          (mac in cur && IsAccess(site, cur[mac])) {
        PartialSkips(site, prev, cur, es, rest, true, mac);
      } else {
        PartialGrows(site, prev, cur, es, rest, true, MacRemoved(mac, oldPort));
        es := es + [MacRemoved(mac, oldPort)];
      }
      rest := rest - {mac};
    }
    Complete(site, prev, cur, es);
  }

  /** Addresses of the inventory, or known on their port, cause no UnknownMac. */
  lemma FamiliarIsNotUnknown(site: Site, prev: Table, cur: Table, es: seq<Incident>, i: nat)
    requires IsReport(site, prev, cur, es) && i < |es| && es[i].UnknownMac?
    ensures !site.inventory(es[i].mac) && !site.known(es[i].mac, es[i].port) && site.role(es[i].port) == Access
  {
    assert RightIncident(site, prev, cur, es[i]);
  }

  // ----- the incidents as a patch

  lemma {:induction false} PatchLooks(t: Table, es: seq<Incident>, x: string)
    requires OncePerAddress(es)
    ensures !Mentioned(es, x) ==> Look(Patch(t, es), x) == Look(t, x)
    ensures forall i :: 0 <= i < |es| && es[i].mac == x ==> Look(Patch(t, es), x) == Effect(es[i])
    decreases |es|
  {
    hide Write, Look, Effect;
    if |es| > 0 {
      var init, last := es[..|es| - 1], es[|es| - 1];
      PatchLooks(t, init, x);
      WriteLooks(Patch(t, init), last.mac, Effect(last), x);
      if Mentioned(init, x) {
        var i :| 0 <= i < |init| && init[i].mac == x;
        assert es[i].mac == x;
      }
      if last.mac == x {
        assert es[|es| - 1].mac == x;
      }
    }
  }

  lemma TableIsView(site: Site, t: Table, x: string)
    ensures Look(AccessTable(site, t), x) == View(site, t, x)
  {
  }

  /** Per address: the patched view is the current one unless the change was kept quiet. */
  lemma PatchedView(site: Site, prev: Table, cur: Table, es: seq<Incident>, x: string)
    requires IsReport(site, prev, cur, es)
    ensures Look(Patch(AccessTable(site, prev), es), x) == View(site, cur, x) <==>
        !(Differs(site, prev, cur, x) && Quiet(site, prev, cur, x))
  {
    hide Patch, Quiet, View, Look, AccessTable;
    TableIsView(site, prev, x);
    PatchLooks(AccessTable(site, prev), es, x);
    if Mentioned(es, x) {
      var i :| 0 <= i < |es| && es[i].mac == x;
      assert RightIncident(site, prev, cur, es[i]);
    }
  }

  ghost predicate NothingQuiet(site: Site, prev: Table, cur: Table) {
    forall x :: Differs(site, prev, cur, x) ==> !Quiet(site, prev, cur, x)
  }

  /** Patching the old access table gives the new one, exactly when no change was kept quiet. */
  lemma IncidentsPatchAccessTable(site: Site, prev: Table, cur: Table, es: seq<Incident>)
    requires IsReport(site, prev, cur, es)
    ensures Patch(AccessTable(site, prev), es) == AccessTable(site, cur) <==> NothingQuiet(site, prev, cur)
  {
    hide Patch, AccessTable, Quiet, Differs, IsReport, View, Look;
    var p := Patch(AccessTable(site, prev), es);
    SameLooks(p, AccessTable(site, cur));
    forall x
      ensures Look(p, x) == Look(AccessTable(site, cur), x) <==>
              (Differs(site, prev, cur, x) ==> !Quiet(site, prev, cur, x))
    {
      TableIsView(site, cur, x);
      PatchedView(site, prev, cur, es, x);
    }
  }

  /** An address that is neither inventory nor known on its new port, on ports with
      an ordinary role: its part of the access table is always patched. */
  lemma PlainAddressesArePatched(site: Site, prev: Table, cur: Table, es: seq<Incident>, x: string)
    requires IsReport(site, prev, cur, es) && !site.inventory(x)
    requires x in cur ==> !site.known(x, cur[x])
    requires x in prev ==> site.role(prev[x]) != OtherRole
    ensures Look(Patch(AccessTable(site, prev), es), x) == View(site, cur, x)
  {
    hide Patch, AccessTable, IsReport;
    PatchedView(site, prev, cur, es, x);
  }

  /** Every port an access port, every address unicast, "aa" a chassis address of
      the inventory and "bb" bound to its port. */
  const HOME_SITE := Site(_ => Access, _ => true, mac => mac == "aa", (mac, _) => mac == "bb")

  /** An inventory address that leaves its access port causes no incident, so the
      patched table still has it. */
  lemma InventoryDepartureIsMissed(es: seq<Incident>)
    ensures var prev, cur := map["aa" := 1], map[];
            && IsReport(HOME_SITE, prev, cur, [])
            && (IsReport(HOME_SITE, prev, cur, es) ==>
                  Patch(AccessTable(HOME_SITE, prev), es) != AccessTable(HOME_SITE, cur))
  {
    var prev, cur: Table := map["aa" := 1], map[];
    assert Differs(HOME_SITE, prev, cur, "aa") && Quiet(HOME_SITE, prev, cur, "aa");
    if IsReport(HOME_SITE, prev, cur, es) {
      IncidentsPatchAccessTable(HOME_SITE, prev, cur, es);
    }
  }

  /** Nor does a bound address that appears on its port, so the patched table
      does not have it. */
  lemma KnownArrivalIsMissed(es: seq<Incident>)
    ensures var prev, cur := map["cc" := 2], map["cc" := 2, "bb" := 1];
            && IsReport(HOME_SITE, prev, cur, [])
            && (IsReport(HOME_SITE, prev, cur, es) ==>
                  Patch(AccessTable(HOME_SITE, prev), es) != AccessTable(HOME_SITE, cur))
  {
    var prev, cur: Table := map["cc" := 2], map["cc" := 2, "bb" := 1];
    assert Differs(HOME_SITE, prev, cur, "bb") && Quiet(HOME_SITE, prev, cur, "bb");
    if IsReport(HOME_SITE, prev, cur, es) {
      IncidentsPatchAccessTable(HOME_SITE, prev, cur, es);
    }
  }
}
