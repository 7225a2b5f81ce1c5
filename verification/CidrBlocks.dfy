/** Walking through a CIDR block: exactly its hosts, and always to an end. */
module CidrBlocks {
  import opened Addresses
  import opened ScanTargets

  /** The address `k` steps after the first one. */
  ghost function Nth(first: Address, k: nat): (r: Address)
    ensures |r| == |first|
  {
    if k == 0 then first else Inc(Nth(first, k - 1))
  }

  /** Network and broadcast address are left out from two host bits on. */
  ghost function HostCount(hostBits: nat): int {
    if hostBits >= 2 then Exp2(hostBits) - 2 else Exp2(hostBits)
  }

  ghost function FirstHost(hostBits: nat): nat {
    if hostBits >= 2 then 1 else 0
  }

  lemma HostCountPositive(hostBits: nat)
    ensures HostCount(hostBits) > 0
  {
    if hostBits >= 2 {
      Exp2Adds(2, hostBits - 2);
      assert Exp2(2) == 4;
    }
  }

  ghost function CidrHosts(first: Address, hostBits: nat): (ts: seq<Target>)
    ensures |ts| == HostCount(hostBits)
  {
    HostCountPositive(hostBits);
    seq(HostCount(hostBits), i requires 0 <= i => Host(Nth(first, FirstHost(hostBits) + i)))
  }

  // ----- arithmetic of blocks

  lemma SameQuotient(s: nat, q: nat, v: nat)
    requires s > 0 && s * q <= v < s * q + s
    ensures v / s == q
  {
    var p := v / s;
    DivMod(v, s);
    if p < q { Ordered(s, p, q); }
    if q < p { Ordered(s, q, p); }
  }

  lemma DivMod(v: nat, s: nat)
    requires s > 0
    ensures v == s * (v / s) + v % s && 0 <= v % s < s
  {
  }

  lemma Ordered(s: nat, a: nat, b: nat)
    requires a < b
    ensures s * a + s <= s * b
  {
    var gap: nat := b - a - 1;
    assert s * b == s * a + s + s * gap;
    assert s * gap >= 0;
  }

  lemma {:induction false} NthValue(first: Address, k: nat)
    requires Value(first) + k < Space(|first|)
    ensures Value(Nth(first, k)) == Value(first) + k
  {
    hide Space, Inc, Value;
    if k > 0 {
      NthValue(first, k - 1);
      IncAddsOne(Nth(first, k - 1));
    }
  }

  /** The block ends inside the address space. */
  lemma BlockFits(c: Cidr)
    requires IsNetwork(c) && c.Network?
    ensures Value(c.first) + Exp2(c.hostBits) <= Space(|c.first|)
    ensures Exp2(c.hostBits) == Space(|c.first|) <==> c.hostBits == 8 * |c.first|
    ensures Exp2(c.hostBits) == Space(|c.first|) ==> Value(c.first) == 0
  {
    hide Value, Exp2;
    var s, q := Exp2(c.hostBits), Value(c.first) / Exp2(c.hostBits);
    var rest := 8 * |c.first| - c.hostBits;
    Exp2Adds(c.hostBits, rest);
    ValueInSpace(c.first);
    Quotient(Value(c.first), s);
    FitsAligned(s, q, Exp2(rest));
    if rest > 0 { Exp2AtLeastTwo(rest); } else { ExpZero(); }
    StrictProduct(s, Exp2(rest));
  }

  lemma ExpZero()
    ensures Exp2(0) == 1
  {
  }

  lemma Exp2AtLeastTwo(n: nat)
    requires n > 0
    ensures Exp2(n) >= 2
  {
  }

  lemma Quotient(v: nat, s: nat)
    requires s > 0 && v % s == 0
    ensures v == s * (v / s)
  {
  }

  lemma FitsAligned(s: nat, q: nat, r: nat)
    requires s > 0 && s * q < s * r
    ensures s * q + s <= s * r && q + 1 <= r
    ensures r == 1 ==> s * q == 0
  {
    if r < q { Ordered(s, r, q); }
    if q < r { Ordered(s, q, r); }
  }

  lemma StrictProduct(s: nat, r: nat)
    requires s > 0 && r > 0
    ensures s * r == s <==> r == 1
  {
    if r > 1 { Ordered(s, 1, r); }
  }

  lemma QuotientOf(first: nat, s: nat, v: nat)
    requires s > 0 && first % s == 0
    ensures first <= v < first + s ==> v / s == first / s
    ensures v == first + s ==> v / s != first / s
    ensures v == 0 && first > 0 ==> v / s != first / s
  {
    hide Exp2;
    Quotient(first, s);
    var q := first / s;
    if first <= v < first + s { SameQuotient(s, q, v); }
    if v == first + s {
      assert s * (q + 1) == v;
      SameQuotient(s, q + 1, v);
    }
    if v == 0 && first > 0 {
      SameQuotient(s, 0, v);
      assert q != 0;
    }
  }

  /** Stepping through the block leaves it exactly at its end, even where the last
      step wraps around; only the block of all addresses is never left. */
  lemma LeavesAtEnd(c: Cidr, k: nat)
    requires IsNetwork(c) && c.Network? && k <= Exp2(c.hostBits)
    ensures Contains(c.first, c.hostBits, Nth(c.first, k)) <==> k < Exp2(c.hostBits) || c.hostBits == 8 * |c.first|
  {
    hide Value, Exp2, Inc, Nth, Space;
    BlockFits(c);
    var base, s := Value(c.first), Exp2(c.hostBits);
    var v := Value(Nth(c.first, k));
    QuotientOf(base, s, v);
    if base + k < Space(|c.first|) {
      NthValue(c.first, k);
    } else {
      WrapsToZero(c.first, k);
    }
  }

  lemma WrapsToZero(first: Address, k: nat)
    requires k > 0 && Value(first) + k == Space(|first|)
    ensures Value(Nth(first, k)) == 0
  {
    hide Value, Exp2, Inc, Space;
    NthValue(first, k - 1);
    IncAddsOne(Nth(first, k - 1));
  }

  lemma NthDiffer(c: Cidr, i: nat, j: nat)
    requires IsNetwork(c) && c.Network? && i < j < Exp2(c.hostBits)
    ensures Nth(c.first, i) != Nth(c.first, j)
  {
    hide Value, Exp2, Inc, Nth, Space;
    BlockFits(c);
    NthValue(c.first, i);
    NthValue(c.first, j);
  }

  ghost predicate AllDiffer(ts: seq<Target>) {
    forall i, j :: 0 <= i < j < |ts| ==> ts[i] != ts[j]
  }

  lemma HostsDiffer(c: Cidr)
    requires IsNetwork(c) && c.Network?
    ensures AllDiffer(CidrHosts(c.first, c.hostBits))
  {
    hide Value, Exp2, Nth, IsNetwork;
    var ts := CidrHosts(c.first, c.hostBits);
    var f := FirstHost(c.hostBits);
    forall i, j | 0 <= i < j < |ts| ensures ts[i] != ts[j] {
      NthDiffer(c, f + i, f + j);
    }
  }

  lemma {:induction false} UniqueOfDiffering(ts: seq<Target>)
    requires AllDiffer(ts) && forall i :: 0 <= i < |ts| ==> ts[i].Host?
    ensures |Unique(ts)| == |ts|
    ensures forall i :: 0 <= i < |ts| ==> Unique(ts)[i] == ts[i].address
    decreases |ts|
  {
    if |ts| > 0 {
      var init, last := ts[..|ts| - 1], ts[|ts| - 1];
      UniqueOfDiffering(init);
      UniqueMeans(init);
      assert last !in init;
      assert Host(last.address) !in init;
    }
  }

  // ----- the loop

  /** How many hosts have been offered before step `k`. */
  ghost function Offered(hostBits: nat, k: nat): int {
    if hostBits < 2 then k else if k == 0 then 0 else if k < Exp2(hostBits) then k - 1 else Exp2(hostBits) - 2
  }

  /** The first `p` hosts of the block have been added. */
  ghost predicate Added(permitted: Address -> bool, c: Cidr, p: int, out: seq<Address>)
    requires c.Network?
  {
    var ts := CidrHosts(c.first, c.hostBits);
    0 <= p <= |ts| && AddAll(permitted, ts[..p]) == Ok(out)
  }

  lemma AddedGrows(permitted: Address -> bool, c: Cidr, p: nat, out: seq<Address>)
    requires c.Network? && Added(permitted, c, p, out) && p < HostCount(c.hostBits)
    ensures var r := AddOne(permitted, out, Host(Nth(c.first, FirstHost(c.hostBits) + p)));
            if r.Ok? then Added(permitted, c, p + 1, r.hosts)
            else AddAll(permitted, CidrHosts(c.first, c.hostBits)) == r
  {
    hide AddOne, Nth, HostCount, FirstHost;
    var ts := CidrHosts(c.first, c.hostBits);
    var more := ts[..p + 1];
    assert more[..p] == ts[..p] && more[p] == ts[p];
    if AddAll(permitted, more).Err? {
      AddAllStops(permitted, ts, p + 1);
    }
  }

  lemma AddedCount(permitted: Address -> bool, c: Cidr, p: int, out: seq<Address>)
    requires IsNetwork(c) && c.Network? && Added(permitted, c, p, out)
    ensures |out| == p <= MAX_SCAN_HOSTS
  {
    hide IsNetwork, Nth, HostCount, FirstHost, Exp2;
    var ts := CidrHosts(c.first, c.hostBits);
    HostsDiffer(c);
    var part := ts[..p];
    assert forall i :: 0 <= i < |part| ==> part[i] == ts[i];
    UniqueOfDiffering(part);
    AddAllMeans(permitted, part);
  }

  lemma WholeSpaceIsLarge(c: Cidr)
    requires IsNetwork(c) && c.Network? && c.hostBits == 8 * |c.first|
    ensures Exp2(c.hostBits) >= 512
  {
    Exp2Adds(9, c.hostBits - 9);
    assert Exp2(3) == 8 && Exp2(6) == 64 && Exp2(9) == 512;
  }

  lemma IsFirstAtStart(c: Cidr, k: nat)
    requires IsNetwork(c) && c.Network? && k < Exp2(c.hostBits)
    ensures Nth(c.first, k) == c.first <==> k == 0
  {
    hide Value, Exp2, Inc, Space;
    BlockFits(c);
    NthValue(c.first, k);
  }

  /** Where the walk stands before step `k`. */
  ghost predicate AtStep(permitted: Address -> bool, c: Cidr, k: nat, ip: Address, out: seq<Address>)
    requires c.Network?
  {
    && k <= Exp2(c.hostBits) && ip == Nth(c.first, k) && Added(permitted, c, Offered(c.hostBits, k), out)
    && (c.hostBits == 8 * |c.first| ==> k <= MAX_SCAN_HOSTS + 1)
  }

  lemma StepInside(permitted: Address -> bool, c: Cidr, k: nat, ip: Address, out: seq<Address>)
    requires IsNetwork(c) && c.Network? && AtStep(permitted, c, k, ip, out)
    ensures Contains(c.first, c.hostBits, ip) <==> k < Exp2(c.hostBits)
    ensures k < Exp2(c.hostBits) ==>
        (ip == c.first <==> k == 0) && (Contains(c.first, c.hostBits, Inc(ip)) <==> k + 1 < Exp2(c.hostBits))
  {
    hide IsNetwork, Contains, Exp2, Added, Offered, Inc;
    LeavesAtEnd(c, k);
    if c.hostBits == 8 * |c.first| { WholeSpaceIsLarge(c); }
    if k < Exp2(c.hostBits) {
      LeavesAtEnd(c, k + 1);
      IsFirstAtStart(c, k);
    }
  }

  lemma StepSkips(permitted: Address -> bool, c: Cidr, k: nat, ip: Address, out: seq<Address>)
    requires IsNetwork(c) && c.Network? && AtStep(permitted, c, k, ip, out) && k < Exp2(c.hostBits)
    requires c.hostBits >= 2 && (k == 0 || k + 1 == Exp2(c.hostBits))
    ensures AtStep(permitted, c, k + 1, Inc(ip), out)
  {
    hide Added, Inc;
    if c.hostBits == 8 * |c.first| { WholeSpaceIsLarge(c); }
    HostCountPositive(c.hostBits);
  }

  lemma StepAdds(permitted: Address -> bool, c: Cidr, k: nat, ip: Address, out: seq<Address>)
    requires IsNetwork(c) && c.Network? && AtStep(permitted, c, k, ip, out) && k < Exp2(c.hostBits)
    requires c.hostBits >= 2 ==> k > 0 && k + 1 < Exp2(c.hostBits)
    ensures var r := AddOne(permitted, out, Host(ip));
            if r.Ok? then AtStep(permitted, c, k + 1, Inc(ip), r.hosts)
            else AddAll(permitted, CidrHosts(c.first, c.hostBits)) == r
  {
    hide Added, Inc, AddOne, IsNetwork, CidrHosts, AddAll;
    var p := Offered(c.hostBits, k);
    AddedGrows(permitted, c, p, out);
    var r := AddOne(permitted, out, Host(ip));
    if r.Ok? { AddedCount(permitted, c, p + 1, r.hosts); }
  }

  lemma Done(permitted: Address -> bool, c: Cidr, ip: Address, out: seq<Address>)
    requires c.Network? && AtStep(permitted, c, Exp2(c.hostBits), ip, out)
    ensures AddAll(permitted, CidrHosts(c.first, c.hostBits)) == Ok(out)
  {
    hide AddAll, Nth;
    var ts := CidrHosts(c.first, c.hostBits);
    HostCountPositive(c.hostBits);
    assert ts[..|ts|] == ts;
  }

  lemma Start(permitted: Address -> bool, c: Cidr)
    requires c.Network?
    ensures AtStep(permitted, c, 0, c.first, [])
  {
    hide Exp2;
    HostCountPositive(c.hostBits);
  }

  /** The loop over the block: every host but network and broadcast is offered, in
      order, and the loop ends for every block, the block of all addresses included. */
  method ExpandCidr(permitted: Address -> bool, c: Cidr) returns (r: Result)
    requires IsNetwork(c) && c.Network?
    ensures r == AddAll(permitted, CidrHosts(c.first, c.hostBits))
  {
    hide AtStep, IsNetwork, Contains, Exp2, Inc, AddOne, AddAll, CidrHosts;
    var skipNetBroadcast := c.hostBits >= 2;
    var out: seq<Address> := [];
    var ip := CloneIP(c.first);
    ghost var k := 0;
    Start(permitted, c);
    while Contains(c.first, c.hostBits, ip[..])
      invariant fresh(ip) && k <= Exp2(c.hostBits)
      invariant AtStep(permitted, c, k, ip[..], out)
      decreases Exp2(c.hostBits) - k
    {
      StepInside(permitted, c, k, ip[..], out);
      var cur := ip[..];
      var isFirst := cur == c.first;
      var next := CloneIP(cur);
      IncIP(next);
      var isLast := !Contains(c.first, c.hostBits, next[..]);
      IncIP(ip);
      if skipNetBroadcast && (isFirst || isLast) {
        StepSkips(permitted, c, k, cur, out);
      } else {
        StepAdds(permitted, c, k, cur, out);
        r := AddOne(permitted, out, Host(cur));
        if r.Err? {
          return;
        }
        out := r.hosts;
      }
      k := k + 1;
    }
    StepInside(permitted, c, k, ip[..], out);
    Done(permitted, c, ip[..], out);
    return Ok(out);
  }

  method CloneIP(ip: Address) returns (dup: array<Byte>)
    ensures fresh(dup) && dup[..] == ip
  {
    dup := new Byte[|ip|](i requires 0 <= i < |ip| => ip[i]);
  }
}
