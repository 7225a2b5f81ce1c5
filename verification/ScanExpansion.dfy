/** The whole expansion, and what a block expands to. */
module ScanExpansion {
  import opened Addresses
  import opened ScanTargets
  import opened CidrBlocks

  ghost function BlockTargets(c: Cidr): seq<Target> {
    if c.Network? then CidrHosts(c.first, c.hostBits) else []
  }

  /** A block that cannot be read, a problem with a target, or nothing at all. */
  ghost predicate IsExpansion(permitted: Address -> bool, c: Cidr, parts: seq<Target>, r: Result) {
    if c.Unreadable? then r == Err(BadCidr)
    else
      var all := AddAll(permitted, BlockTargets(c) + parts);
      r == if all == Ok([]) then Err(Nothing) else all
  }

  /** The hosts before they are sorted. */
  method ExpandScanTargets(permitted: Address -> bool, c: Cidr, parts: seq<Target>) returns (r: Result)
    requires IsNetwork(c)
    ensures IsExpansion(permitted, c, parts, r)
  {
    hide IsNetwork, AddOne, CidrHosts;
    if c.Unreadable? {
      return Err(BadCidr);
    }
    ghost var block := BlockTargets(c);
    r := Ok([]);
    if c.Network? {
      r := ExpandCidr(permitted, c);
    }
    assert block + parts[..0] == block;
    if r.Err? {
      StopsEarly(permitted, block, parts, 0);
      return;
    }
    for i := 0 to |parts|
      invariant r.Ok? && AddAll(permitted, block + parts[..i]) == r
    {
      OneMore(permitted, block, parts, i);
      r := AddOne(permitted, r.hosts, parts[i]);
      if r.Err? {
        StopsEarly(permitted, block, parts, i + 1);
        return;
      }
    }
    assert parts[..|parts|] == parts;
    if |r.hosts| == 0 {
      return Err(Nothing);
    }
  }

  lemma OneMore(permitted: Address -> bool, block: seq<Target>, parts: seq<Target>, i: nat)
    requires i < |parts| && AddAll(permitted, block + parts[..i]).Ok?
    ensures AddAll(permitted, block + parts[..i + 1]) ==
        AddOne(permitted, AddAll(permitted, block + parts[..i]).hosts, parts[i])
  {
    hide AddOne;
    var more := block + parts[..i + 1];
    assert more[..|more| - 1] == block + parts[..i];
  }

  lemma StopsEarly(permitted: Address -> bool, block: seq<Target>, parts: seq<Target>, i: nat)
    requires i <= |parts| && AddAll(permitted, block + parts[..i]).Err?
    ensures AddAll(permitted, block + parts) == AddAll(permitted, block + parts[..i])
  {
    hide AddAll;
    var all := block + parts;
    assert all[..|block| + i] == block + parts[..i];
    AddAllStops(permitted, all, |block| + i);
  }

  /** The expansion succeeds exactly when the block can be read, there is something
      to scan, every target is permitted and at most 256 differ; the result holds
      each target once and nothing else. */
  lemma ExpansionMeans(permitted: Address -> bool, c: Cidr, parts: seq<Target>, r: Result)
    requires IsExpansion(permitted, c, parts, r)
    ensures var all := BlockTargets(c) + parts;
            && (r.Ok? <==> !c.Unreadable? && |all| > 0 && AllGood(permitted, all) && |Unique(all)| <= 256)
            && (r.Ok? ==> NoRepeats(r.hosts) && |r.hosts| <= 256)
            && (r.Ok? ==> forall a :: a in r.hosts <==> Host(a) in all)
  {
    hide AddAll, BlockTargets, Unique;
    var all := BlockTargets(c) + parts;
    AddAllMeans(permitted, all);
    UniqueMeans(all);
    if |all| > 0 && AllGood(permitted, all) {
      assert all[0].Host?;
      assert Host(all[0].address) in all;
      assert all[0].address in Unique(all);
    } else if |all| == 0 {
      UniqueOfNothing();
    }
  }

  lemma UniqueOfNothing()
    ensures Unique([]) == []
  {
  }

  // ----- what a block holds

  lemma InsideBlock(c: Cidr, a: Address)
    requires IsNetwork(c) && c.Network? && |a| == |c.first|
    ensures Contains(c.first, c.hostBits, a) <==> Value(c.first) <= Value(a) < Value(c.first) + Exp2(c.hostBits)
  {
    hide Value, Exp2;
    var base, s, v := Value(c.first), Exp2(c.hostBits), Value(a);
    QuotientOf(base, s, v);
    DivMod(v, s);
    DivMod(base, s);
  }

  lemma BlockContains(c: Cidr, a: Address)
    requires IsNetwork(c) && c.Network?
    ensures Host(a) in CidrHosts(c.first, c.hostBits) <==>
      && |a| == |c.first| && Contains(c.first, c.hostBits, a)
      && (c.hostBits >= 2 ==> Value(a) != Value(c.first) && Value(a) != Value(c.first) + Exp2(c.hostBits) - 1)
  {
    hide Value, Exp2, Nth, Contains, IsNetwork, Space;
    var ts := CidrHosts(c.first, c.hostBits);
    var f := FirstHost(c.hostBits);
    BlockFits(c);
    if Host(a) in ts {
      var i :| 0 <= i < |ts| && ts[i] == Host(a);
      assert a == Nth(c.first, f + i);
      NthValue(c.first, f + i);
      InsideBlock(c, a);
    }
    if |a| == |c.first| && Contains(c.first, c.hostBits, a)
      && (c.hostBits >= 2 ==> Value(a) != Value(c.first) && Value(a) != Value(c.first) + Exp2(c.hostBits) - 1)
    {
      InsideBlock(c, a);
      var k := Value(a) - Value(c.first);
      NthValue(c.first, k);
      ValueInjective(a, Nth(c.first, k));
      assert ts[k - f] == Host(a);
    }
  }

  /** Independently of the walk: the targets of a block are the addresses that share
      its leading bits, without its lowest and highest from two host bits on. */
  lemma BlockHolds(c: Cidr, a: Address)
    requires IsNetwork(c) && c.Network?
    ensures Host(a) in CidrHosts(c.first, c.hostBits) <==>
      && |a| == |c.first| && Value(a) / Exp2(c.hostBits) == Value(c.first) / Exp2(c.hostBits)
      && (c.hostBits >= 2 ==> Value(a) != Value(c.first) && Value(a) != Value(c.first) + Exp2(c.hostBits) - 1)
  {
    hide Value, Exp2, IsNetwork, CidrHosts;
    BlockContains(c, a);
  }

  /** A block on its own, all of whose hosts are permitted: 2^h - 2 distinct hosts in
      ascending order (2^h below two host bits), or an error exactly when that is
      more than 256. */
  lemma BlockAlone(permitted: Address -> bool, c: Cidr, r: Result)
    requires IsNetwork(c) && c.Network? && IsExpansion(permitted, c, [], r)
    requires AllGood(permitted, CidrHosts(c.first, c.hostBits))
    ensures if HostCount(c.hostBits) <= 256 then r.Ok? else r == Err(TooMany)
    ensures r.Ok? ==> |r.hosts| == HostCount(c.hostBits)
    ensures r.Ok? ==> forall i :: 0 <= i < |r.hosts| ==> Value(r.hosts[i]) == Value(c.first) + FirstHost(c.hostBits) + i
  {
    hide Value, Exp2, Nth, IsNetwork, Space, AddAll, Unique, AllGood;
    var ts := CidrHosts(c.first, c.hostBits);
    assert ts + [] == ts;
    HostCountPositive(c.hostBits);
    HostsDiffer(c);
    UniqueOfDiffering(ts);
    AddAllMeans(permitted, ts);
    BlockFits(c);
    if r.Ok? {
      forall i | 0 <= i < |r.hosts| ensures Value(r.hosts[i]) == Value(c.first) + FirstHost(c.hostBits) + i {
        NthValue(c.first, FirstHost(c.hostBits) + i);
      }
    }
  }

  /** A /24 (eight host bits) expands to its 254 hosts; a /23 is too large. */
  lemma LargestBlock(permitted: Address -> bool, c: Cidr, r: Result)
    requires IsNetwork(c) && c.Network? && IsExpansion(permitted, c, [], r)
    requires AllGood(permitted, CidrHosts(c.first, c.hostBits))
    ensures c.hostBits == 8 ==> r.Ok? && |r.hosts| == 254
    ensures c.hostBits == 9 ==> r == Err(TooMany)
  {
    BlockAlone(permitted, c, r);
    Exp2Adds(4, 4);
    assert Exp2(4) == 16 && Exp2(8) == 256 && Exp2(9) == 512;
  }
}
