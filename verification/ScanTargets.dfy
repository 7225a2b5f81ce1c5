/** Expanding a CIDR block and a list of addresses into scan targets. */
module ScanTargets {
  import opened Addresses

  const MAX_SCAN_HOSTS := 256

  datatype Problem = BadCidr | BadAddress | Refused(address: Address) | TooMany | Nothing

  datatype Result = Ok(hosts: seq<Address>) | Err(problem: Problem)

  /** One entry of the host list, parsed. */
  datatype Target = Host(address: Address) | Malformed

  /** A parsed block: its first address and the number of host bits. */
  datatype Cidr = NoCidr | Unreadable | Network(first: Address, hostBits: nat)

  /** IPv4 or IPv6, with the host bits of the first address clear. */
  predicate IsNetwork(c: Cidr) {
    c.Network? ==>
        (|c.first| == 4 || |c.first| == 16) && c.hostBits <= 8 * |c.first| && Value(c.first) % Exp2(c.hostBits) == 0
  }

  /** The address shares the network's leading bits. */
  predicate Contains(first: Address, hostBits: nat, ip: Address) {
    Value(ip) / Exp2(hostBits) == Value(first) / Exp2(hostBits)
  }

  // ----- adding one target after another

  function AddOne(permitted: Address -> bool, out: seq<Address>, t: Target): Result {
    match t
    case Malformed => Err(BadAddress)
    case Host(a) =>
      if !permitted(a) then Err(Refused(a))
      else if a in out then Ok(out)
      else if |out| >= MAX_SCAN_HOSTS then Err(TooMany)
      else Ok(out + [a])
  }

  /** The first problem stops everything. */
  function AddAll(permitted: Address -> bool, ts: seq<Target>): Result
    decreases |ts|
  {
    if |ts| == 0 then Ok([])
    else
      var r := AddAll(permitted, ts[..|ts| - 1]);
      if r.Ok? then AddOne(permitted, r.hosts, ts[|ts| - 1]) else r
  }

  ghost predicate AllGood(permitted: Address -> bool, ts: seq<Target>) {
    forall i :: 0 <= i < |ts| ==> ts[i].Host? && permitted(ts[i].address)
  }

  /** The addresses in order of first appearance. */
  function Unique(ts: seq<Target>): seq<Address>
    decreases |ts|
  {
    if |ts| == 0 then []
    else
      var u := Unique(ts[..|ts| - 1]);
      if ts[|ts| - 1].Malformed? || ts[|ts| - 1].address in u then u else u + [ts[|ts| - 1].address]
  }

  ghost predicate NoRepeats(s: seq<Address>) {
    forall i, j :: 0 <= i < j < |s| ==> s[i] != s[j]
  }

  lemma {:induction false} UniqueMeans(ts: seq<Target>)
    ensures NoRepeats(Unique(ts))
    ensures forall a :: a in Unique(ts) <==> Host(a) in ts
    decreases |ts|
  {
    if |ts| > 0 {
      var init, last := ts[..|ts| - 1], ts[|ts| - 1];
      UniqueMeans(init);
      assert ts == init + [last];
      assert forall i :: 0 <= i < |Unique(init)| ==> Unique(init)[i] in Unique(init);
    }
  }

  lemma UniqueGrows(ts: seq<Target>, n: nat)
    requires n <= |ts|
    ensures |Unique(ts[..n])| <= |Unique(ts)|
    decreases |ts|
  {
    if n < |ts| {
      var init := ts[..|ts| - 1];
      UniqueGrows(init, n);
      assert init[..n] == ts[..n];
    } else {
      assert ts[..n] == ts;
    }
  }

  /** Adding succeeds exactly when every target is an address that is permitted and
      at most 256 differ; it then gives them without repetition. */
  lemma {:induction false} AddAllMeans(permitted: Address -> bool, ts: seq<Target>)
    ensures AddAll(permitted, ts).Ok? <==> AllGood(permitted, ts) && |Unique(ts)| <= 256
    ensures AddAll(permitted, ts).Ok? ==> AddAll(permitted, ts).hosts == Unique(ts)
    ensures AllGood(permitted, ts) && |Unique(ts)| > 256 ==> AddAll(permitted, ts) == Err(TooMany)
    decreases |ts|
  {
    if |ts| > 0 {
      var init := ts[..|ts| - 1];
      AddAllMeans(permitted, init);
      UniqueGrows(ts, |ts| - 1);
      assert forall i :: 0 <= i < |init| ==> init[i] == ts[i];
      if AllGood(permitted, ts) {
        assert AllGood(permitted, init);
      }
      if AllGood(permitted, init) && ts[|ts| - 1].Host? && permitted(ts[|ts| - 1].address) {
        assert AllGood(permitted, ts);
      }
    }
  }

  /** Adding this target to these is what goes wrong. */
  ghost predicate FailsAt(permitted: Address -> bool, ts: seq<Target>, n: nat, p: Problem)
    requires n < |ts|
  {
    && AllGood(permitted, ts[..n]) && |Unique(ts[..n])| <= 256
    && match ts[n]
       case Malformed => p == BadAddress
       case Host(a) => if !permitted(a) then p == Refused(a) else p == TooMany && |Unique(ts[..n + 1])| > 256
  }

  /** The problem is that of the first target that cannot be added. */
  lemma {:induction false} AddAllFails(permitted: Address -> bool, ts: seq<Target>)
    requires AddAll(permitted, ts).Err?
    ensures exists n :: 0 <= n < |ts| && FailsAt(permitted, ts, n, AddAll(permitted, ts).problem)
    decreases |ts|
  {
    var m := |ts| - 1;
    AddAllMeans(permitted, ts[..m]);
    AddAllMeans(permitted, ts[..m + 1]);
    assert ts[..m + 1] == ts;
    if AddAll(permitted, ts[..m]).Err? {
      AddAllFails(permitted, ts[..m]);
      var n :| 0 <= n < m && FailsAt(permitted, ts[..m], n, AddAll(permitted, ts).problem);
      assert ts[..m][..n] == ts[..n] && ts[..m][..n + 1] == ts[..n + 1];
      assert FailsAt(permitted, ts, n, AddAll(permitted, ts).problem);
    } else {
      if ts[m].Host? && permitted(ts[m].address) {
        GoodAppend(permitted, ts, m);
      }
      assert FailsAt(permitted, ts, m, AddAll(permitted, ts).problem);
    }
  }

  lemma GoodAppend(permitted: Address -> bool, ts: seq<Target>, m: nat)
    requires |ts| == m + 1 && AllGood(permitted, ts[..m]) && ts[m].Host? && permitted(ts[m].address)
    ensures AllGood(permitted, ts)
  {
    forall i | 0 <= i < |ts|
      ensures ts[i].Host? && permitted(ts[i].address)
    {
      assert i < m ==> ts[i] == ts[..m][i];
    }
  }

  lemma AddAllStops(permitted: Address -> bool, ts: seq<Target>, n: nat)
    requires n <= |ts| && AddAll(permitted, ts[..n]).Err?
    ensures AddAll(permitted, ts) == AddAll(permitted, ts[..n])
    decreases |ts|
  {
    if n < |ts| {
      var init := ts[..|ts| - 1];
      assert init[..n] == ts[..n];
      AddAllStops(permitted, init, n);
    } else {
      assert ts[..n] == ts;
    }
  }
}
