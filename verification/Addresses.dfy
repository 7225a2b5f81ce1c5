/** Addresses as big-endian bytes, and counting with a carry. */
module Addresses {

  type Byte = x: int | 0 <= x < 256

  type Address = seq<Byte>

  function Exp2(n: nat): (r: nat)
    ensures r > 0
  {
    if n == 0 then 1 else 2 * Exp2(n - 1)
  }

  function Value(s: Address): nat {
    if |s| == 0 then 0 else Value(s[..|s| - 1]) * 256 + s[|s| - 1]
  }

  /** How many addresses there are of `n` bytes. */
  function Space(n: nat): nat {
    Exp2(8 * n)
  }

  /** The successor: a byte at 255 becomes 0 and carries into the one before it. */
  function Inc(s: Address): (r: Address)
    ensures |r| == |s|
  {
    if |s| == 0 then []
    else if s[|s| - 1] < 255 then s[..|s| - 1] + [s[|s| - 1] + 1]
    else Inc(s[..|s| - 1]) + [0]
  }

  /** A byte wraps around. */
  function NextByte(b: Byte): Byte {
    if b == 255 then 0 else b + 1
  }

  method IncIP(ip: array<Byte>)
    modifies ip
    ensures ip[..] == Inc(old(ip[..]))
  {
    ghost var was := ip[..];
    var i := ip.Length;
    assert was[..i] == was;
    while i > 0
      invariant 0 <= i <= ip.Length
      invariant ip[..i] == was[..i]
      invariant Inc(was) == Inc(was[..i]) + ip[i..]
    {
      i := i - 1;
      var head := was[..i + 1];
      assert head[..i] == was[..i] && head[i] == was[i] == ip[i];
      ghost var tail := ip[i + 1..];
      ip[i] := NextByte(ip[i]);
      assert ip[i..] == [ip[i]] + tail;
      if ip[i] != 0 {
        assert ip[..] == was[..i] + ip[i..];
        return;
      }
    }
  }

  lemma SpaceGrows(n: nat)
    ensures Space(n + 1) == 256 * Space(n)
  {
    var e := 8 * n;
    assert Exp2(e + 2) == 2 * Exp2(e + 1) == 4 * Exp2(e);
    assert Exp2(e + 4) == 2 * Exp2(e + 3) == 4 * Exp2(e + 2);
    assert Exp2(e + 6) == 2 * Exp2(e + 5) == 4 * Exp2(e + 4);
    assert Exp2(e + 8) == 2 * Exp2(e + 7) == 4 * Exp2(e + 6);
  }

  lemma {:induction false} ValueInSpace(s: Address)
    ensures Value(s) < Space(|s|)
  {
    hide Space;
    if |s| == 0 {
      SpaceOfNothing();
    } else {
      ValueInSpace(s[..|s| - 1]);
      SpaceGrows(|s| - 1);
    }
  }

  lemma SpaceOfNothing()
    ensures Space(0) == 1
  {
  }

  /** `incIP` adds one, modulo the number of addresses. */
  lemma {:induction false} IncAddsOne(s: Address)
    ensures Value(Inc(s)) == if Value(s) + 1 == Space(|s|) then 0 else Value(s) + 1
  {
    hide Space;
    if |s| == 0 {
      SpaceOfNothing();
    } else {
      var init, last := s[..|s| - 1], s[|s| - 1];
      IncAddsOne(init);
      ValueInSpace(init);
      SpaceGrows(|init|);
      var r := Inc(s);
      if last < 255 {
        assert r[..|r| - 1] == init;
      } else {
        assert r[..|r| - 1] == Inc(init);
      }
    }
  }

  lemma IncIsModular(s: Address)
    ensures Space(|s|) > 0 && Value(Inc(s)) == (Value(s) + 1) % Space(|s|)
  {
    hide Space, Value, Inc;
    ValueInSpace(s);
    IncAddsOne(s);
    SmallMod(Value(s) + 1, Space(|s|));
  }

  lemma SmallMod(v: nat, m: nat)
    requires 0 < v <= m
    ensures v % m == if v == m then 0 else v
  {
  }

  lemma {:induction false} ValueInjective(a: Address, b: Address)
    requires |a| == |b| && Value(a) == Value(b)
    ensures a == b
  {
    if |a| > 0 {
      var n := |a| - 1;
      assert a[n] == b[n] && Value(a[..n]) == Value(b[..n]);
      ValueInjective(a[..n], b[..n]);
      assert a == a[..n] + [a[n]] && b == b[..n] + [b[n]];
    }
  }

  lemma {:induction false} Exp2Adds(a: nat, b: nat)
    ensures Exp2(a + b) == Exp2(a) * Exp2(b)
  {
    if a > 0 {
      Exp2Adds(a - 1, b);
      Doubled(Exp2(a - 1), Exp2(b));
    }
  }

  lemma Doubled(x: nat, y: nat)
    ensures (2 * x) * y == 2 * (x * y)
  {
  }
}
