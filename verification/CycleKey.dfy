/** The name of a loop: the same text for every start device and direction. */
module CycleKey {
  import opened Graph

  // ----- the text of an id list

  function Digits(n: nat): string {
    if n < 10 then [('0' as int + n) as char] else Digits(n / 10) + [('0' as int + n % 10) as char]
  }

  function Decimal(n: int): string {
    if n < 0 then "-" + Digits(-n) else Digits(n)
  }

  function RenderFrom(ids: seq<int>): string
    requires |ids| > 0
  {
    Decimal(ids[0]) + if |ids| == 1 then "]" else " " + RenderFrom(ids[1..])
  }

  function Render(ids: seq<int>): string {
    "[" + if |ids| == 0 then "]" else RenderFrom(ids)
  }

  function NatOf(s: string): int {
    if |s| == 0 then 0 else 10 * NatOf(s[..|s| - 1]) + (s[|s| - 1] as int - '0' as int)
  }

  lemma {:induction false} DigitsRoundTrip(n: nat)
    ensures NatOf(Digits(n)) == n && |Digits(n)| > 0
    ensures forall i :: 0 <= i < |Digits(n)| ==> '0' <= Digits(n)[i] <= '9'
  {
    var s := Digits(n);
    if n >= 10 {
      DigitsRoundTrip(n / 10);
      assert s[..|s| - 1] == Digits(n / 10);
    } else {
      assert s[..|s| - 1] == [];
    }
  }

  lemma DecimalInjective(a: int, b: int)
    requires Decimal(a) == Decimal(b)
    ensures a == b
  {
    DigitsRoundTrip(if a < 0 then -a else a);
    DigitsRoundTrip(if b < 0 then -b else b);
    if a < 0 {
      assert Decimal(a)[0] == '-' && Decimal(a)[1..] == Digits(-a);
    }
    if b < 0 {
      assert Decimal(b)[0] == '-' && Decimal(b)[1..] == Digits(-b);
    }
    assert a >= 0 ==> Decimal(a)[0] == Digits(a)[0];
    assert b >= 0 ==> Decimal(b)[0] == Digits(b)[0];
  }

  lemma DecimalChars(a: int)
    ensures forall i :: 0 <= i < |Decimal(a)| ==> Decimal(a)[i] != ' ' && Decimal(a)[i] != ']'
  {
    DigitsRoundTrip(if a < 0 then -a else a);
  }

  /** A number ends where the first separator stands. */
  lemma TokenUnique(x: string, y: string, r: string, s: string)
    requires x + r == y + s && |r| > 0 && |s| > 0
    requires (r[0] == ' ' || r[0] == ']') && (s[0] == ' ' || s[0] == ']')
    requires forall i :: 0 <= i < |x| ==> x[i] != ' ' && x[i] != ']'
    requires forall i :: 0 <= i < |y| ==> y[i] != ' ' && y[i] != ']'
    ensures x == y && r == s
  {
    var t := x + r;
    assert t[|x|] == r[0] && (y + s)[|y|] == s[0];
    assert |x| == |y|;
    assert x == t[..|x|] == y;
    assert r == t[|x|..] == s;
  }

  lemma {:induction false} RenderFromInjective(a: seq<int>, b: seq<int>)
    requires |a| > 0 && |b| > 0 && RenderFrom(a) == RenderFrom(b)
    ensures a == b
    decreases |a|
  {
    DecimalChars(a[0]);
    DecimalChars(b[0]);
    var r := if |a| == 1 then "]" else " " + RenderFrom(a[1..]);
    var s := if |b| == 1 then "]" else " " + RenderFrom(b[1..]);
    TokenUnique(Decimal(a[0]), Decimal(b[0]), r, s);
    DecimalInjective(a[0], b[0]);
    if |a| > 1 {
      assert r[1..] == RenderFrom(a[1..]) && s[0] == ' ';
      assert s[1..] == RenderFrom(b[1..]);
      RenderFromInjective(a[1..], b[1..]);
      assert a == [a[0]] + a[1..] && b == [b[0]] + b[1..];
    } else {
      assert s[0] == ']';
      assert a == [a[0]] && b == [b[0]];
    }
  }

  lemma RenderInjective(a: seq<int>, b: seq<int>)
    requires Render(a) == Render(b)
    ensures a == b
  {
    assert Render(a)[1..] == if |a| == 0 then "]" else RenderFrom(a);
    assert Render(b)[1..] == if |b| == 0 then "]" else RenderFrom(b);
    if |a| > 0 {
      FirstChar(a);
    }
    if |b| > 0 {
      FirstChar(b);
    }
    if |a| > 0 && |b| > 0 {
      RenderFromInjective(a, b);
    }
  }

  lemma FirstChar(a: seq<int>)
    requires |a| > 0
    ensures |RenderFrom(a)| > 0 && RenderFrom(a)[0] != ']'
  {
    DecimalChars(a[0]);
    DigitsRoundTrip(if a[0] < 0 then -a[0] else a[0]);
    assert |Decimal(a[0])| > 0;
    assert RenderFrom(a)[0] == Decimal(a[0])[0];
  }

  // ----- text order

  predicate Less(a: string, b: string) {
    |b| > 0 && (|a| == 0 || a[0] < b[0] || (a[0] == b[0] && Less(a[1..], b[1..])))
  }

  lemma {:induction false} LessTotal(a: string, b: string)
    ensures a == b || Less(a, b) || Less(b, a)
    ensures !(Less(a, b) && Less(b, a))
  {
    if |a| > 0 && |b| > 0 {
      LessTotal(a[1..], b[1..]);
      assert a == [a[0]] + a[1..] && b == [b[0]] + b[1..];
    }
  }

  /** At the first place where the texts differ `a` has ended or the smaller character. */
  ghost predicate Before(a: string, b: string) {
    exists n :: 0 <= n <= |a| && n < |b| && a[..n] == b[..n] && (n < |a| ==> a[n] < b[n])
  }

  lemma {:induction false} LessDiffers(a: string, b: string) returns (n: nat)
    requires Less(a, b)
    ensures n <= |a| && n < |b| && a[..n] == b[..n] && (n < |a| ==> a[n] < b[n])
    decreases |a|
  {
    if |a| > 0 && a[0] == b[0] {
      n := LessDiffers(a[1..], b[1..]);
      assert a[..n + 1] == [a[0]] + a[1..][..n] && b[..n + 1] == [b[0]] + b[1..][..n];
      n := n + 1;
    } else {
      n := 0;
    }
  }

  lemma {:induction false} DiffersIsLess(a: string, b: string, n: nat)
    requires n <= |a| && n < |b| && a[..n] == b[..n] && (n < |a| ==> a[n] < b[n])
    ensures Less(a, b)
    decreases n
  {
    if n > 0 {
      assert a[0] == a[..n][0] == b[..n][0] == b[0];
      assert a[1..][..n - 1] == a[..n][1..] && b[1..][..n - 1] == b[..n][1..];
      DiffersIsLess(a[1..], b[1..], n - 1);
    }
  }

  lemma LessMeans(a: string, b: string)
    ensures Less(a, b) <==> Before(a, b)
  {
    if Less(a, b) {
      var n := LessDiffers(a, b);
    }
    if Before(a, b) {
      var n :| 0 <= n <= |a| && n < |b| && a[..n] == b[..n] && (n < |a| ==> a[n] < b[n]);
      DiffersIsLess(a, b, n);
    }
  }

  function MinText(a: string, b: string): string {
    if Less(a, b) then a else b
  }

  lemma MinTextSymmetric(a: string, b: string)
    ensures MinText(a, b) == MinText(b, a)
  {
    LessTotal(a, b);
  }

  // ----- rotations

  function Rotation(a: seq<int>, k: nat): (r: seq<int>)
    requires k <= |a|
    ensures |r| == |a|
  {
    a[k..] + a[..k]
  }

  ghost predicate IsRotation(x: seq<int>, a: seq<int>) {
    exists k :: 0 <= k <= |a| && x == Rotation(a, k)
  }

  /** The same loop, walked from another device or in the other direction. */
  ghost predicate SameLoop(a: seq<int>, b: seq<int>) {
    IsRotation(b, a) || IsRotation(b, Reversed(a))
  }

  lemma RotationReflexive(a: seq<int>)
    ensures IsRotation(a, a)
  {
    assert Rotation(a, 0) == a;
  }

  lemma RotationSymmetric(x: seq<int>, a: seq<int>)
    requires IsRotation(x, a)
    ensures IsRotation(a, x)
  {
    var k :| 0 <= k <= |a| && x == Rotation(a, k);
    assert a == Rotation(x, |a| - k);
  }

  lemma RotationAt(a: seq<int>, k: nat, i: nat)
    requires k <= |a| && i < |a|
    ensures Rotation(a, k)[i] == a[if k + i < |a| then k + i else k + i - |a|]
  {
  }

  lemma RotationTransitive(x: seq<int>, y: seq<int>, a: seq<int>)
    requires IsRotation(x, y) && IsRotation(y, a)
    ensures IsRotation(x, a)
  {
    var j :| 0 <= j <= |y| && x == Rotation(y, j);
    var k :| 0 <= k <= |a| && y == Rotation(a, k);
    var n := |a|;
    var m := if j + k <= n then j + k else j + k - n;
    var r := Rotation(a, m);
    hide Rotation;
    forall i | 0 <= i < n
      ensures x[i] == r[i]
    {
      RotationAt(y, j, i);
      RotationAt(a, k, if j + i < n then j + i else j + i - n);
      RotationAt(a, m, i);
    }
    assert x == r;
  }

  lemma ReverseRotation(x: seq<int>, a: seq<int>)
    requires IsRotation(x, a)
    ensures IsRotation(Reversed(x), Reversed(a))
  {
    var k :| 0 <= k <= |a| && x == Rotation(a, k);
    assert Reversed(x) == Rotation(Reversed(a), |a| - k);
  }

  lemma ReverseTwice(a: seq<int>)
    ensures Reversed(Reversed(a)) == a
  {
  }

  /** `x` starts with a smallest element. */
  ghost predicate StartsLow(x: seq<int>) {
    |x| > 0 && forall i :: 0 <= i < |x| ==> x[0] <= x[i]
  }

  /** Of the rotations of a list without repetitions only one starts with the
      smallest id. */
  lemma LowRotationUnique(x: seq<int>, y: seq<int>, a: seq<int>)
    requires Distinct(a) && IsRotation(x, a) && IsRotation(y, a) && StartsLow(x) && StartsLow(y)
    ensures x == y
  {
    hide Rotation, Reversed;
    var k :| 0 <= k <= |a| && x == Rotation(a, k);
    var j :| 0 <= j <= |a| && y == Rotation(a, j);
    RotationAt(a, k, 0);
    RotationAt(a, j, 0);
    var i, l := if k == |a| then 0 else k, if j == |a| then 0 else j;
    assert x[0] == a[i] && y[0] == a[l];
    InRotation(a, k, l);
    InRotation(a, j, i);
    assert i == l;
    FullTurn(a);
  }

  lemma FullTurn(a: seq<int>)
    ensures Rotation(a, 0) == Rotation(a, |a|)
  {
  }

  lemma InRotation(a: seq<int>, k: nat, l: nat)
    requires k <= |a| && l < |a|
    ensures a[l] in Rotation(a, k)
  {
    var r := Rotation(a, k);
    if l >= k {
      assert r[l - k] == a[l];
    } else {
      assert r[|a| - k + l] == a[l];
    }
  }

  // ----- the key

  /** The position of the first smallest id. */
  function MinIndex(ids: seq<int>): (m: nat)
    requires |ids| > 0
    ensures m < |ids|
    ensures forall i :: 0 <= i < |ids| ==> ids[m] <= ids[i]
    ensures forall i :: 0 <= i < m ==> ids[m] < ids[i]
  {
    if |ids| == 1 then 0
    else
      var m := MinIndex(ids[..|ids| - 1]);
      assert forall i :: 0 <= i < |ids| - 1 ==> ids[..|ids| - 1][i] == ids[i];
      if ids[|ids| - 1] < ids[m] then |ids| - 1 else m
  }

  function Forward(ids: seq<int>): (r: seq<int>)
    requires |ids| > 0
    ensures |r| == |ids|
  {
    Rotation(ids, MinIndex(ids))
  }

  function Backward(ids: seq<int>): (r: seq<int>)
    requires |ids| > 0
    ensures |r| == |ids|
  {
    Rotation(Reversed(ids), |ids| - 1 - MinIndex(ids))
  }

  function Key(ids: seq<int>): string {
    if |ids| == 0 then "" else MinText(Render(Forward(ids)), Render(Backward(ids)))
  }

  lemma ForwardIsLow(ids: seq<int>)
    requires |ids| > 0
    ensures IsRotation(Forward(ids), ids) && StartsLow(Forward(ids))
  {
    var m := MinIndex(ids);
    forall i | 0 <= i < |ids|
      ensures Forward(ids)[0] <= Forward(ids)[i]
    {
      RotationAt(ids, m, i);
    }
  }

  lemma BackwardIsLow(ids: seq<int>)
    requires |ids| > 0
    ensures IsRotation(Backward(ids), Reversed(ids)) && StartsLow(Backward(ids))
  {
    var m := |ids| - 1 - MinIndex(ids);
    forall i | 0 <= i < |ids|
      ensures Backward(ids)[0] <= Backward(ids)[i]
    {
      RotationAt(Reversed(ids), m, i);
    }
  }

  lemma DistinctReversed(a: seq<int>)
    requires Distinct(a)
    ensures Distinct(Reversed(a))
  {
  }

  /** Any start device and direction gives the same key. */
  lemma SameLoopSameKey(a: seq<int>, b: seq<int>)
    requires Distinct(a) && SameLoop(a, b)
    ensures Key(a) == Key(b)
  {
    if |a| > 0 {
      ForwardIsLow(a);
      BackwardIsLow(a);
      ForwardIsLow(b);
      BackwardIsLow(b);
      DistinctReversed(a);
      if IsRotation(b, a) {
        RotationTransitive(Forward(b), b, a);
        LowRotationUnique(Forward(a), Forward(b), a);
        ReverseRotation(b, a);
        RotationTransitive(Backward(b), Reversed(b), Reversed(a));
        LowRotationUnique(Backward(a), Backward(b), Reversed(a));
      } else {
        RotationTransitive(Forward(b), b, Reversed(a));
        LowRotationUnique(Backward(a), Forward(b), Reversed(a));
        ReverseRotation(b, Reversed(a));
        ReverseTwice(a);
        RotationTransitive(Backward(b), Reversed(b), a);
        LowRotationUnique(Forward(a), Backward(b), a);
        MinTextSymmetric(Render(Forward(a)), Render(Backward(a)));
      }
    }
  }

  lemma KeySource(a: seq<int>) returns (x: seq<int>)
    requires |a| > 0
    ensures Key(a) == Render(x) && (IsRotation(x, a) || IsRotation(x, Reversed(a)))
  {
    ForwardIsLow(a);
    BackwardIsLow(a);
    x := if Less(Render(Forward(a)), Render(Backward(a))) then Forward(a) else Backward(a);
  }

  /** Equal keys come from the same loop, for any two id lists. */
  lemma SameKeySameLoop(a: seq<int>, b: seq<int>)
    requires Key(a) == Key(b)
    ensures SameLoop(a, b)
  {
    if |a| == 0 || |b| == 0 {
      if |a| > 0 {
        var x := KeySource(a);
      }
      if |b| > 0 {
        var y := KeySource(b);
      }
      RotationReflexive(a);
    } else {
      var x := KeySource(a);
      var y := KeySource(b);
      RenderInjective(x, y);
      if IsRotation(x, b) {
        RotationSymmetric(x, b);
      } else {
        ReverseRotation(x, Reversed(b));
        ReverseTwice(b);
        RotationSymmetric(Reversed(x), b);
      }
      if IsRotation(x, a) {
        ReverseRotation(x, a);
      } else {
        ReverseRotation(x, Reversed(a));
        ReverseTwice(a);
      }
      ChainLoop(a, b, x);
    }
  }

  lemma ChainLoop(a: seq<int>, b: seq<int>, x: seq<int>)
    requires (IsRotation(x, a) && IsRotation(Reversed(x), Reversed(a))) ||
        (IsRotation(x, Reversed(a)) && IsRotation(Reversed(x), a))
    requires IsRotation(b, x) || IsRotation(b, Reversed(x))
    ensures SameLoop(a, b)
  {
    var y := if IsRotation(b, x) then x else Reversed(x);
    if IsRotation(y, a) {
      RotationTransitive(b, y, a);
    } else {
      RotationTransitive(b, y, Reversed(a));
    }
  }

  /** The key names a loop up to start device and direction, and nothing else. */
  lemma KeyIsCanonical(a: seq<int>, b: seq<int>)
    requires Distinct(a)
    ensures Key(a) == Key(b) <==> SameLoop(a, b)
  {
    if Key(a) == Key(b) {
      SameKeySameLoop(a, b);
    }
    if SameLoop(a, b) {
      SameLoopSameKey(a, b);
    }
  }

  /** The ring index of the two buffers. */
  function Wrap(x: nat, n: nat): nat
    requires n > 0
  {
    x % n
  }

  lemma WrapBelowTwice(x: nat, n: nat)
    requires 0 < n && x < 2 * n
    ensures Wrap(x, n) == if x < n then x else x - n
  {
    if x >= n {
      assert x == 1 * n + (x - n);
      assert x / n == 1;
    }
  }

  lemma ForwardAt(ids: seq<int>, m: nat, i: nat)
    requires m < |ids| && i < |ids|
    ensures Wrap(m + i, |ids|) < |ids| && ids[Wrap(m + i, |ids|)] == Rotation(ids, m)[i]
  {
    hide Wrap, Rotation;
    WrapBelowTwice(m + i, |ids|);
    RotationAt(ids, m, i);
  }

  lemma BackwardAt(ids: seq<int>, m: nat, i: nat)
    requires m < |ids| && i < |ids|
    ensures Wrap(m - i + |ids|, |ids|) < |ids|
    ensures ids[Wrap(m - i + |ids|, |ids|)] == Rotation(Reversed(ids), |ids| - 1 - m)[i]
  {
    hide Wrap, Rotation, Reversed;
    WrapBelowTwice(m - i + |ids|, |ids|);
    var r := Reversed(ids);
    RotationAt(r, |ids| - 1 - m, i);
  }

  /** The first loop of `cycleKey`. */
  method FindMinimum(ids: seq<int>) returns (minI: nat)
    requires |ids| > 0
    ensures minI == MinIndex(ids)
  {
    minI := 0;
    for i := 1 to |ids|
      invariant minI < i && minI == MinIndex(ids[..i])
    {
      assert ids[..i + 1][..i] == ids[..i];
      if ids[i] < ids[minI] {
        minI := i;
      }
    }
    assert ids[..|ids|] == ids;
  }

  /** The second loop of `cycleKey`: both directions, written into two buffers. */
  method FillBuffers(ids: seq<int>, minI: nat) returns (fwd: array<int>, rev: array<int>)
    requires minI < |ids|
    ensures fwd[..] == Rotation(ids, minI) && rev[..] == Rotation(Reversed(ids), |ids| - 1 - minI)
  {
    var n := |ids|;
    ghost var f, r := Rotation(ids, minI), Rotation(Reversed(ids), n - 1 - minI);
    hide Rotation, Reversed, Wrap;
    fwd, rev := new int[n], new int[n];
    for i := 0 to n
      invariant forall j :: 0 <= j < i ==> fwd[j] == f[j] && rev[j] == r[j]
    {
      ForwardAt(ids, minI, i);
      BackwardAt(ids, minI, i);
      fwd[i] := ids[Wrap(minI + i, n)];
      rev[i] := ids[Wrap(minI - i + n, n)];
    }
    assert fwd[..] == f && rev[..] == r;
  }

  method CycleKey(ids: seq<int>) returns (key: string)
    ensures key == Key(ids)
  {
    if |ids| == 0 {
      return "";
    }
    var minI := FindMinimum(ids);
    var fwd, rev := FillBuffers(ids, minI);
    var sf, sr := Render(fwd[..]), Render(rev[..]);
    if Less(sf, sr) {
      return sf;
    }
    return sr;
  }
}
