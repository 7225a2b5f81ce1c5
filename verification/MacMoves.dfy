/** Address-table diffs as patches: replaying the moves between two polls. */
module MacMoves {
  import opened Graph

  type Table = map<string, int>

  /** A MAC appears (`from` is None), leaves (`to` is None) or moves. */
  datatype Move = Move(mac: string, from: Option<int>, to: Option<int>)

  function Look(t: Table, mac: string): Option<int> {
    if mac in t then Some(t[mac]) else None
  }

  function Write(t: Table, mac: string, port: Option<int>): Table {
    if port.Some? then t[mac := port.value] else map m | m in t && m != mac :: t[m]
  }

  /** Applies the moves in order. */
  function Replay(t: Table, moves: seq<Move>): Table
    decreases |moves|
  {
    if |moves| == 0 then t
    else
      var last := moves[|moves| - 1];
      Write(Replay(t, moves[..|moves| - 1]), last.mac, last.to)
  }

  function Inverse(m: Move): Move {
    Move(m.mac, m.to, m.from)
  }

  function Inverses(moves: seq<Move>): seq<Move> {
    seq(|moves|, i requires 0 <= i < |moves| => Inverse(moves[i]))
  }

  // ----- the tables are keyed by trimmed lower-case addresses

  predicate IsSpace(c: char) {
    c == ' ' || '\t' <= c <= '\r'
  }

  function TrimLeft(s: string): string {
    if |s| > 0 && IsSpace(s[0]) then TrimLeft(s[1..]) else s
  }

  function TrimRight(s: string): string {
    if |s| > 0 && IsSpace(s[|s| - 1]) then TrimRight(s[..|s| - 1]) else s
  }

  function Lower(c: char): char {
    if 'A' <= c <= 'Z' then c + ('a' - 'A') else c
  }

  function Normal(mac: string): string {
    var t := TrimRight(TrimLeft(mac));
    seq(|t|, i requires 0 <= i < |t| => Lower(t[i]))
  }

  ghost predicate Blank(c: char) {
    c == ' ' || c == '\t' || c == '\n' || c == 11 as char || c == 12 as char || c == '\r'
  }

  /** `s[i..j]` is what is left of the text without the blanks around it. */
  ghost predicate IsCore(s: string, i: int, j: int) {
    && 0 <= i <= j <= |s| && (forall k :: 0 <= k < |s| && (k < i || k >= j) ==> Blank(s[k]))
    && (i < j ==> !Blank(s[i]) && !Blank(s[j - 1]))
  }

  ghost predicate SameLetter(c: char, d: char) {
    || c == d
    || ('A' <= c <= 'Z' && d as int == c as int + 32)
    || ('A' <= d <= 'Z' && c as int == d as int + 32)
  }

  ghost predicate Caseless(s: string, t: string) {
    |s| == |t| && forall k :: 0 <= k < |s| ==> SameLetter(s[k], t[k])
  }

  /** Two spellings of one address: equal but for blanks around them and the case of
      ASCII letters. */
  ghost predicate SameSpelling(s: string, t: string) {
    exists i, j, k, l :: IsCore(s, i, j) && IsCore(t, k, l) && Caseless(s[i..j], t[k..l])
  }

  lemma {:induction false} TrimLeftDrops(s: string, i: nat)
    requires i <= |s| && (forall k :: 0 <= k < i ==> Blank(s[k])) && (i < |s| ==> !Blank(s[i]))
    ensures TrimLeft(s) == s[i..]
    decreases i
  {
    if i > 0 {
      TrimLeftDrops(s[1..], i - 1);
    }
  }

  lemma {:induction false} TrimRightDrops(s: string, j: nat)
    requires j <= |s| && (forall k :: j <= k < |s| ==> Blank(s[k])) && (j > 0 ==> !Blank(s[j - 1]))
    ensures TrimRight(s) == s[..j]
    decreases |s|
  {
    if j < |s| {
      TrimRightDrops(s[..|s| - 1], j);
      assert s[..|s| - 1][..j] == s[..j];
    } else {
      assert s[..j] == s;
    }
  }

  /** The core is what trimming leaves. */
  lemma CoreIsTrimmed(s: string, i: int, j: int)
    requires IsCore(s, i, j)
    ensures TrimRight(TrimLeft(s)) == s[i..j]
  {
    if i == j {
      TrimLeftDrops(s, |s|);
    } else {
      TrimLeftDrops(s, i);
      TrimRightDrops(s[i..], j - i);
      assert s[i..][..j - i] == s[i..j];
    }
  }

  lemma {:induction false} CoreExists(s: string) returns (i: int, j: int)
    ensures IsCore(s, i, j)
    decreases |s|
  {
    if |s| == 0 {
      i, j := 0, 0;
    } else if Blank(s[0]) {
      i, j := CoreExists(s[1..]);
      i, j := i + 1, j + 1;
      assert forall k :: 0 < k < |s| ==> s[k] == s[1..][k - 1];
    } else if Blank(s[|s| - 1]) {
      i, j := CoreExists(s[..|s| - 1]);
    } else {
      i, j := 0, |s|;
    }
  }

  lemma LowerMeans(c: char, d: char)
    ensures Lower(c) == Lower(d) <==> SameLetter(c, d)
  {
  }

  /** Two addresses share one key exactly when they are spellings of one. */
  lemma NormalIffSameSpelling(s: string, t: string)
    ensures Normal(s) == Normal(t) <==> SameSpelling(s, t)
  {
    hide Blank, TrimLeft, TrimRight, Lower, SameLetter;
    var i, j := CoreExists(s);
    var k, l := CoreExists(t);
    CoreIsTrimmed(s, i, j);
    CoreIsTrimmed(t, k, l);
    NormalCores(s, t, s[i..j], t[k..l]);
    if SameSpelling(s, t) {
      var i', j', k', l' :| IsCore(s, i', j') && IsCore(t, k', l') && Caseless(s[i'..j'], t[k'..l']);
      CoreIsTrimmed(s, i', j');
      CoreIsTrimmed(t, k', l');
    }
  }

  lemma NormalCores(s: string, t: string, a: string, b: string)
    requires TrimRight(TrimLeft(s)) == a && TrimRight(TrimLeft(t)) == b
    ensures Normal(s) == Normal(t) <==> Caseless(a, b)
  {
    hide TrimLeft, TrimRight, Lower, SameLetter;
    forall c, d
      ensures Lower(c) == Lower(d) <==> SameLetter(c, d)
    {
      LowerMeans(c, d);
    }
    if Normal(s) == Normal(t) {
      forall k | 0 <= k < |a|
        ensures SameLetter(a[k], b[k])
      {
        assert Normal(s)[k] == Lower(a[k]) && Normal(t)[k] == Lower(b[k]);
      }
    }
  }

  ghost predicate ComesFrom(input: Table, m: string, port: int) {
    exists raw :: raw in input && Normal(raw) == m && input[raw] == port
  }

  /** Every address that is not blank is kept, under its normal form; of several
      with one normal form any may win. */
  ghost predicate IsNormalForm(input: Table, t: Table) {
    && (forall raw :: raw in input && Normal(raw) != "" ==> Normal(raw) in t)
    && (forall m :: m in t ==> m != "" && ComesFrom(input, m, t[m]))
  }

  method NormalizeIfMap(input: Table) returns (t: Table)
    ensures IsNormalForm(input, t)
  {
    hide Normal;
    t := map[];
    var rest := set m | m in input;
    while rest != {}
      invariant forall m :: m in rest ==> m in input
      invariant forall raw :: raw in input && raw !in rest && Normal(raw) != "" ==> Normal(raw) in t
      invariant forall m :: m in t ==> m != "" && ComesFrom(input, m, t[m])
      decreases |rest|
    {
      ghost var some := Member(rest);
      var raw :| raw in rest;
      rest := rest - {raw};
      if Normal(raw) != "" {
        assert ComesFrom(input, Normal(raw), input[raw]);
        t := t[Normal(raw) := input[raw]];
      }
    }
  }

  /** On a table already in normal form nothing changes. */
  lemma NormalFormIsKept(input: Table, t: Table)
    requires IsNormalForm(input, t) && forall raw :: raw in input ==> raw != "" && Normal(raw) == raw
    ensures t == input
  {
    hide Normal;
    forall m | m in t
      ensures m in input && t[m] == input[m]
    {
      assert ComesFrom(input, m, t[m]);
    }
    forall m | m in input
      ensures m in t
    {
      assert Normal(m) in t;
    }
  }

  // ----- what the diff lists

  ghost predicate Changed(prev: Table, cur: Table, mac: string) {
    Look(prev, mac) != Look(cur, mac)
  }

  /** The port that decides: the new one, or the old one of a MAC that left. */
  ghost predicate Positive(prev: Table, cur: Table, mac: string) {
    if mac in cur then cur[mac] > 0 else mac in prev && prev[mac] > 0
  }

  ghost predicate Listed(moves: seq<Move>, mac: string) {
    exists i :: 0 <= i < |moves| && moves[i].mac == mac
  }

  ghost predicate OncePerMac(moves: seq<Move>) {
    forall i, j :: 0 <= i < j < |moves| ==> moves[i].mac != moves[j].mac
  }

  ghost predicate RightMove(prev: Table, cur: Table, m: Move) {
    m.from == Look(prev, m.mac) && m.to == Look(cur, m.mac)
  }

  /** One move for every changed MAC with a positive port, and no other. */
  ghost predicate IsDiff(prev: Table, cur: Table, moves: seq<Move>) {
    && OncePerMac(moves)
    && (forall i :: 0 <= i < |moves| ==> RightMove(prev, cur, moves[i]))
    && (forall mac :: Listed(moves, mac) <==> Changed(prev, cur, mac) && Positive(prev, cur, mac))
  }

  lemma ListedOneMore(moves: seq<Move>, m: Move)
    ensures forall mac :: Listed(moves + [m], mac) <==> Listed(moves, mac) || mac == m.mac
  {
    var more := moves + [m];
    forall mac
      ensures Listed(more, mac) <==> Listed(moves, mac) || mac == m.mac
    {
      if Listed(moves, mac) {
        var i :| 0 <= i < |moves| && moves[i].mac == mac;
        assert more[i].mac == mac;
      }
      assert more[|moves|] == m;
    }
  }

  /** The moves so far: those of the MACs looked at. */
  ghost predicate Partial(prev: Table, cur: Table, moves: seq<Move>, rest: set<string>, second: bool) {
    && OncePerMac(moves)
    && (forall i :: 0 <= i < |moves| ==> RightMove(prev, cur, moves[i]))
    && (forall mac :: Listed(moves, mac) <==>
          Changed(prev, cur, mac) && Positive(prev, cur, mac) && mac !in rest && (second || mac in cur))
  }

  lemma PartialGrows(prev: Table, cur: Table, moves: seq<Move>, rest: set<string>, second: bool, m: Move)
    requires Partial(prev, cur, moves, rest, second) && RightMove(prev, cur, m) && m.mac in rest
    requires Changed(prev, cur, m.mac) && Positive(prev, cur, m.mac) && (second || m.mac in cur)
    ensures Partial(prev, cur, moves + [m], rest - {m.mac}, second)
  {
    hide Listed, Changed, Positive;
    ListedOneMore(moves, m);
    var more := moves + [m];
    forall i, j | 0 <= i < j < |more|
      ensures more[i].mac != more[j].mac
    {
      if j == |moves| {
        ListedAt(moves, i);
      }
    }
  }

  lemma ListedAt(moves: seq<Move>, i: nat)
    requires i < |moves|
    ensures Listed(moves, moves[i].mac)
  {
  }

  lemma PartialSkips(prev: Table, cur: Table, moves: seq<Move>, rest: set<string>, second: bool, mac: string)
    requires Partial(prev, cur, moves, rest, second) && mac in rest
    requires !(Changed(prev, cur, mac) && Positive(prev, cur, mac) && (second || mac in cur))
    ensures Partial(prev, cur, moves, rest - {mac}, second)
  {
    hide Listed, Changed, Positive;
  }

  /** The first loop, over the current table. */
  method ComputeArrivals(prev: Table, cur: Table) returns (moves: seq<Move>)
    requires "" !in cur
    ensures Partial(prev, cur, moves, {}, false)
  {
    moves := [];
    var rest := set m | m in cur;
    hide Partial;
    NothingYet(prev, cur, rest);
    while rest != {}
      invariant forall m :: m in rest ==> m in cur
      invariant Partial(prev, cur, moves, rest, false)
      decreases |rest|
    {
      ghost var some := Member(rest);
      var mac :| mac in rest;
      if mac == "" || cur[mac] <= 0 || Look(prev, mac) == Some(cur[mac]) {
        PartialSkips(prev, cur, moves, rest, false, mac);
      } else {
        var m := Move(mac, Look(prev, mac), Some(cur[mac]));
        PartialGrows(prev, cur, moves, rest, false, m);
        moves := moves + [m];
      }
      rest := rest - {mac};
    }
  }

  lemma NothingYet(prev: Table, cur: Table, rest: set<string>)
    requires forall m :: m in cur ==> m in rest
    ensures Partial(prev, cur, [], rest, false)
  {
  }

  lemma OtherHalf(prev: Table, cur: Table, moves: seq<Move>, rest: set<string>)
    requires Partial(prev, cur, moves, {}, false)
    requires forall m :: m in rest <==> m in prev && m !in cur
    ensures Partial(prev, cur, moves, rest, true)
  {
    hide Listed, OncePerMac, RightMove;
  }

  /** The second loop, over the MACs that are gone. */
  method ComputeDepartures(prev: Table, cur: Table, arrivals: seq<Move>) returns (moves: seq<Move>)
    requires Partial(prev, cur, arrivals, {}, false) && "" !in prev
    ensures IsDiff(prev, cur, moves)
  {
    moves := arrivals;
    var rest := set m | m in prev;
    ghost var gone := set m | m in prev && m !in cur;
    OtherHalf(prev, cur, moves, gone);
    hide Partial, IsDiff;
    while rest != {}
      invariant forall m :: m in rest ==> m in prev
      invariant forall m :: m in gone <==> m in rest && m !in cur
      invariant Partial(prev, cur, moves, gone, true)
      decreases |rest|
    {
      ghost var some := Member(rest);
      var mac :| mac in rest;
      if mac !in cur {
        if mac == "" || prev[mac] <= 0 {
          PartialSkips(prev, cur, moves, gone, true, mac);
        } else {
          var m := Move(mac, Some(prev[mac]), None);
          PartialGrows(prev, cur, moves, gone, true, m);
          moves := moves + [m];
        }
      }
      rest := rest - {mac};
      gone := gone - {mac};
    }
    Complete(prev, cur, moves, gone);
  }

  lemma Complete(prev: Table, cur: Table, moves: seq<Move>, gone: set<string>)
    requires Partial(prev, cur, moves, gone, true) && forall m :: m !in gone
    ensures IsDiff(prev, cur, moves)
  {
    hide Listed, OncePerMac, RightMove;
  }

  /** The moves between the normal forms of two tables. */
  ghost predicate IsMoveReport(prev: Table, cur: Table, moves: seq<Move>) {
    exists p, c :: IsNormalForm(prev, p) && IsNormalForm(cur, c) && IsDiff(p, c, moves)
  }

  method ComputeMacFdbMoves(prev: Table, cur: Table) returns (moves: seq<Move>)
    ensures IsMoveReport(prev, cur, moves)
  {
    hide ComesFrom, IsDiff, Partial;
    var p := NormalizeIfMap(prev);
    var c := NormalizeIfMap(cur);
    moves := ComputeArrivals(p, c);
    moves := ComputeDepartures(p, c, moves);
  }

  // ----- diff and patch undo each other

  lemma WriteLooks(t: Table, mac: string, port: Option<int>, x: string)
    ensures Look(Write(t, mac, port), x) == if x == mac then port else Look(t, x)
  {
  }

  /** With one move per MAC the order does not matter. */
  lemma {:induction false} ReplayLooks(t: Table, moves: seq<Move>, x: string)
    requires OncePerMac(moves)
    ensures !Listed(moves, x) ==> Look(Replay(t, moves), x) == Look(t, x)
    ensures forall i :: 0 <= i < |moves| && moves[i].mac == x ==> Look(Replay(t, moves), x) == moves[i].to
    decreases |moves|
  {
    hide Write, Look;
    if |moves| > 0 {
      var init, last := moves[..|moves| - 1], moves[|moves| - 1];
      ReplayLooks(t, init, x);
      WriteLooks(Replay(t, init), last.mac, last.to, x);
      if Listed(init, x) {
        var i :| 0 <= i < |init| && init[i].mac == x;
        assert moves[i].mac == x;
      }
      if last.mac == x {
        assert moves[|moves| - 1].mac == x;
      }
    }
  }

  lemma SameLooks(a: Table, b: Table)
    ensures a == b <==> forall x :: Look(a, x) == Look(b, x)
  {
    if forall x :: Look(a, x) == Look(b, x) {
      forall x | x in a
        ensures x in b && a[x] == b[x]
      {
        assert Look(a, x) == Look(b, x);
      }
      forall x | x in b
        ensures x in a
      {
        assert Look(a, x) == Look(b, x);
      }
    }
  }

  lemma DiffLooks(prev: Table, cur: Table, moves: seq<Move>, x: string)
    requires IsDiff(prev, cur, moves)
    ensures Look(Replay(prev, moves), x) ==
            if Changed(prev, cur, x) && !Positive(prev, cur, x) then Look(prev, x) else Look(cur, x)
  {
    hide Replay, Positive, Look;
    ReplayLooks(prev, moves, x);
    if Listed(moves, x) {
      var i :| 0 <= i < |moves| && moves[i].mac == x;
      assert RightMove(prev, cur, moves[i]);
    }
  }

  /** No changed MAC has a port that hides the change. */
  ghost predicate AllVisible(prev: Table, cur: Table) {
    forall x :: Changed(prev, cur, x) ==> Positive(prev, cur, x)
  }

  /** Patching the old table gives the new one, exactly when every change is visible. */
  lemma PatchGivesCurrent(prev: Table, cur: Table, moves: seq<Move>)
    requires IsDiff(prev, cur, moves)
    ensures Replay(prev, moves) == cur <==> AllVisible(prev, cur)
  {
    hide Replay, Positive, IsDiff, Look;
    SameLooks(Replay(prev, moves), cur);
    forall x
      ensures Look(Replay(prev, moves), x) == Look(cur, x) <==>
              (Changed(prev, cur, x) ==> Positive(prev, cur, x))
    {
      DiffLooks(prev, cur, moves, x);
    }
  }

  lemma InversesLooks(prev: Table, cur: Table, moves: seq<Move>, x: string)
    requires IsDiff(prev, cur, moves)
    ensures Look(Replay(cur, Inverses(moves)), x) ==
            if Changed(prev, cur, x) && !Positive(prev, cur, x) then Look(cur, x) else Look(prev, x)
  {
    hide Replay, Positive, Look;
    var back := Inverses(moves);
    assert forall i :: 0 <= i < |moves| ==> back[i] == Inverse(moves[i]);
    ReplayLooks(cur, back, x);
    if Listed(moves, x) {
      var i :| 0 <= i < |moves| && moves[i].mac == x;
      assert RightMove(prev, cur, moves[i]);
      assert back[i].mac == x;
    }
  }

  /** The inverse patch takes the new table back. */
  lemma InversePatchGivesPrevious(prev: Table, cur: Table, moves: seq<Move>)
    requires IsDiff(prev, cur, moves)
    ensures Replay(cur, Inverses(moves)) == prev <==> AllVisible(prev, cur)
  {
    hide Replay, Positive, IsDiff, Inverses, Look;
    SameLooks(Replay(cur, Inverses(moves)), prev);
    forall x
      ensures Look(Replay(cur, Inverses(moves)), x) == Look(prev, x) <==>
              (Changed(prev, cur, x) ==> Positive(prev, cur, x))
    {
      InversesLooks(prev, cur, moves, x);
    }
  }

  /** On tables already in normal form the two patches take each table to the other. */
  lemma MovesPatch(prev: Table, cur: Table, moves: seq<Move>)
    requires IsMoveReport(prev, cur, moves)
    requires forall raw :: raw in prev ==> raw != "" && Normal(raw) == raw
    requires forall raw :: raw in cur ==> raw != "" && Normal(raw) == raw
    ensures Replay(prev, moves) == cur <==> AllVisible(prev, cur)
    ensures Replay(cur, Inverses(moves)) == prev <==> AllVisible(prev, cur)
  {
    hide Normal, IsNormalForm, IsDiff, Replay, Inverses, AllVisible;
    var p, c :| IsNormalForm(prev, p) && IsNormalForm(cur, c) && IsDiff(p, c, moves);
    NormalFormIsKept(prev, p);
    NormalFormIsKept(cur, c);
    PatchGivesCurrent(prev, cur, moves);
    InversePatchGivesPrevious(prev, cur, moves);
  }

  /** Tables as the address-table walk fills them, with positive ports only: the
      moves always patch, in both directions. */
  lemma PositiveTablesPatch(prev: Table, cur: Table, moves: seq<Move>)
    requires IsDiff(prev, cur, moves)
    requires (forall m :: m in prev ==> prev[m] > 0) && (forall m :: m in cur ==> cur[m] > 0)
    ensures Replay(prev, moves) == cur && Replay(cur, Inverses(moves)) == prev
  {
    assert AllVisible(prev, cur);
    hide IsDiff, Replay, Inverses;
    PatchGivesCurrent(prev, cur, moves);
    InversePatchGivesPrevious(prev, cur, moves);
  }

  /** A MAC that changes to port 0 gives no move, so the replay misses it. */
  lemma ZeroPortIsMissed(moves: seq<Move>)
    ensures var prev, cur := map["aa" := 1], map["aa" := 0];
            IsDiff(prev, cur, []) && (IsDiff(prev, cur, moves) ==> Replay(prev, moves) != cur)
  {
    var prev, cur: Table := map["aa" := 1], map["aa" := 0];
    assert Changed(prev, cur, "aa") && !Positive(prev, cur, "aa");
    if IsDiff(prev, cur, moves) {
      PatchGivesCurrent(prev, cur, moves);
    }
  }
}
