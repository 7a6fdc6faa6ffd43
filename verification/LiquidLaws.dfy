/** What one look at a liquid keeps, and what it loses: laws of Liquid.Distributed. */
module LiquidLaws {
  import Arithmetic
  import opened Liquid
  import opened Wrappers

  // ----- sums -----

  lemma SumUpdate(w: seq<int>, i: nat, x: int)
    requires |w| == 7 && i < 7
    ensures Sum(w[i := x]) == Sum(w) - Pos(w[i]) + Pos(x)
    ensures SameSum(w[i := x]) == if 1 <= i < 6 then SameSum(w) - Pos(w[i]) + Pos(x) else SameSum(w)
  {
    if i == 0 {} else if i == 1 {} else if i == 2 {} else if i == 3 {} else if i == 4 {} else if i == 5 {} else {}
  }

  lemma TimesCount(v: View, x: nat)
    requires |v.liquid| == 7
    ensures x * SameCount(v) == x * One(v.liquid[1]) + x * One(v.liquid[2]) + x * One(v.liquid[3]) +
                                x * One(v.liquid[4]) + x * One(v.liquid[5])
  {
  }

  lemma OneTerm(open: bool, a: int, x: nat)
    requires !open ==> a == -1
    ensures open ==> a >= x ==> Pos(a) >= x * One(open)
    ensures !open ==> Pos(a) == x * One(open)
    ensures open ==> a <= x ==> Pos(a) <= x * One(open)
  {
  }

  /** Sums over the cells of one level, when each holds at least or at most `x`. */
  lemma SameSumBounds(v: View, w: seq<int>, x: nat)
    requires |w| == |v.liquid| == 7 && forall i :: 0 <= i < 7 && !v.liquid[i] ==> w[i] == -1
    ensures (forall i :: 1 <= i < 6 && v.liquid[i] ==> w[i] >= x) ==> SameSum(w) >= x * SameCount(v)
    ensures (forall i :: 1 <= i < 6 && v.liquid[i] ==> w[i] <= x) ==> SameSum(w) <= x * SameCount(v)
  {
    hide SameCount, One, Pos;
    OneTerm(v.liquid[1], w[1], x);
    OneTerm(v.liquid[2], w[2], x);
    OneTerm(v.liquid[3], w[3], x);
    OneTerm(v.liquid[4], w[4], x);
    OneTerm(v.liquid[5], w[5], x);
    TimesCount(v, x);
  }

  lemma SumOfParts(w: seq<int>)
    requires |w| == 7
    ensures Sum(w) == Pos(w[BOTTOM]) + SameSum(w) + Pos(w[TOP])
  {
  }

  lemma AtLeastSum(a: seq<int>, b: seq<int>)
    requires |a| == |b| == 7 && forall i: nat :: i < 7 ==> Pos(a[i]) >= Pos(b[i])
    ensures Sum(a) >= Sum(b)
  {
    hide Pos;
  }

  lemma PermutedSum(parts: seq<int>, turn: nat)
    requires |parts| == 7
    ensures var r := Row(turn);
            parts[r[1]] + parts[r[2]] + parts[r[3]] + parts[r[4]] + parts[r[5]] ==
            parts[1] + parts[2] + parts[3] + parts[4] + parts[5]
  {
    var n := turn % 4;
    if n == 0 {} else if n == 1 {} else if n == 2 {} else {}
  }

  lemma PlaceOf(row: seq<nat>, i: nat) returns (l: nat)
    requires IsRow(row) && i < 7
    ensures l < 7 && row[l] == i && (1 <= i < 6 ==> 1 <= l < 6)
  {
    assert i in row;
    l :| 0 <= l < 7 && row[l] == i;
  }

  // ----- handing out one by one -----

  lemma {:induction false} WaitingGrows(row: seq<nat>, may: set<nat>, from: nat, a: nat, b: nat)
    requires from <= a <= b <= |row|
    ensures Waiting(row, may, from, a) <= Waiting(row, may, from, b)
    decreases b
  {
    if a < b {
      WaitingGrows(row, may, from, a, b - 1);
    }
  }

  lemma GetsNext(row: seq<nat>, may: set<nat>, from: nat, l: nat, total: int)
    requires from <= l < |row|
    ensures var left := Remaining(total, Waiting(row, may, from, l));
            && One(Gets(row, may, from, l, total)) == One(row[l] in may && left > 0)
            && Remaining(total, Waiting(row, may, from, l + 1)) == left - One(Gets(row, may, from, l, total))
  {
  }

  /** Of the cells at places `from` up to `until` of the order, the first `total` that may have one unit
      more got it; nothing else changed. */
  ghost predicate HandedOut(w: seq<int>, w': seq<int>, row: seq<nat>, may: set<nat>, from: nat, until: nat, total: int)
    requires |w| == |w'| == 7 && IsRow(row) && from <= until <= 7
  {
    forall l: nat :: l < 7 ==> w'[row[l]] == w[row[l]] + One(from <= l < until && Gets(row, may, from, l, total))
  }

  lemma HandNext(w: seq<int>, w': seq<int>, row: seq<nat>, may: set<nat>, from: nat, until: nat, total: int)
    requires |w| == |w'| == 7 && IsRow(row) && from <= until < 7
    requires HandedOut(w, w', row, may, from, until, total)
    ensures w'[row[until]] == w[row[until]]
    ensures var x := w'[row[until]] + One(Gets(row, may, from, until, total));
            HandedOut(w, w'[row[until] := x], row, may, from, until + 1, total)
  {
    hide Gets;
  }

  /** The closed form of handing out in order. */
  lemma {:induction false} HandedExactly(w: seq<int>, row: seq<nat>, may: set<nat>, from: nat, until: nat, total: int)
    requires |w| == 7 && IsRow(row) && AreCells(row) && from <= until <= 7
    ensures HandedOut(w, Handed(w, row, may, from, until, total), row, may, from, until, total)
    decreases until
  {
    if from < until {
      HandedExactly(w, row, may, from, until - 1, total);
      HandNext(w, Handed(w, row, may, from, until - 1, total), row, may, from, until - 1, total);
    }
    hide Gets, IsRow;
  }

  /** Once nothing is left, no later cell of the order gets anything, so stopping early changes nothing. */
  lemma {:induction false} HandedNoMore(w: seq<int>, row: seq<nat>, may: set<nat>, from: nat, j: nat, until: nat, total: int)
    requires |w| == |row| == 7 && AreCells(row) && from <= j <= until <= 7
    requires Remaining(total, Waiting(row, may, from, j)) < 1
    ensures Handed(w, row, may, from, until, total) == Handed(w, row, may, from, j, total)
    ensures Remaining(total, Waiting(row, may, from, until)) == Remaining(total, Waiting(row, may, from, j))
    decreases until
  {
    if j < until {
      HandedNoMore(w, row, may, from, j, until - 1, total);
      GetsNext(row, may, from, until - 1, total);
      hide Gets, Waiting, Remaining;
    }
  }

  /** What is handed out is taken from what is in hand. */
  lemma {:induction false} HandedSum(w: seq<int>, row: seq<nat>, max: int, from: nat, until: nat, total: int)
    requires |w| == 7 && IsRow(row) && AreCells(row) && from <= until <= 7
    ensures Sum(Handed(w, row, Room(w, max), from, until, total)) == Sum(w) + HandedTotal(w, row, max, from, until, total)
    decreases until
  {
    if from < until {
      HandedSum(w, row, max, from, until - 1, total);
      HandedStep(w, row, max, from, until, total);
    }
    hide Sum, HandedTotal, Handed, Room, IsRow;
  }

  lemma {:induction false} HandedSameSum(w: seq<int>, row: seq<nat>, max: int, from: nat, until: nat, total: int)
    requires |w| == 7 && IsRow(row) && AreCells(row) && 1 <= from <= until <= 6
    ensures SameSum(Handed(w, row, Room(w, max), from, until, total)) == SameSum(w) + HandedTotal(w, row, max, from, until, total)
    decreases until
  {
    if from < until {
      HandedSameSum(w, row, max, from, until - 1, total);
      HandedStep(w, row, max, from, until, total);
      InSameLevel(row, until - 1);
    }
    hide SameSum, HandedTotal, Handed, Room, IsRow;
  }

  /** How much has been handed out. */
  ghost function HandedTotal(w: seq<int>, row: seq<nat>, max: int, from: nat, until: nat, total: int): int
    requires |w| == |row| == 7 && from <= until <= 7
  {
    total - Remaining(total, Waiting(row, Room(w, max), from, until))
  }

  lemma HandedStep(w: seq<int>, row: seq<nat>, max: int, from: nat, until: nat, total: int)
    requires |w| == 7 && IsRow(row) && AreCells(row) && from < until <= 7
    ensures var before, after := Handed(w, row, Room(w, max), from, until - 1, total), Handed(w, row, Room(w, max), from, until, total);
            var one := HandedTotal(w, row, max, from, until, total) - HandedTotal(w, row, max, from, until - 1, total);
            && Sum(after) == Sum(before) + one
            && SameSum(after) == SameSum(before) + if 1 <= row[until - 1] < 6 then one else 0
  {
    assert |row| == 7;
    hide Sum, SameSum, Waiting, Remaining, Room, IsRow, HandedOut, Gets;
    var before := Handed(w, row, Room(w, max), from, until - 1, total);
    HandedExactly(w, row, Room(w, max), from, until - 1, total);
    HandNext(w, before, row, Room(w, max), from, until - 1, total);
    GetsNext(row, Room(w, max), from, until - 1, total);
    HandedOne(w, before, row, max, from, until - 1, total);
  }

  lemma HandedOne(w: seq<int>, before: seq<int>, row: seq<nat>, max: int, from: nat, l: nat, total: int)
    requires |w| == |before| == |row| == 7 && AreCells(row) && from <= l < 7 && before[row[l]] == w[row[l]]
    ensures var one := One(Gets(row, Room(w, max), from, l, total));
            var after := before[row[l] := before[row[l]] + one];
            && Sum(after) == Sum(before) + one
            && SameSum(after) == SameSum(before) + if 1 <= row[l] < 6 then one else 0
  {
    var one := One(Gets(row, Room(w, max), from, l, total));
    assert one == 1 ==> 0 <= w[row[l]];
    SumUpdate(before, row[l], before[row[l]] + one);
    hide Sum, SameSum, Gets;
  }

  lemma InSameLevel(row: seq<nat>, l: nat)
    requires IsRow(row) && l < 7
    ensures 1 <= l < 6 ==> 1 <= row[l] < 6
  {
  }

  lemma HandedTargets(v: View, k: Kind, g: Stage, row: seq<nat>, from: nat, until: nat, max: nat)
    requires |v.liquid| == |g.want| == 7 && IsRow(row) && AreCells(row) && from <= until <= 7
    requires Targets(v, g.want, k.Cap()) && max <= k.Cap()
    ensures Targets(v, HandedOn(g, row, from, until, max).want, k.Cap())
  {
    var may := Room(g.want, max);
    var r := Handed(g.want, row, may, from, until, g.left);
    HandedExactly(g.want, row, may, from, until, g.left);
    forall i: nat | i < 7
      ensures r[i] == g.want[i] || (i in may && r[i] == g.want[i] + 1)
    {
      var l := PlaceOf(row, i);
    }
    hide Handed, HandedOut, IsRow;
  }

  lemma RemainingBounds(total: int, n: nat)
    ensures Remaining(total, n) <= total && (total >= 0 ==> Remaining(total, n) >= 0)
  {
  }

  // ----- filling the cells of one level -----

  /** What the cells served from place `from` of the order on receive at `share` each. */
  ghost function Shares(v: View, row: seq<nat>, from: nat, share: nat): (n: nat)
    requires |v.liquid| == 7 && 1 <= from <= 6 && IsRow(row)
    decreases 6 - from
  {
    if from == 6 then 0 else (if v.liquid[row[from]] then share else 0) + Shares(v, row, from + 1, share)
  }

  lemma UnrollShares(v: View, row: seq<nat>, share: nat)
    requires |v.liquid| == 7 && IsRow(row)
    ensures Shares(v, row, 1, share) ==
            share * One(v.liquid[row[1]]) + share * One(v.liquid[row[2]]) + share * One(v.liquid[row[3]]) +
            share * One(v.liquid[row[4]]) + share * One(v.liquid[row[5]])
  {
    assert Shares(v, row, 5, share) == share * One(v.liquid[row[5]]);
    assert Shares(v, row, 4, share) == share * One(v.liquid[row[4]]) + Shares(v, row, 5, share);
    assert Shares(v, row, 3, share) == share * One(v.liquid[row[3]]) + Shares(v, row, 4, share);
    assert Shares(v, row, 2, share) == share * One(v.liquid[row[2]]) + Shares(v, row, 3, share);
  }

  lemma AllShares(v: View, turn: nat, share: nat)
    requires |v.liquid| == 7
    ensures Shares(v, Row(turn), 1, share) == share * SameCount(v)
  {
    var parts := seq(7, i requires 0 <= i < 7 => share * One(v.liquid[i]));
    TimesCount(v, share);
    UnrollShares(v, Row(turn), share);
    hide SameCount, Shares, One, Row;
    PermutedSum(parts, turn);
  }

  /** The cells of one level that the liquid can enter hold between `low` and `high`. */
  ghost predicate SameWithin(v: View, w: seq<int>, low: int, high: int)
    requires |w| == |v.liquid| == 7
  {
    forall i :: 1 <= i < 6 && v.liquid[i] ==> low <= w[i] <= high
  }

  /** At most `n` above the share, and not above the normal level because of that. */
  function Above(k: Kind, share: nat, n: nat): int {
    Max(share, Min(share + n, k.levelMax))
  }

  /** The cells at places 1 up to `j` of the order have their share, and the first `total` of those
      that may have it a unit more; nothing else changed. */
  ghost predicate Shared(v: View, first: seq<int>, w: seq<int>, row: seq<nat>, j: nat, share: nat, may: set<nat>, total: int)
    requires |v.liquid| == |first| == |w| == 7 && IsRow(row) && 1 <= j <= 6
  {
    forall l: nat :: l < 7 ==>
      w[row[l]] == if 1 <= l < j && v.liquid[row[l]] then share + One(Gets(row, may, 1, l, total)) else first[row[l]]
  }

  lemma SharedNext(v: View, first: seq<int>, w: seq<int>, row: seq<nat>, j: nat, share: nat, may: set<nat>, total: int)
    requires |v.liquid| == |first| == |w| == 7 && IsRow(row) && 1 <= j < 6 && v.liquid[row[j]]
    requires Shared(v, first, w, row, j, share, may, total)
    ensures Shared(v, first, w[row[j] := share + One(Gets(row, may, 1, j, total))], row, j + 1, share, may, total)
  {
    hide Gets;
  }

  lemma SharedSkips(v: View, first: seq<int>, w: seq<int>, row: seq<nat>, j: nat, share: nat, may: set<nat>, total: int)
    requires |v.liquid| == |first| == |w| == 7 && IsRow(row) && 1 <= j < 6 && !v.liquid[row[j]]
    requires Shared(v, first, w, row, j, share, may, total)
    ensures Shared(v, first, w, row, j + 1, share, may, total)
  {
    hide Gets;
  }

  /** The closed form of sharing in order. */
  lemma {:induction false} SharedExactly(v: View, w: seq<int>, row: seq<nat>, j: nat, share: nat, may: set<nat>, total: int)
    requires |v.liquid| == |w| == 7 && IsRow(row) && AreCells(row) && 1 <= j <= 6
    ensures Shared(v, w, SharedOut(v, w, row, j, share, may, total), row, j, share, may, total)
    decreases j
  {
    if j > 1 {
      var before := SharedOut(v, w, row, j - 1, share, may, total);
      SharedExactly(v, w, row, j - 1, share, may, total);
      hide Gets, Shared, IsRow;
      if v.liquid[row[j - 1]] {
        SharedNext(v, w, before, row, j - 1, share, may, total);
      } else {
        SharedSkips(v, w, before, row, j - 1, share, may, total);
      }
    }
  }

  /** The shares given and the units handed out add up. */
  lemma {:induction false} SharedSum(v: View, w: seq<int>, row: seq<nat>, j: nat, share: nat, may: set<nat>, total: int)
    requires |v.liquid| == |w| == 7 && IsRow(row) && AreCells(row) && 1 <= j <= 6
    requires forall i: nat :: i in may ==> i < 7 && v.liquid[i]
    requires SameWithin(v, w, 0, 0) && SameSum(w) == 0
    ensures SameSum(SharedOut(v, w, row, j, share, may, total)) + Remaining(total, Waiting(row, may, 1, j)) +
            Shares(v, row, j, share) == total + Shares(v, row, 1, share)
    decreases j
  {
    if j > 1 {
      SharedSum(v, w, row, j - 1, share, may, total);
      SharedStep(v, w, row, j - 1, share, may, total);
      hide SameSum, Shares, Waiting, Remaining, SharedOut;
    } else {
      assert Waiting(row, may, 1, 1) == 0;
    }
  }

  /** One more cell of the level is served. */
  lemma SharedStep(v: View, w: seq<int>, row: seq<nat>, j: nat, share: nat, may: set<nat>, total: int)
    requires |v.liquid| == |w| == 7 && IsRow(row) && AreCells(row) && 1 <= j < 6 && SameWithin(v, w, 0, 0)
    requires row[j] in may ==> v.liquid[row[j]]
    ensures SameSum(SharedOut(v, w, row, j + 1, share, may, total)) - SameSum(SharedOut(v, w, row, j, share, may, total)) ==
            Shares(v, row, j, share) - Shares(v, row, j + 1, share) +
            Remaining(total, Waiting(row, may, 1, j)) - Remaining(total, Waiting(row, may, 1, j + 1))
  {
    var before, i := SharedOut(v, w, row, j, share, may, total), row[j];
    var more := One(Gets(row, may, 1, j, total));
    SharedExactly(v, w, row, j, share, may, total);
    NotYetShared(v, w, before, row, j, share, may, total);
    GetsNext(row, may, 1, j, total);
    assert Shares(v, row, j, share) - Shares(v, row, j + 1, share) == if v.liquid[i] then share else 0;
    hide SameSum, Shares, Waiting, Remaining, Shared, IsRow, SameWithin;
    if v.liquid[i] {
      SumUpdate(before, i, share + more);
    }
  }

  lemma NotYetShared(v: View, first: seq<int>, w: seq<int>, row: seq<nat>, j: nat, share: nat, may: set<nat>, total: int)
    requires |v.liquid| == |first| == |w| == 7 && IsRow(row) && 1 <= j < 6 && SameWithin(v, first, 0, 0)
    requires Shared(v, first, w, row, j, share, may, total)
    ensures 1 <= row[j] < 6 && (v.liquid[row[j]] ==> w[row[j]] == 0)
  {
    hide Gets;
  }

  lemma NothingSame(v: View, w: seq<int>)
    requires |v.liquid| == |w| == 7 && SameWithin(v, w, 0, 0) && forall i :: 1 <= i < 6 && !v.liquid[i] ==> w[i] == -1
    ensures SameSum(w) == 0
  {
  }

  lemma ShareWithin(v: View, k: Kind, first: seq<int>, w: seq<int>, row: seq<nat>, share: nat, loopcount: nat, total: int)
    requires |v.liquid| == |v.level| == |first| == |w| == 7 && IsRow(row)
    requires Shared(v, first, w, row, 6, share, Thirsty(v, k, share, loopcount), total)
    ensures w[BOTTOM] == first[BOTTOM] && w[TOP] == first[TOP]
    ensures SameWithin(v, w, share, Above(k, share, 1))
    ensures forall i: nat :: 1 <= i < 6 && !v.liquid[i] ==> w[i] == first[i]
  {
    assert w[row[0]] == first[row[0]] && w[row[6]] == first[row[6]];
    forall i: nat | 1 <= i < 6
      ensures if v.liquid[i] then share <= w[i] <= Above(k, share, 1) else w[i] == first[i]
    {
      var l := PlaceOf(row, i);
    }
  }

  /** Filling the cells of one level gives each its share and at most a unit more. */
  lemma FilledFacts(v: View, k: Kind, t: Tick, g: Stage, share: nat)
    requires |v.liquid| == |v.level| == |g.want| == 7 && k.Proper() && share <= k.Cap()
    requires Targets(v, g.want, k.Cap()) && SameWithin(v, g.want, 0, 0)
    ensures var r := Filled(v, k, t, g, share);
            && Targets(v, r.want, k.Cap()) && SameWithin(v, r.want, share, Above(k, share, 1))
            && r.want[BOTTOM] == g.want[BOTTOM] && r.want[TOP] == g.want[TOP]
            && SameSum(r.want) + r.left == g.left + share * SameCount(v)
            && (g.left >= 0 ==> r.left >= 0)
  {
    hide SameSum, SameCount, Shared, SharedOut, Row, IsRow, Waiting, Remaining, SameWithin;
    var row, may := Row(t.Turn(1)), Thirsty(v, k, share, t.loopcount);
    assert (forall i: nat :: i in may ==> i < 7 && v.liquid[i]) && Shares(v, row, 6, share) == 0;
    hide Shares, Thirsty;
    var r := Filled(v, k, t, g, share);
    NothingSame(v, g.want);
    SharedExactly(v, g.want, row, 6, share, may, g.left);
    SharedSum(v, g.want, row, 6, share, may, g.left);
    AllShares(v, t.Turn(1), share);
    ShareWithin(v, k, g.want, r.want, row, share, t.loopcount, g.left);
    RemainingBounds(g.left, Waiting(row, may, 1, 6));
    LevelTargets(v, k.Cap(), g.want, r.want, share, Above(k, share, 1));
  }

  lemma LevelTargets(v: View, cap: int, first: seq<int>, w: seq<int>, low: nat, high: int)
    requires |v.liquid| == |first| == |w| == 7 && Targets(v, first, cap) && high <= cap && SameWithin(v, w, low, high)
    requires w[BOTTOM] == first[BOTTOM] && w[TOP] == first[TOP]
    requires forall i: nat :: 1 <= i < 6 && !v.liquid[i] ==> w[i] == first[i]
    ensures Targets(v, w, cap)
  {
  }

  /** The rest is handed out within the level. */
  lemma LevelledFacts(v: View, k: Kind, t: Tick, g: Stage, share: nat)
    requires |v.liquid| == |v.level| == |g.want| == 7 && k.Proper() && share <= k.Cap()
    requires Targets(v, g.want, k.Cap()) && SameWithin(v, g.want, 0, 0)
    ensures var r := Levelled(v, k, t, g, share);
            && Targets(v, r.want, k.Cap()) && SameWithin(v, r.want, share, Above(k, share, 2))
            && r.want[BOTTOM] == g.want[BOTTOM] && r.want[TOP] == g.want[TOP]
            && SameSum(r.want) + r.left == g.left + share * SameCount(v)
            && (g.left >= 0 ==> r.left >= 0)
            && (r.left > 0 && share < k.levelMax ==> SameSum(r.want) >= (share + 1) * SameCount(v))
  {
    var f, row := Filled(v, k, t, g, share), Row(t.Turn(2));
    var may := Room(f.want, k.levelMax);
    FilledFacts(v, k, t, g, share);
    HandedTargets(v, k, f, row, SELF, TOP, k.levelMax);
    HandedSameSum(f.want, row, k.levelMax, SELF, TOP, f.left);
    HandedExactly(f.want, row, may, SELF, TOP, f.left);
    RemainingBounds(f.left, Waiting(row, may, SELF, TOP));
    hide Sum, SameSum, SameCount, Handed, HandedOut, Filled, Row, IsRow, Waiting, Remaining, Above, SameWithin, Room;
    RestHanded(v, k, f.want, Levelled(v, k, t, g, share).want, row, share, f.left);
  }

  lemma RestHanded(v: View, k: Kind, w: seq<int>, w': seq<int>, row: seq<nat>, share: nat, total: int)
    requires |w| == |w'| == |v.liquid| == 7 && IsRow(row) && Targets(v, w', k.Cap())
    requires SameWithin(v, w, share, Above(k, share, 1))
    requires HandedOut(w, w', row, Room(w, k.levelMax), SELF, TOP, total)
    ensures w'[BOTTOM] == w[BOTTOM] && w'[TOP] == w[TOP]
    ensures SameWithin(v, w', share, Above(k, share, 2))
    ensures Remaining(total, Waiting(row, Room(w, k.levelMax), SELF, TOP)) > 0 && share < k.levelMax ==>
              SameSum(w') >= (share + 1) * SameCount(v)
  {
    var may := Room(w, k.levelMax);
    assert w'[row[0]] == w[row[0]] && w'[row[6]] == w[row[6]];
    forall i: nat | 1 <= i < 6 && v.liquid[i]
      ensures share <= w'[i] <= Above(k, share, 2)
      ensures Remaining(total, Waiting(row, may, SELF, TOP)) > 0 && share < k.levelMax ==> w'[i] >= share + 1
    {
      hide *;
      RestHandedTo(v, k, w, w', row, share, total, i);
    }
    hide Waiting, IsRow, HandedOut, Room, SameCount, SameSum;
    SameSumBounds(v, w', share + 1);
  }

  lemma RestHandedTo(v: View, k: Kind, w: seq<int>, w': seq<int>, row: seq<nat>, share: nat, total: int, i: nat)
    requires |w| == |w'| == |v.liquid| == 7 && IsRow(row) && SameWithin(v, w, share, Above(k, share, 1))
    requires HandedOut(w, w', row, Room(w, k.levelMax), SELF, TOP, total) && 1 <= i < 6 && v.liquid[i]
    ensures share <= w'[i] <= Above(k, share, 2)
    ensures Remaining(total, Waiting(row, Room(w, k.levelMax), SELF, TOP)) > 0 && share < k.levelMax ==> w'[i] >= share + 1
  {
    assert share <= w[i] <= Above(k, share, 1);
    assert |row| == 7;
    hide Waiting, SameWithin, IsRow, HandedOut;
    var l := PlaceOf(row, i);
    var may := Room(w, k.levelMax);
    assert i in may <==> w[i] < k.levelMax;
    hide Room;
    HandedAt(w, w', row, may, SELF, TOP, total, l);
    WaitingGrows(row, may, SELF, l, TOP);
  }

  lemma HandedAt(w: seq<int>, w': seq<int>, row: seq<nat>, may: set<nat>, from: nat, until: nat, total: int, l: nat)
    requires |w| == |w'| == 7 && IsRow(row) && from <= l < until <= 7 && HandedOut(w, w', row, may, from, until, total)
    ensures row[l] < 7 && w'[row[l]] == w[row[l]] + One(Gets(row, may, from, l, total))
  {
    hide Gets;
  }

  // ----- what each cell of the level gets -----

  lemma LevelBound(v: View, cap: nat)
    requires v.Valid(cap)
    ensures Sum(v.level) <= cap * AllCount(v) && AllCount(v) >= SameCount(v) >= 1
    ensures SameCount(v) == AllCount(v) - One(v.liquid[BOTTOM]) - One(v.liquid[TOP])
  {
    SameSumBounds(v, v.level, cap);
    assert cap * AllCount(v) == cap * One(v.liquid[BOTTOM]) + cap * SameCount(v) + cap * One(v.liquid[TOP]) by {
      Distribute(cap, One(v.liquid[BOTTOM]), SameCount(v), One(v.liquid[TOP]));
    }
    hide SameCount, SameSum;
  }

  lemma Distribute(x: int, a: int, b: int, c: int)
    ensures x * (a + b + c) == x * a + x * b + x * c
  {
  }

  lemma ShareBounds(k: Kind, average: nat, total: int, same: nat)
    requires same >= 1 && 0 <= total && average <= k.levelMax
    ensures var share := Share(k, average, total, same);
            && 0 <= share <= k.levelMax
            && 0 <= total - share * same
            && (share < k.levelMax ==> total - share * same < same && total < k.levelMax * same)
  {
    if total < k.levelMax * same {
      var q := total / same;
      assert total == q * same + total % same;
      QuotientBelow(total, k.levelMax, same);
    }
  }

  lemma QuotientBelow(total: nat, max: nat, same: nat)
    requires same >= 1 && total < max * same
    ensures total / same < max
  {
    var q := total / same;
    assert total == q * same + total % same;
    if q >= max {
      Arithmetic.ProductOrder(q, max, same);
      assert false;
    }
  }

  lemma AverageBound(total: int, cap: nat, all: nat)
    requires all >= 1 && 0 <= total <= cap * all
    ensures 0 <= total / all <= cap && total / all * all <= total
  {
    var q := total / all;
    assert total == q * all + total % all;
    Arithmetic.ProductOrder(cap, q, all);
  }

  lemma ViewSize(v: View, cap: nat)
    requires v.Valid(cap)
    ensures |v.liquid| == |v.level| == |v.endless| == 7 && v.liquid[SELF]
    ensures forall i :: 0 <= i < 7 && v.liquid[i] ==> v.level[i] >= 0
    ensures !v.liquid[TOP] ==> v.level[TOP] == -1
    ensures v.liquid[BOTTOM] ==> v.bottomLoaded
  {
  }

  /** The average level of the cells, and the units above it. */
  function Mean(v: View): nat
    requires |v.liquid| == |v.level| == 7 && v.liquid[SELF]
  {
    Sum(v.level) / AllCount(v)
  }

  function Spare(v: View): nat
    requires |v.liquid| == |v.level| == 7 && v.liquid[SELF]
  {
    Sum(v.level) % AllCount(v)
  }

  /** The average is above the normal level, which happens only under pressure. */
  predicate High(v: View, k: Kind)
    requires |v.liquid| == |v.level| == 7 && v.liquid[SELF]
  {
    k.pressure != 0 && Mean(v) > k.levelMax
  }

  lemma AverageIs(v: View, k: Kind)
    requires |v.liquid| == |v.level| == 7 && v.liquid[SELF]
    ensures var average := Average(k, Sum(v.level), AllCount(v));
            average == if k.pressure == 0 && Mean(v) != 0 then k.levelMax else Mean(v)
  {
    hide Sum, AllCount;
  }

  lemma NoTopUp(v: View, k: Kind, s: Settings, t: Tick, total: int, same: nat)
    requires |v.level| == 7
    ensures total >= k.levelMax * same ==> RelaxedUp(v, k, s, t, total, same) == total
  {
    hide LakeSurface, NearWaterLevel, Missing;
  }

  lemma NoDrying(v: View, k: Kind, s: Settings, t: Tick, share: int, total: int, same: nat)
    requires |v.level| == 7
    ensures share > 0 ==> RelaxedDown(v, k, s, t, share, total, same) == total
    ensures total >= 0 ==> 0 <= RelaxedDown(v, k, s, t, share, total, same) <= total
  {
    hide LakeSurface, NearWaterLevel, Missing;
  }

  /** What a cell takes of `x` units. */
  function Part(v: View, i: nat, x: nat): nat
    requires |v.liquid| == 7 && i < 7
  {
    if v.liquid[i] then x else 0
  }

  lemma PartIsProduct(v: View, i: nat, x: nat)
    requires |v.liquid| == 7 && i < 7
    ensures Part(v, i, x) == x * One(v.liquid[i])
  {
  }

  /** Volume, cells and average of a view. */
  lemma Volumes(v: View, k: Kind)
    requires Flows(v, k)
    ensures |v.liquid| == |v.level| == 7 && v.liquid[SELF]
    ensures var all, same := AllCount(v), SameCount(v);
            var below, above := One(v.liquid[BOTTOM]), One(v.liquid[TOP]);
            && same >= 1 && 0 <= Spare(v) < all && all == below + same + above
            && Sum(v.level) == Part(v, BOTTOM, Mean(v)) + Mean(v) * same + Part(v, TOP, Mean(v)) + Spare(v)
            && Sum(v.level) <= Part(v, BOTTOM, k.Cap()) + k.Cap() * same + Part(v, TOP, k.Cap())
            && Mean(v) <= k.Cap() && (Mean(v) == k.Cap() ==> Spare(v) == 0)
  {
    ViewSize(v, k.Cap());
    LevelBound(v, k.Cap());
    Distribute(Mean(v), One(v.liquid[BOTTOM]), SameCount(v), One(v.liquid[TOP]));
    Distribute(k.Cap(), One(v.liquid[BOTTOM]), SameCount(v), One(v.liquid[TOP]));
    Divided(Sum(v.level), AllCount(v), k.Cap());
    PartIsProduct(v, BOTTOM, Mean(v));
    PartIsProduct(v, TOP, Mean(v));
    PartIsProduct(v, BOTTOM, k.Cap());
    PartIsProduct(v, TOP, k.Cap());
    hide Part, Mean, Spare, Sum, SameCount, AllCount, SameSum, v.Valid, k.Cap;
  }

  lemma Divided(total: nat, all: nat, cap: nat)
    requires all >= 1 && total <= cap * all
    ensures total == total / all * all + total % all && 0 <= total % all < all && total / all <= cap
    ensures total / all == cap ==> total % all == 0
  {
    AverageBound(total, cap, all);
    assert total == total / all * all + total % all;
  }

  lemma FixAbove(v: View, k: Kind, s: Settings, t: Tick)
    requires v.Valid(k.Cap())
    ensures |v.liquid| == |v.level| == 7
    ensures 0 <= One(AboveUnloaded(v, k, s, t)) <= 1 && (One(AboveUnloaded(v, k, s, t)) > 0 ==> v.liquid[TOP] && !v.liquid[BOTTOM])
  {
  }

  /** Above the normal level every cell gets the average. */
  lemma HighPortion(v: View, k: Kind, s: Settings, t: Tick)
    requires Flows(v, k) && |v.liquid| == |v.level| == 7 && v.liquid[SELF] && High(v, k)
    ensures var p := Portioned(v, k, s, t);
            && p.bottom == (if v.liquid[BOTTOM] then Mean(v) else -1) && p.share == Mean(v) <= k.Cap() && p.lake == 0
            && p.total == Spare(v) + (if v.liquid[TOP] then Mean(v) else 0) - p.fix
            && p.fix == One(AboveUnloaded(v, k, s, t)) && (p.fix > 0 ==> v.liquid[TOP])
            && Pos(p.bottom) + p.share * SameCount(v) + p.total == Sum(v.level) - p.fix
  {
    var same, average, fix := SameCount(v), Mean(v), One(AboveUnloaded(v, k, s, t));
    var bottom := if v.liquid[BOTTOM] then average else -1;
    var fallen := Sum(v.level) - Pos(bottom);
    var product := average * same;
    Volumes(v, k);
    HighFall(v, k);
    FixAbove(v, k, s, t);
    MoreForEach(average, k.levelMax, same);
    hide Sum, SameCount, AllCount, v.Valid, k.Cap, Mean, Spare, Average, Flows, One, AboveUnloaded, Fallen, Portioned, RelaxedUp,
      RelaxedDown, Share, High;
    NoTopUp(v, k, s, t, fallen, same);
    NoDrying(v, k, s, t, average, fallen - fix - product, same);
    PortionIs(v, k, s, t, bottom, fallen, average, fallen - fix - product);
  }

  lemma MoreForEach(a: nat, b: nat, n: nat)
    requires a >= b
    ensures a * n >= b * n
  {
  }

  lemma HighFall(v: View, k: Kind)
    requires k.Proper() && |v.liquid| == |v.level| == 7 && v.liquid[SELF] && High(v, k)
    ensures var average := Average(k, Sum(v.level), AllCount(v));
            && average == Mean(v) > k.levelMax
            && Fallen(v, k, average, Sum(v.level)) == (if v.liquid[BOTTOM] then Mean(v) else -1)
            && forall total :: Share(k, average, total, SameCount(v)) == average
  {
    AverageIs(v, k);
    hide Mean, Average, Sum, AllCount, SameCount;
  }

  /** The steps of the calculation. */
  lemma PortionIs(v: View, k: Kind, s: Settings, t: Tick, bottom: int, relaxed: int, share: int, kept: int)
    requires |v.liquid| == |v.level| == 7 && v.liquid[SELF]
    requires var total, same, average := Sum(v.level), SameCount(v), Average(k, Sum(v.level), AllCount(v));
             var fix := One(AboveUnloaded(v, k, s, t));
             && bottom == Fallen(v, k, average, total)
             && relaxed == RelaxedUp(v, k, s, t, total - Pos(bottom), same)
             && share == Share(k, average, relaxed - fix, same)
             && kept == RelaxedDown(v, k, s, t, share, relaxed - fix - share * same, same)
    ensures var same, fix := SameCount(v), One(AboveUnloaded(v, k, s, t));
            Portioned(v, k, s, t) ==
              Portion(bottom, share, kept, relaxed - (Sum(v.level) - Pos(bottom)) + (kept - (relaxed - fix - share * same)), fix)
  {
    hide Sum, SameCount, AllCount, AboveUnloaded, RelaxedUp, RelaxedDown, Average, Fallen, Share, Pos;
  }

  /** Up to the normal level the cell below is filled first. */
  lemma LowFall(v: View, k: Kind, s: Settings, t: Tick)
    requires Flows(v, k) && |v.liquid| == |v.level| == 7 && v.liquid[SELF] && !High(v, k)
    ensures var total, same, average := Sum(v.level), SameCount(v), Average(k, Sum(v.level), AllCount(v));
            var bottom, fix := Fallen(v, k, average, total), One(AboveUnloaded(v, k, s, t));
            var fallen := total - Pos(bottom);
            && average <= k.levelMax && bottom == (if v.liquid[BOTTOM] then Min(total, k.levelMax) else -1)
            && 0 <= fallen && fix <= fallen
  {
    Volumes(v, k);
    AverageIs(v, k);
    FixAbove(v, k, s, t);

    hide Sum, SameCount, AllCount, AboveUnloaded, v.Valid, k.Cap, Mean, Spare, Average;
  }

  /** What `LowPortion` says, of numbers. */
  lemma LowNumbers(max: nat, total: nat, same: nat, open: bool, bottom: nat, relaxed: int, fix: nat, share: int, kept: int)
    requires same >= 1 && bottom == (if open then Min(total, max) else 0) && fix <= total - bottom && max >= 1
    requires relaxed == total - bottom || total - bottom < relaxed == max * same
    requires 0 <= share <= max && 0 <= kept <= relaxed - fix - share * same
    requires share < max ==> relaxed - fix - share * same < same && relaxed - fix < max * same
    requires share > 0 ==> kept == relaxed - fix - share * same
    ensures share < max ==> kept < same && (fix == 0 ==> total < max * same + if open then max else 0)
    ensures share == max ==>
              || kept == total - max * same - (if open then max else 0) - fix
              || (kept == 0 && (fix == 0 ==> total < max * same + if open then max else 0))
  {
    Arithmetic.ProductOrder(same, 1, max);
  }

  /** How the portion comes about up to the normal level. */
  lemma LowParts(v: View, k: Kind, s: Settings, t: Tick) returns (relaxed: int)
    requires Flows(v, k) && |v.liquid| == |v.level| == 7 && v.liquid[SELF] && !High(v, k)
    ensures var p, total, same := Portioned(v, k, s, t), Sum(v.level), SameCount(v);
            && p.bottom == (if v.liquid[BOTTOM] then Min(total, k.levelMax) else -1)
            && p.fix == One(AboveUnloaded(v, k, s, t)) <= total - Pos(p.bottom) && (p.fix > 0 ==> v.liquid[TOP])
            && (relaxed == total - Pos(p.bottom) || total - Pos(p.bottom) < relaxed == k.levelMax * same)
            && 0 <= p.share <= k.levelMax && 0 <= p.total <= relaxed - p.fix - p.share * same
            && (p.share < k.levelMax ==> relaxed - p.fix - p.share * same < same && relaxed - p.fix < k.levelMax * same)
            && (p.share > 0 ==> p.total == relaxed - p.fix - p.share * same)
            && p.lake == relaxed - (total - Pos(p.bottom)) + p.total - (relaxed - p.fix - p.share * same)
  {
    var total, same := Sum(v.level), SameCount(v);
    var average := Average(k, total, AllCount(v));
    relaxed := RelaxedUp(v, k, s, t, total - Pos(Fallen(v, k, average, total)), same);
    var fix := One(AboveUnloaded(v, k, s, t));
    LowFall(v, k, s, t);
    FixAbove(v, k, s, t);
    ShareBounds(k, average, relaxed - fix, same);
    var share := Share(k, average, relaxed - fix, same);
    var rest := relaxed - fix - share * same;
    NoDrying(v, k, s, t, share, rest, same);
    hide Sum, SameCount, AllCount, LakeSurface, NearWaterLevel, Missing, v.Valid, RelaxedUp, RelaxedDown, Average, Share,
      AboveUnloaded, Fallen, Portioned, High, Flows;
    PortionIs(v, k, s, t, Fallen(v, k, average, total), relaxed, share, RelaxedDown(v, k, s, t, share, rest, same));
  }

  /** Up to the normal level every cell gets the same share, and less than one unit for each is left
      over, or only what does not fit below and into the level. */
  lemma LowPortion(v: View, k: Kind, s: Settings, t: Tick)
    requires Flows(v, k) && |v.liquid| == |v.level| == 7 && v.liquid[SELF] && !High(v, k)
    ensures var p, total := Portioned(v, k, s, t), Sum(v.level);
            && p.bottom == (if v.liquid[BOTTOM] then Min(total, k.levelMax) else -1) && 0 <= p.share <= k.levelMax && p.total >= 0
            && p.fix == One(AboveUnloaded(v, k, s, t)) && (p.fix > 0 ==> v.liquid[TOP])
            && Pos(p.bottom) + p.share * SameCount(v) + p.total == total + p.lake - p.fix
    ensures var p, total, same := Portioned(v, k, s, t), Sum(v.level), SameCount(v);
            && (p.share < k.levelMax ==>
                  p.total < same && (p.fix == 0 ==> total < k.levelMax * same + Part(v, BOTTOM, k.levelMax)))
            && (p.share == k.levelMax ==>
                  || p.total == total - k.levelMax * same - Part(v, BOTTOM, k.levelMax) - p.fix
                  || (p.total == 0 && (p.fix == 0 ==> total < k.levelMax * same + Part(v, BOTTOM, k.levelMax))))
  {
    assert k.levelMax >= 1;
    hide Portioned, Sum, SameCount, Flows, High, AboveUnloaded, v.Valid, k.Cap;
    var p := Portioned(v, k, s, t);
    var relaxed := LowParts(v, k, s, t);
    LowNumbers(k.levelMax, Sum(v.level), SameCount(v), v.liquid[BOTTOM], Pos(p.bottom), relaxed, p.fix, p.share, p.total);
  }

  /** Lakes gain or lose only at their surface. */
  lemma LakeOnly(v: View, k: Kind, s: Settings, t: Tick)
    requires Flows(v, k) && |v.liquid| == |v.level| == 7 && v.liquid[SELF]
    ensures var lake := Portioned(v, k, s, t).lake;
            && (lake > 0 ==> LakeSurface(v, k, s) && NearWaterLevel(s, t.y))
            && (lake < 0 ==> LakeSurface(v, k, s) && t.y == s.waterLevel + 1)
  {
    if High(v, k) {
      HighPortion(v, k, s, t);
    } else {
      LowPortion(v, k, s, t);
    }
    hide LakeSurface, NearWaterLevel, Missing, v.Valid, Sum, SameCount, AllCount, High, Share, Average, Fallen, AboveUnloaded,
      RelaxedUp, RelaxedDown;
  }

  // ----- where a liquid settles -----

  lemma TargetAt(v: View, cap: int, w: seq<int>, i: nat)
    requires |v.liquid| == |w| == 7 && Targets(v, w, cap) && i < 7
    ensures if v.liquid[i] then 0 <= w[i] <= cap else w[i] == -1
  {
  }

  /** One cell gets another target. */
  lemma PutFacts(v: View, cap: int, w: seq<int>, i: nat, x: int)
    requires |v.liquid| == |w| == 7 && Targets(v, w, cap) && i < 7 && v.liquid[i] && 0 <= x <= cap
    ensures Targets(v, w[i := x], cap) && Sum(w[i := x]) == Sum(w) - w[i] + x && w[i] >= 0
  {
    SumUpdate(w, i, x);
    hide Sum, SameSum;
  }

  lemma PutOrLeave(v: View, cap: int, w: seq<int>, i: nat, add: nat)
    requires |v.liquid| == |w| == 7 && Targets(v, w, cap) && i < 7
    requires v.liquid[i] ==> w[i] + add <= cap
    requires !v.liquid[i] ==> add == 0
    ensures Targets(v, w[i := w[i] + add], cap) && Sum(w[i := w[i] + add]) == Sum(w) + add
  {
    SumUpdate(w, i, w[i] + add);
    hide Sum, SameSum;
  }

  /** The cell above takes what it can at its normal level. */
  lemma UpFacts(v: View, k: Kind, g: Stage)
    requires |v.liquid| == |g.want| == 7 && k.Proper() && Targets(v, g.want, k.Cap())
    requires v.liquid[TOP] && g.want[TOP] <= k.levelMax && g.left > 0
    ensures var up := Min(g.left, k.levelMax - Pos(g.want[TOP]));
            var w := g.want[TOP := Pos(g.want[TOP]) + up];
            && 0 <= up <= g.left && Targets(v, w, k.Cap()) && Sum(w) == Sum(g.want) + up
  {
    var up := Min(g.left, k.levelMax - Pos(g.want[TOP]));
    PutFacts(v, k.Cap(), g.want, TOP, Pos(g.want[TOP]) + up);
    hide Sum, Targets;
  }

  lemma HandedOnFacts(v: View, k: Kind, g: Stage, turn: nat)
    requires |v.liquid| == |g.want| == 7 && Targets(v, g.want, k.Cap())
    ensures var r := HandedOn(g, Row(turn), 0, 7, k.Cap());
            Targets(v, r.want, k.Cap()) && Sum(r.want) + r.left == Sum(g.want) + g.left && (g.left >= 0 ==> r.left >= 0)
  {
    var row := Row(turn);
    HandedTargets(v, k, g, row, 0, 7, k.Cap());
    HandedSum(g.want, row, k.Cap(), 0, 7, g.left);
    RemainingBounds(g.left, Waiting(row, Room(g.want, k.Cap()), 0, 7));
    hide Sum, Row, IsRow, Handed, Waiting, Remaining, Room, Targets;
  }

  lemma RaisedFacts(v: View, k: Kind, t: Tick, g: Stage)
    requires |v.liquid| == |g.want| == 7 && k.Proper() && Targets(v, g.want, k.Cap())
    requires v.liquid[TOP] ==> g.want[TOP] <= k.levelMax
    ensures var r := Raised(v, k, t, g);
            && Targets(v, r.want, k.Cap()) && Sum(r.want) + r.left == Sum(g.want) + g.left && (g.left >= 0 ==> r.left >= 0)
  {
    hide Sum, Targets, HandedOn, Row;
    if v.liquid[TOP] && g.left > 0 {
      var up := Min(g.left, k.levelMax - Pos(g.want[TOP]));
      UpFacts(v, k, g);
      HandedOnFacts(v, k, Stage(g.want[TOP := Pos(g.want[TOP]) + up], g.left - up), t.Turn(3));
    }
  }

  lemma MovedFacts(v: View, k: Kind, w: seq<int>, i: nat, j: nat)
    requires |v.liquid| == |w| == 7 && Targets(v, w, k.Cap()) && i < 7 && j < 7 && i != j
    requires v.liquid[j] && w[i] > 0 && w[j] < k.Cap()
    ensures Targets(v, Moved(w, i, j), k.Cap()) && Sum(Moved(w, i, j)) == Sum(w)
  {
    hide Sum, Targets, k.Cap;
    TargetAt(v, k.Cap(), w, i);
    TargetAt(v, k.Cap(), w, j);
    PutFacts(v, k.Cap(), w, i, w[i] - 1);
    PutFacts(v, k.Cap(), w[i := w[i] - 1], j, w[j] + 1);
  }

  lemma SunkFacts(v: View, k: Kind, w: seq<int>)
    requires |v.liquid| == |w| == 7 && v.liquid[SELF] && Targets(v, w, k.Cap())
    ensures Targets(v, Sunk(v, k, w), k.Cap()) && Sum(Sunk(v, k, w)) == Sum(w)
  {
    hide Sum, Targets, Moved;
    if v.liquid[BOTTOM] && w[BOTTOM] < k.Cap() {
      if w[TOP] > 0 {
        MovedFacts(v, k, w, TOP, BOTTOM);
      } else if w[SELF] > k.levelMax && w[SELF] >= w[BOTTOM] {
        MovedFacts(v, k, w, SELF, BOTTOM);
      }
    } else if w[SELF] < k.Cap() && w[TOP] > k.levelMax && w[TOP] >= w[SELF] {
      MovedFacts(v, k, w, TOP, SELF);
    }
  }

  lemma FallenBounds(v: View, k: Kind)
    requires Flows(v, k)
    ensures |v.liquid| == |v.level| == 7 && v.liquid[SELF]
    ensures v.liquid[BOTTOM] ==> 0 <= Fallen(v, k, Average(k, Sum(v.level), AllCount(v)), Sum(v.level)) <= k.Cap()
  {
    Volumes(v, k);
    AverageIs(v, k);
    assert k.levelMax <= k.Cap();
    hide Sum, AllCount, SameCount, Mean, Spare, Average, v.Valid, k.Cap;
  }

  /** The portion of either case. */
  lemma PortionFacts(v: View, k: Kind, s: Settings, t: Tick)
    requires Flows(v, k)
    ensures |v.liquid| == |v.level| == |v.endless| == 7 && v.liquid[SELF]
    ensures var p := Portioned(v, k, s, t);
            && (if v.liquid[BOTTOM] then 0 <= p.bottom <= k.Cap() else p.bottom == -1)
            && 0 <= p.share <= k.Cap() && p.total >= 0 && p.fix == One(AboveUnloaded(v, k, s, t))
            && Pos(p.bottom) + p.share * SameCount(v) + p.total == Sum(v.level) + p.lake - p.fix
  {
    ViewSize(v, k.Cap());
    assert k.levelMax <= k.Cap();
    FixAbove(v, k, s, t);
    if High(v, k) {
      HighPortion(v, k, s, t);
    } else {
      LowPortion(v, k, s, t);
    }
    hide v.Valid, Sum, SameCount, AllCount, High, Portioned, AboveUnloaded, One, Mean, Spare, k.Cap;
  }

  lemma StartFacts(v: View, cap: nat, bottom: int)
    requires |v.liquid| == 7 && if v.liquid[BOTTOM] then 0 <= bottom <= cap else bottom == -1
    ensures var w := Empty(v)[BOTTOM := bottom];
            && Targets(v, w, cap) && SameWithin(v, w, 0, 0) && w[BOTTOM] == bottom && w[TOP] == (if v.liquid[TOP] then 0 else -1)
  {
  }

  /** The cells of the level after they have been filled. */
  lemma LevelFacts(v: View, k: Kind, s: Settings, t: Tick)
    requires Flows(v, k)
    ensures |v.liquid| == |v.level| == |v.endless| == 7 && v.liquid[SELF]
    ensures var p := Portioned(v, k, s, t);
            var g := Levelled(v, k, t, Stage(Empty(v)[BOTTOM := p.bottom], p.total), p.share);
            && 0 <= p.share <= k.Cap()
            && Targets(v, g.want, k.Cap()) && SameWithin(v, g.want, p.share, Above(k, p.share, 2))
            && g.want[BOTTOM] == p.bottom && g.want[TOP] == (if v.liquid[TOP] then 0 else -1)
            && SameSum(g.want) + g.left == p.total + p.share * SameCount(v) && g.left >= 0
            && (g.left > 0 && p.share < k.levelMax ==> SameSum(g.want) >= (p.share + 1) * SameCount(v))
  {
    hide v.Valid, Sum, SameSum, SameCount, Portioned, AboveUnloaded, Levelled, Above, SameWithin, Targets, k.Cap, Empty;
    FlowsFacts(v, k);
    var p := Portioned(v, k, s, t);
    PortionFacts(v, k, s, t);
    StartFacts(v, k.Cap(), p.bottom);
    LevelledFacts(v, k, t, Stage(Empty(v)[BOTTOM := p.bottom], p.total), p.share);
  }

  /** Settling accounts for the old volume. */
  lemma SettleFacts(v: View, k: Kind, s: Settings, t: Tick)
    requires Flows(v, k)
    ensures |v.liquid| == |v.level| == |v.endless| == 7 && v.liquid[SELF]
    ensures var p, g := Portioned(v, k, s, t), Settle(v, k, s, t);
            && Targets(v, g.want, k.Cap()) && g.left >= 0 && Sum(g.want) + g.left == Sum(v.level) + p.lake - p.fix
  {
    var p := Portioned(v, k, s, t);
    PortionFacts(v, k, s, t);
    LevelFacts(v, k, s, t);
    var g := Levelled(v, k, t, Stage(Empty(v)[BOTTOM := p.bottom], p.total), p.share);
    SumOfParts(g.want);
    hide v.Valid, Sum, SameSum, SameCount, Portioned, AboveUnloaded, Levelled, Raised, Above, SameWithin, Targets, k.Cap, Sunk;
    RaisedFacts(v, k, t, g);
    SunkFacts(v, k, Raised(v, k, t, g).want);
  }

  /** Where the volume `total0 + made` of a liquid without pressure ends up: the cell below is filled
      first, then the level, and only what that cannot take rises. */
  ghost predicate Settled(v: View, k: Kind, w: seq<int>, total0: nat, made: int)
    requires |w| == |v.liquid| == 7
  {
    var bottom := if v.liquid[BOTTOM] then Min(total0, k.levelMax) else 0;
    var rest := total0 - bottom + made;
    && Pos(w[BOTTOM]) == bottom
    && SameSum(w) == Min(rest, k.levelMax * SameCount(v))
    && Pos(w[TOP]) == rest - SameSum(w)
    && (exists share: nat :: share <= k.levelMax && SameWithin(v, w, share, Above(k, share, 2)) && share * SameCount(v) <= SameSum(w))
  }

  lemma RestRises(v: View, k: Kind, w: seq<int>, w': seq<int>, total0: nat, share: nat, total: int, made: int, left: int)
    requires v.Valid(k.Cap()) && k.Proper() && k.pressure == 0 && Targets(v, w, k.Cap())
    requires w[BOTTOM] == if v.liquid[BOTTOM] then Min(total0, k.levelMax) else -1
    requires v.liquid[TOP] ==> w[TOP] == 0
    requires Pos(w[BOTTOM]) + share * SameCount(v) + total == total0 + made
    requires 0 <= total && share <= k.levelMax
    requires SameSum(w) <= total + share * SameCount(v) && SameWithin(v, w, share, Above(k, share, 2))
    requires share < k.levelMax ==> total < SameCount(v)
    requires share == k.levelMax ==> total <= if v.liquid[TOP] then k.levelMax else 0
    requires var rest := total + share * SameCount(v) - SameSum(w);
             && (rest > 0 && share < k.levelMax ==> SameSum(w) >= (share + 1) * SameCount(v))
             && w' == (if v.liquid[TOP] && rest > 0 then w[TOP := Min(rest, k.levelMax)] else w)
             && left == (if v.liquid[TOP] && rest > 0 then rest - Min(rest, k.levelMax) else rest)
    ensures left == 0 && Settled(v, k, w', total0, made)
  {
    var rest := total + share * SameCount(v) - SameSum(w);
    SameSumBounds(v, w, share);
    SameSumBounds(v, w, k.levelMax);
    SumUpdate(w, TOP, Min(rest, k.levelMax));
    assert SameWithin(v, w', share, Above(k, share, 2));
    hide SameSum, SameCount, SameWithin;
    Distribute(SameCount(v), share, 1, 0);
  }

  /** Without pressure the cell above has room for what the others cannot take. */
  lemma PortionWithoutPressure(v: View, k: Kind, s: Settings, t: Tick)
    requires Flows(v, k) && k.pressure == 0 && |v.liquid| == |v.level| == 7 && v.liquid[SELF]
    ensures var p := Portioned(v, k, s, t);
            && p.bottom == (if v.liquid[BOTTOM] then Min(Sum(v.level), k.levelMax) else -1) && p.share <= k.levelMax
            && (p.share < k.levelMax ==> p.total < SameCount(v))
            && (p.share == k.levelMax ==> p.total <= if v.liquid[TOP] then k.levelMax else 0)
  {
    Volumes(v, k);
    LowPortion(v, k, s, t);
    PartIsProduct(v, BOTTOM, k.levelMax);
    hide Sum, SameCount, AllCount, Portioned, AboveUnloaded, Mean, Spare, v.Valid, One;
  }

  lemma RaisedWithoutPressure(v: View, k: Kind, t: Tick, g: Stage)
    requires |v.liquid| == |g.want| == 7 && k.pressure == 0 && (v.liquid[TOP] ==> g.want[TOP] == 0)
    ensures var r := Raised(v, k, t, g);
            && r.want == (if v.liquid[TOP] && g.left > 0 then g.want[TOP := Min(g.left, k.levelMax)] else g.want)
            && r.left == (if v.liquid[TOP] && g.left > 0 then g.left - Min(g.left, k.levelMax) else g.left)
  {
    hide HandedOn, Row;
  }

  /** Without pressure nothing is left, and the liquid has settled. */
  lemma SettlesWithoutPressure(v: View, k: Kind, s: Settings, t: Tick)
    requires Flows(v, k) && k.pressure == 0
    ensures |v.liquid| == |v.level| == |v.endless| == 7 && v.liquid[SELF]
    ensures var p, g := Portioned(v, k, s, t), Settle(v, k, s, t);
            g.left == 0 && Settled(v, k, g.want, Sum(v.level), p.lake - p.fix)
  {
    hide Raised, Empty, One, LakeSurface, Sum, SameSum, SameCount, AllCount, Portioned, AboveUnloaded, Levelled, Above, SameWithin, Settled, High, Mean, Spare;
    var p := Portioned(v, k, s, t);
    PortionFacts(v, k, s, t);
    LevelFacts(v, k, s, t);
    PortionWithoutPressure(v, k, s, t);
    var g := Levelled(v, k, t, Stage(Empty(v)[BOTTOM := p.bottom], p.total), p.share);
    var r := Raised(v, k, t, g);
    RaisedWithoutPressure(v, k, t, g);
    RestRises(v, k, g.want, r.want, Sum(v.level), p.share, p.total, p.lake - p.fix, r.left);
  }

  // ----- what is left over -----

  /** One unit sinks from the node into a compressed cell below that has room for one more. */
  predicate SinksOne(v: View, k: Kind)
    requires |v.liquid| == |v.level| == 7 && v.liquid[SELF]
  {
    v.liquid[BOTTOM] && k.levelMax < Mean(v) < k.Cap()
  }

  /** What a look finds no place for. A gas has lost what exceeds all cells at their normal level with
      the node and the cell above at their capacity. A liquid loses something only if the cell above
      is closed and the average has reached the normal level: then of the units above the average it
      loses those that do not fit into the node. */
  function LeftOver(v: View, k: Kind): nat
    requires |v.liquid| == |v.level| == 7 && v.liquid[SELF]
  {
    if k.gas then Pos(Sum(v.level) - k.levelMax * AllCount(v) - (k.Cap() - k.levelMax) - if v.liquid[TOP] then k.Cap() - k.levelMax else 0)
    else if v.liquid[TOP] || Mean(v) < k.levelMax then 0
    else Pos(Spare(v) - (k.Cap() - Mean(v)) - One(SinksOne(v, k)))
  }

  /** Below an average of the normal level there is room for everything. */
  lemma MeanBelow(v: View, k: Kind)
    requires Flows(v, k) && |v.liquid| == |v.level| == 7 && v.liquid[SELF]
    requires Sum(v.level) < k.levelMax * SameCount(v) + Part(v, BOTTOM, k.levelMax)
    ensures Mean(v) < k.levelMax
  {
    Volumes(v, k);
    if Mean(v) >= k.levelMax {
      MoreForEach(Mean(v), k.levelMax, SameCount(v));
      hide Sum, SameCount, AllCount, Mean, Spare, v.Valid, k.Cap;
      assert false;
    }
  }

  /** With the cell above closed, what exceeds the normal levels is what exceeds the average. */
  lemma MeanIsNormal(v: View, k: Kind, rest: nat)
    requires Flows(v, k) && |v.liquid| == |v.level| == 7 && v.liquid[SELF] && !High(v, k)
    requires Sum(v.level) == k.levelMax * SameCount(v) + Part(v, BOTTOM, k.levelMax) + Part(v, TOP, k.levelMax) + rest
    ensures k.pressure == 0 ==> rest == 0
    ensures Mean(v) == k.levelMax && Spare(v) == rest
  {
    Volumes(v, k);
    MeanNotBelow(v, k, rest);
    if k.pressure == 0 {
      assert k.Cap() == k.levelMax;
    }
    hide Sum, SameCount, AllCount, Mean, Spare, v.Valid, k.Cap;
  }

  lemma MeanNotBelow(v: View, k: Kind, rest: nat)
    requires Flows(v, k) && |v.liquid| == |v.level| == 7 && v.liquid[SELF]
    requires Sum(v.level) == k.levelMax * SameCount(v) + Part(v, BOTTOM, k.levelMax) + Part(v, TOP, k.levelMax) + rest
    ensures Mean(v) >= k.levelMax
  {
    Volumes(v, k);
    Arithmetic.ProductOrder(Mean(v), k.levelMax, SameCount(v));
    hide Sum, SameCount, AllCount, Mean, Spare, v.Valid, k.Cap;
  }

  lemma AnyShares(v: View, w: seq<int>, share: nat, i: nat)
    requires |v.liquid| == |w| == 7 && SameWithin(v, w, share, share) && 1 <= i < 6 && v.liquid[i]
    ensures w[i] == share
  {
  }

  /** When every cell that the liquid can enter has room, all of them wait for a unit. */
  lemma AllWaiting(v: View, w: seq<int>, turn: nat, max: int)
    requires |v.liquid| == |w| == 7 && forall i: nat :: i < 7 ==> (0 <= w[i] < max <==> v.liquid[i])
    ensures Waiting(Row(turn), Room(w, max), 0, 7) == AllCount(v)
  {
    var row, may := Row(turn), Room(w, max);
    var parts := seq(7, i requires 0 <= i < 7 => One(v.liquid[i]));
    UnrollWaiting(row, may);
    PermutedSum(parts, turn);
    assert forall l: nat :: l < 7 ==> One(row[l] in may) == parts[row[l]];
    hide Waiting, One, Row, Room;
  }

  lemma UnrollWaiting(row: seq<nat>, may: set<nat>)
    requires |row| == 7
    ensures Waiting(row, may, 0, 7) == One(row[0] in may) + One(row[1] in may) + One(row[2] in may) + One(row[3] in may) +
                                       One(row[4] in may) + One(row[5] in may) + One(row[6] in may)
  {
    assert Waiting(row, may, 0, 1) == One(row[0] in may);
    assert Waiting(row, may, 0, 2) == Waiting(row, may, 0, 1) + One(row[1] in may);
    assert Waiting(row, may, 0, 3) == Waiting(row, may, 0, 2) + One(row[2] in may);
    assert Waiting(row, may, 0, 4) == Waiting(row, may, 0, 3) + One(row[3] in may);
    assert Waiting(row, may, 0, 5) == Waiting(row, may, 0, 4) + One(row[4] in may);
    assert Waiting(row, may, 0, 6) == Waiting(row, may, 0, 5) + One(row[5] in may);
  }

  /** While something is left, every waiting cell has been served. */
  lemma AllServed(w: seq<int>, turn: nat, max: int, total: int, i: nat)
    requires |w| == 7 && i < 7
    ensures var row, may := Row(turn), Room(w, max);
            Remaining(total, Waiting(row, may, 0, 7)) > 0 ==>
              && Handed(w, row, may, 0, 7, total)[i] == w[i] + One(i in may)
              && (i in may ==> Waiting(row, may, 0, 7) >= 1)
  {
    var row, may := Row(turn), Room(w, max);
    HandedExactly(w, row, may, 0, 7, total);
    var l := PlaceOf(row, i);
    WaitingGrows(row, may, 0, l, 7);
    WaitingGrows(row, may, 0, l + 1, 7);
    assert Waiting(row, may, 0, l + 1) == Waiting(row, may, 0, l) + One(i in may);
    hide Handed, Waiting, Room, IsRow, Row;
  }

  /** The first stage of settling, as the laws name it. */
  ghost function Begun(v: View, k: Kind, s: Settings, t: Tick): (g: Stage)
    requires |v.liquid| == |v.level| == 7 && v.liquid[SELF]
    ensures |g.want| == 7
  {
    var p := Portioned(v, k, s, t);
    Levelled(v, k, t, Stage(Empty(v)[BOTTOM := p.bottom], p.total), p.share)
  }

  lemma SettleIs(v: View, k: Kind, s: Settings, t: Tick)
    requires |v.liquid| == |v.level| == 7 && v.liquid[SELF]
    ensures var g := Raised(v, k, t, Begun(v, k, s, t));
            Settle(v, k, s, t) == if k.pressure != 0 then Stage(Sunk(v, k, g.want), g.left) else g
  {
    hide Portioned, Levelled, Raised, Sunk;
  }

  lemma NothingToTop(v: View, k: Kind, g: Stage)
    requires |v.liquid| == |g.want| == 7 && g.left == 0
    ensures Topped(v, k, g) == g
  {
  }

  /** With nothing left after filling the level, nothing is left at all. */
  lemma NothingLeftOver(v: View, k: Kind, s: Settings, t: Tick)
    requires |v.liquid| == |v.level| == 7 && v.liquid[SELF] && Begun(v, k, s, t).left == 0
    ensures Topped(v, k, Settle(v, k, s, t)).left == 0
  {
    SettleIs(v, k, s, t);
    hide Begun, Settle, Sunk, Topped;
    NothingToTop(v, k, Settle(v, k, s, t));
  }

  /** How much is in hand once the level is filled, when every cell got less or more than its normal
      level, and when it got just that. */
  lemma BegunFacts(v: View, k: Kind, s: Settings, t: Tick)
    requires Flows(v, k)
    ensures |v.liquid| == |v.level| == 7 && v.liquid[SELF]
    ensures var p, g := Portioned(v, k, s, t), Begun(v, k, s, t);
            && Targets(v, g.want, k.Cap()) && g.left >= 0
            && g.want[BOTTOM] == p.bottom && g.want[TOP] == (if v.liquid[TOP] then 0 else -1)
            && (p.share < k.levelMax && p.total < SameCount(v) ==> g.left == 0)
            && (p.share >= k.levelMax ==> g.left == p.total && SameWithin(v, g.want, p.share, p.share))
  {
    var p, g := Portioned(v, k, s, t), Begun(v, k, s, t);
    LevelFacts(v, k, s, t);
    if p.share >= k.levelMax {
      assert Above(k, p.share, 2) == p.share;
      SameSumBounds(v, g.want, p.share);
    } else {
      Distribute(SameCount(v), p.share, 1, 0);
    }
    hide Sum, SameSum, SameCount, Portioned, Levelled, Above, v.Valid, k.Cap, Empty;
  }

  /** The cell above closed: what is in hand goes into the node, from which one unit may have sunk. */
  lemma ClosedAbove(v: View, k: Kind, s: Settings, t: Tick, mean: nat, rest: nat)
    requires Flows(v, k) && |v.liquid| == |v.level| == 7 && v.liquid[SELF] && !v.liquid[TOP] && k.levelMax <= mean <= k.Cap()
    requires var g := Begun(v, k, s, t);
             && g.left == rest && g.want[SELF] == mean && g.want[TOP] == -1
             && g.want[BOTTOM] == if v.liquid[BOTTOM] then mean else -1
    requires k.pressure == 0 ==> rest == 0
    ensures Topped(v, k, Settle(v, k, s, t)).left ==
            Pos(rest - (k.Cap() - mean) - One(v.liquid[BOTTOM] && k.levelMax < mean < k.Cap()))
  {
    SettleIs(v, k, s, t);
    if k.pressure == 0 {
      NothingLeftOver(v, k, s, t);
    } else {
      hide Begun, Settle, v.Valid, k.Cap, Sum;
      assert Raised(v, k, t, Begun(v, k, s, t)) == Begun(v, k, s, t);
    }
  }

  /** The cell above open and the average above the normal level: the cells take all but what fits
      into the cell above. */
  lemma OpenAboveHigh(v: View, k: Kind, t: Tick, g: Stage, mean: nat, spare: nat, fix: nat)
    requires |v.liquid| == |v.level| == |g.want| == 7 && v.liquid[SELF] && v.liquid[TOP] && k.Proper() && k.pressure != 0
    requires k.levelMax < mean <= k.Cap() && spare < AllCount(v) && (mean == k.Cap() ==> spare == 0) && fix <= 1
    requires g.left == spare + mean - fix && g.want[TOP] == 0 && Targets(v, g.want, k.Cap())
    requires forall i: nat :: i < TOP && v.liquid[i] ==> g.want[i] == mean
    ensures var r := Raised(v, k, t, g); Topped(v, k, Stage(Sunk(v, k, r.want), r.left)).left == 0
  {
    var filled := Stage(g.want[TOP := k.levelMax], g.left - k.levelMax);
    RaisedHigh(v, k, t, g);
    hide *;
    if filled.left > 0 {
      RaisedPressed(v, k, t, g, filled, mean, spare);
    } else {
      NothingToTop(v, k, Stage(Sunk(v, k, filled.want), 0));
    }
  }

  lemma RaisedHigh(v: View, k: Kind, t: Tick, g: Stage)
    requires |v.liquid| == |g.want| == 7 && v.liquid[TOP] && k.pressure != 0 && g.left >= k.levelMax > 0 && g.want[TOP] == 0
    ensures var filled := Stage(g.want[TOP := k.levelMax], g.left - k.levelMax);
            && (filled.left > 0 ==> Raised(v, k, t, g) == HandedOn(filled, Row(t.Turn(3)), 0, 7, k.Cap()))
            && (filled.left <= 0 ==> Raised(v, k, t, g) == Stage(filled.want, 0))
  {
    hide HandedOn, Row;
  }

  lemma RaisedPressed(v: View, k: Kind, t: Tick, g: Stage, filled: Stage, mean: nat, spare: nat)
    requires |v.liquid| == |v.level| == |g.want| == |filled.want| == 7 && v.liquid[SELF] && v.liquid[TOP] && k.Proper()
    requires k.levelMax < mean <= k.Cap() && spare < AllCount(v) && (mean == k.Cap() ==> spare == 0)
    requires Targets(v, g.want, k.Cap()) && forall i: nat :: i < TOP && v.liquid[i] ==> g.want[i] == mean
    requires filled.want == g.want[TOP := k.levelMax] && 0 < filled.left <= spare + mean - k.levelMax
    requires Raised(v, k, t, g) == HandedOn(filled, Row(t.Turn(3)), 0, 7, k.Cap())
    ensures var r := Raised(v, k, t, g); Topped(v, k, Stage(Sunk(v, k, r.want), r.left)).left == 0
  {
    var r := Raised(v, k, t, g);
    PutFacts(v, k.Cap(), g.want, TOP, k.levelMax);
    assert forall i: nat :: i < TOP && v.liquid[i] ==> filled.want[i] == mean;
    hide HandedOn, AllCount, Row, Raised, Sum, k.Cap, Sunk, Topped, Targets;
    HandedHigh(v, k, filled.want, t.Turn(3), filled.left, mean, spare);
    if r.left > 0 {
      TopTakes(v, k, r);
    } else {
      NothingToTop(v, k, Stage(Sunk(v, k, r.want), r.left));
    }
  }

  /** If something is left, the cell above got one unit and has room for the rest. */
  lemma HandedHigh(v: View, k: Kind, w: seq<int>, turn: nat, total: nat, mean: nat, spare: nat)
    requires |v.liquid| == |w| == 7 && v.liquid[SELF] && v.liquid[TOP] && Targets(v, w, k.Cap()) && total > 0
    requires k.levelMax < mean <= k.Cap() && spare < AllCount(v) && (mean == k.Cap() ==> spare == 0)
    requires total <= spare + mean - k.levelMax && w[TOP] == k.levelMax
    requires forall i: nat :: i < TOP && v.liquid[i] ==> w[i] == mean
    ensures var r := HandedOn(Stage(w, total), Row(turn), 0, 7, k.Cap());
            && r.left >= 0
            && (r.left > 0 ==> && r.want[TOP] == k.levelMax + 1 && r.left <= k.Cap() - k.levelMax - 1
                               && (v.liquid[BOTTOM] ==> r.want[BOTTOM] > k.levelMax) && r.want[SELF] > k.levelMax)
  {
    var max := k.Cap();
    var row, may := Row(turn), Room(w, max);
    AllServed(w, turn, max, total, TOP);
    AllServed(w, turn, max, total, BOTTOM);
    AllServed(w, turn, max, total, SELF);
    assert TOP in may;
    RemainingBounds(total, Waiting(row, may, 0, 7));
    if mean < max {
      AllWaiting(v, w, turn, max);
    }
    hide AllCount, Waiting, Handed, Row, Room, Targets;
  }

  /** The cell above takes what is left, also when one of its units sinks. */
  lemma TopTakes(v: View, k: Kind, r: Stage)
    requires |v.liquid| == |r.want| == 7 && v.liquid[SELF] && v.liquid[TOP] && 0 < r.left <= k.Cap() - k.levelMax - 1
    requires r.want[TOP] == k.levelMax + 1 && (v.liquid[BOTTOM] ==> r.want[BOTTOM] > k.levelMax) && r.want[SELF] > k.levelMax
    ensures Topped(v, k, Stage(Sunk(v, k, r.want), r.left)).left == 0
  {
    assert Sunk(v, k, r.want)[TOP] <= k.levelMax + 1;
    hide Sunk, k.Cap;
  }

  /** The cell above open and every cell at its normal level: it takes the rest, or under pressure all
      cells together do. */
  lemma OpenAboveLow(v: View, k: Kind, t: Tick, g: Stage)
    requires |v.liquid| == |v.level| == |g.want| == 7 && v.liquid[SELF] && v.liquid[TOP] && k.Proper()
    requires g.left > 0 && g.want[TOP] == 0 && Targets(v, g.want, k.Cap())
    requires forall i: nat :: i < TOP && v.liquid[i] ==> g.want[i] == k.levelMax
    requires g.left > k.levelMax ==> k.levelMax < k.Cap() && g.left - k.levelMax <= AllCount(v)
    ensures Raised(v, k, t, g).left == 0
  {
    hide AllCount, Waiting, Handed, Row, Room;
    var up := Min(g.left, k.levelMax);
    var filled := g.want[TOP := up];
    if g.left > k.levelMax {
      AllWaiting(v, filled, t.Turn(3), k.Cap());
    }
    hide k.Cap;
  }

  /** The cell above closed and the average up to the normal level. */
  lemma LeftBelowClosed(v: View, k: Kind, s: Settings, t: Tick)
    requires Flows(v, k) && |v.liquid| == |v.level| == 7 && v.liquid[SELF] && !k.gas && !High(v, k) && !v.liquid[TOP]
    ensures Topped(v, k, Settle(v, k, s, t)).left == LeftOver(v, k)
  {
    var p, g := Portioned(v, k, s, t), Begun(v, k, s, t);
    LowPortion(v, k, s, t);
    BegunFacts(v, k, s, t);
    PartIsProduct(v, BOTTOM, k.levelMax);
    hide Portioned, Begun, Settle, Topped, Sum, SameCount, AllCount, v.Valid, k.Cap, High, Mean, Spare, SinksOne;
    if Sum(v.level) < k.levelMax * SameCount(v) + Part(v, BOTTOM, k.levelMax) {
      MeanBelow(v, k);
      NothingLeftOver(v, k, s, t);
    } else {
      LeftAtNormal(v, k, s, t);
    }
  }

  lemma LeftAtNormal(v: View, k: Kind, s: Settings, t: Tick)
    requires Flows(v, k) && |v.liquid| == |v.level| == 7 && v.liquid[SELF] && !k.gas && !High(v, k) && !v.liquid[TOP]
    requires Sum(v.level) >= k.levelMax * SameCount(v) + Part(v, BOTTOM, k.levelMax)
    ensures Topped(v, k, Settle(v, k, s, t)).left == LeftOver(v, k)
  {
    hide Portioned, Begun, Settle, Topped, Sum, SameCount, AllCount, v.Valid, k.Cap, High, Mean, Spare;
    var p, g := Portioned(v, k, s, t), Begun(v, k, s, t);
    LowPortion(v, k, s, t);
    BegunFacts(v, k, s, t);
    PartIsProduct(v, BOTTOM, k.levelMax);
    AnyShares(v, g.want, k.levelMax, SELF);
    MeanIsNormal(v, k, p.total);
    assert k.levelMax <= k.Cap();
    ClosedAbove(v, k, s, t, k.levelMax, p.total);
  }

  /** The cell above closed and the average above the normal level. */
  lemma LeftAboveClosed(v: View, k: Kind, s: Settings, t: Tick)
    requires Flows(v, k) && |v.liquid| == |v.level| == 7 && v.liquid[SELF] && !k.gas && High(v, k) && !v.liquid[TOP]
    ensures Topped(v, k, Settle(v, k, s, t)).left == LeftOver(v, k)
  {
    var p, g := Portioned(v, k, s, t), Begun(v, k, s, t);
    HighPortion(v, k, s, t);
    BegunFacts(v, k, s, t);
    AnyShares(v, g.want, p.share, SELF);
    assert k.pressure != 0 && Mean(v) > k.levelMax;
    hide Portioned, Begun, Settle, Topped, Sum, SameCount, AllCount, v.Valid, k.Cap, High, Mean, Spare, SameWithin, Targets, Flows;
    ClosedAbove(v, k, s, t, Mean(v), Spare(v));
  }

  /** The cell above open: nothing is left over. */
  lemma LeftAboveOpen(v: View, k: Kind, s: Settings, t: Tick)
    requires Flows(v, k) && |v.liquid| == |v.level| == 7 && v.liquid[SELF] && !k.gas && v.liquid[TOP] && High(v, k)
    ensures Topped(v, k, Settle(v, k, s, t)).left == 0
  {
    var p, g := Portioned(v, k, s, t), Begun(v, k, s, t);
    HighPortion(v, k, s, t);
    BegunFacts(v, k, s, t);
    Volumes(v, k);
    SettleIs(v, k, s, t);
    assert k.pressure != 0 && Mean(v) > k.levelMax;
    LevelAndBelow(v, g.want, p.share);
    assert 0 <= p.fix <= 1;
    hide Portioned, Begun, Settle, Topped, Sum, SameCount, AllCount, v.Valid, k.Cap, High, Mean, Spare, SameWithin, Targets, Flows,
      Raised, Sunk, AboveUnloaded;
    OpenAboveHigh(v, k, t, g, Mean(v), Spare(v), p.fix);
  }

  lemma LevelAndBelow(v: View, w: seq<int>, share: nat)
    requires |v.liquid| == |w| == 7 && SameWithin(v, w, share, share) && (v.liquid[BOTTOM] ==> w[BOTTOM] == share)
    ensures forall i: nat :: i < TOP && v.liquid[i] ==> w[i] == share
  {
  }

  lemma LeftBelowOpen(v: View, k: Kind, s: Settings, t: Tick)
    requires Flows(v, k) && |v.liquid| == |v.level| == 7 && v.liquid[SELF] && !k.gas && v.liquid[TOP] && !High(v, k)
    ensures Topped(v, k, Settle(v, k, s, t)).left == 0
  {
    var p, g := Portioned(v, k, s, t), Begun(v, k, s, t);
    LowPortion(v, k, s, t);
    BegunFacts(v, k, s, t);
    hide Portioned, Begun, Settle, Topped, Sum, SameCount, AllCount, v.Valid, k.Cap, High, Mean, Spare, SameWithin, Targets, Flows,
      Raised, Sunk, AboveUnloaded;
    if g.left == 0 {
      NothingLeftOver(v, k, s, t);
    } else {
      PartIsProduct(v, BOTTOM, k.levelMax);
      OpenAtNormal(v, k, s, t);
    }
  }

  lemma OpenAtNormal(v: View, k: Kind, s: Settings, t: Tick)
    requires Flows(v, k) && |v.liquid| == |v.level| == 7 && v.liquid[SELF] && !k.gas && v.liquid[TOP] && !High(v, k)
    requires Begun(v, k, s, t).left > 0 && Portioned(v, k, s, t).share == k.levelMax
    ensures Topped(v, k, Settle(v, k, s, t)).left == 0
  {
    var p, g := Portioned(v, k, s, t), Begun(v, k, s, t);
    LowPortion(v, k, s, t);
    BegunFacts(v, k, s, t);
    PartIsProduct(v, BOTTOM, k.levelMax);
    Volumes(v, k);
    LevelAtLeastOne(v, k);
    LevelAndBelow(v, g.want, k.levelMax);
    if g.left > k.levelMax {
      MeanIsNormal(v, k, g.left + p.fix - k.levelMax);
    }
    SettleIs(v, k, s, t);
    hide Portioned, Begun, Settle, Topped, Sum, SameCount, AllCount, v.Valid, k.Cap, High, Mean, Spare, SameWithin, Targets, Flows,
      Raised, Sunk, AboveUnloaded;
    OpenAboveLow(v, k, t, g);
    NothingToTop(v, k, Settle(v, k, s, t));
  }

  lemma LevelAtLeastOne(v: View, k: Kind)
    requires |v.liquid| == 7 && v.liquid[SELF]
    ensures k.levelMax * SameCount(v) >= k.levelMax
  {
    MoreForEach(SameCount(v), 1, k.levelMax);
    hide SameCount;
  }

  /** What a liquid loses for want of room is what `LeftOver` says. */
  lemma LiquidLeftOver(v: View, k: Kind, s: Settings, t: Tick)
    requires Flows(v, k) && !k.gas
    ensures |v.liquid| == |v.level| == |v.endless| == 7 && v.liquid[SELF]
    ensures Topped(v, k, Settle(v, k, s, t)).left == LeftOver(v, k)
  {
    ViewSize(v, k.Cap());
    hide Topped, Settle, v.Valid, High, Sum, AllCount, Mean, Spare, k.Cap, SinksOne, Flows;
    if v.liquid[TOP] {
      if High(v, k) {
        LeftAboveOpen(v, k, s, t);
      } else {
        LeftBelowOpen(v, k, s, t);
      }
    } else {
      if High(v, k) {
        LeftAboveClosed(v, k, s, t);
      } else {
        LeftBelowClosed(v, k, s, t);
      }
    }
  }

  // ----- the directions of a gas -----

  lemma {:induction false} ListedMembers(v: View, p: seq<nat>, d: nat)
    requires |v.liquid| == 7 && AreCells(p) && d < 7
    ensures d in Listed(v, p) <==> d in p && v.liquid[d]
  {
    if p != [] {
      var front, last := p[..|p| - 1], p[|p| - 1];
      ListedMembers(v, front, d);
      assert p == front + [last];
    }
  }

  /** A direction listed before another comes before every place of the other in the preference. */
  lemma {:induction false} ListedOrder(v: View, p: seq<nat>, i: nat, j: nat)
    requires |v.liquid| == 7 && AreCells(p) && i < j < |Listed(v, p)|
    ensures exists place: nat :: place < |p| && p[place] == Listed(v, p)[i] && Listed(v, p)[j] !in p[..place + 1]
  {
    var front, last := p[..|p| - 1], p[|p| - 1];
    var r := Listed(v, front);
    if j < |r| {
      ListedOrder(v, front, i, j);
      var place: nat :| place < |front| && front[place] == r[i] && r[j] !in front[..place + 1];
      assert p[place] == r[i] && p[..place + 1] == front[..place + 1];
    } else {
      ListedMembers(v, front, r[i]);
      assert Listed(v, p) == r + [last] && last !in r;
      ListedMembers(v, front, last);
      assert r[i] in front && last !in front;
      var place: nat :| place < |front| && front[place] == r[i];
      assert p[place] == r[i] && p[..place + 1] == front[..place + 1];
    }
  }

  lemma PreferenceIs(k: Kind, t: Tick)
    ensures var p := Upright(k, t) + Row(t.Turn(1))[SELF..TOP];
            Preference(k, t) == if k.floatHeight.None? then p + [BOTTOM] else p
  {
    hide Upright, Row;
  }

  lemma SidesOnly(turn: nat, d: nat)
    requires d < 7
    ensures d in Row(turn)[SELF..TOP] <==> SELF <= d < TOP
  {
    var row := Row(turn);
    if SELF <= d < TOP {
      var l := PlaceOf(row, d);
      assert row[SELF..TOP][l - 1] == d;
    } else {
      assert row[SELF..TOP] == [row[1], row[2], row[3], row[4], row[5]];
    }
  }

  lemma UprightMembers(k: Kind, t: Tick, d: nat)
    requires d < 7
    ensures d in Upright(k, t) <==> d in TowardsLayer(k, t) || d in WithWind(t) || (k.floatHeight.None? && d == TOP)
  {
    hide TowardsLayer, WithWind;
  }

  /** A gas without a layer goes everywhere; any other goes to the sides, and up or down as long as
      it has not reached its layer. */
  lemma PreferenceMembers(k: Kind, t: Tick, d: nat)
    requires d < 7
    ensures d in Preference(k, t) <==>
              match k.floatHeight
              case None => true
              case Some(y) => SELF <= d < TOP || (d == TOP && t.y < y) || (d == BOTTOM && t.y > y)
  {
    PreferenceIs(k, t);
    UprightMembers(k, t, d);
    SidesOnly(t.Turn(1), d);
    hide Preference, Upright, Row, IsRow;
  }

  lemma EitherDirection(k: Kind, t: Tick, d: nat)
    requires d < 7
    ensures k.floatHeight.None? ==> d in Preference(k, t)
    ensures k.floatHeight.Some? ==> (d in Fallback(k, t) <==> d !in Preference(k, t))
  {
    PreferenceMembers(k, t, d);
    hide Preference;
  }

  /** A settled gas is nowhere above its normal level. */
  lemma GasBelowNormal(v: View, k: Kind, t: Tick, w: seq<int>, i: nat)
    requires |v.liquid| == |w| == 7 && GasSettled(v, k, t, w) && i < 7 && v.liquid[i]
    ensures w[i] <= k.levelMax
  {
    EitherDirection(k, t, i);
    ListedMembers(v, Preference(k, t), i);
    hide Preference, Fallback, Listed, AtLevel, Distinct;
  }

  lemma SumAtMost(v: View, w: seq<int>, x: nat)
    requires |w| == |v.liquid| == 7 && forall i :: 0 <= i < 7 ==> if v.liquid[i] then w[i] <= x else w[i] == -1
    ensures Sum(w) <= x * AllCount(v)
  {
    SameSumBounds(v, w, x);
    SumOfParts(w);
    Distribute(x, One(v.liquid[BOTTOM]), SameCount(v), One(v.liquid[TOP]));
    hide SameCount, SameSum, Sum;
  }

  /** When the cells hold all they can at their normal level, each holds its normal level. */
  lemma AllAtNormal(v: View, w: seq<int>, x: nat, i: nat)
    requires |w| == |v.liquid| == 7 && (forall i :: 0 <= i < 7 ==> if v.liquid[i] then 0 <= w[i] <= x else w[i] == -1)
    requires Sum(w) == x * AllCount(v) && i < 7 && v.liquid[i]
    ensures w[i] == x
  {
    SumUpdate(w, i, x);
    SumAtMost(v, w[i := x], x);
    hide Sum, AllCount, SameSum;
  }

  /** What a gas loses for want of room is what `LeftOver` says. */
  lemma GasLeftOver(v: View, k: Kind, t: Tick, w: seq<int>)
    requires Flows(v, k) && k.gas && GasFilled(v, k, t, w)
    ensures |v.liquid| == |v.level| == |v.endless| == 7 && v.liquid[SELF] && Sum(w) <= Sum(v.level)
    ensures Topped(v, k, Stage(w, Sum(v.level) - Sum(w))).left == LeftOver(v, k)
  {
    hide Sum, AllCount, GasSettled, v.Valid, Targets;
    ViewSize(v, k.Cap());
    assert k.levelMax <= k.Cap();
    if Sum(v.level) <= k.levelMax * AllCount(v) {
      NothingToTop(v, k, Stage(w, 0));
    } else {
      GasIsFull(v, k, t, w);
    }
    hide k.Cap;
  }

  lemma GasIsFull(v: View, k: Kind, t: Tick, w: seq<int>)
    requires GasFilled(v, k, t, w) && v.liquid[SELF] && Sum(v.level) > k.levelMax * AllCount(v)
    ensures forall i: nat :: i < 7 ==> w[i] == if v.liquid[i] then k.levelMax else -1
  {
    forall i: nat | i < 7
      ensures if v.liquid[i] then 0 <= w[i] <= k.levelMax else w[i] == -1
    {
      if v.liquid[i] {
        GasBelowNormal(v, k, t, w, i);
      }
    }
    hide Sum, AllCount, GasSettled;
    forall i: nat | i < 7 && v.liquid[i]
      ensures w[i] == k.levelMax
    {
      AllAtNormal(v, w, k.levelMax, i);
    }
  }

  /** The targets of a gas that has more than the cells can take: the node and the cell above are at
      their capacity, the others at their normal level, and endless cells keep their level. */
  function FullTarget(v: View, k: Kind, i: nat): int
    requires |v.liquid| == |v.level| == |v.endless| == 7 && i < 7
  {
    if !v.liquid[i] then -1
    else
      var x := if i == SELF || i == TOP then k.Cap() else k.levelMax;
      if v.endless[i] && x < v.level[i] then v.level[i] else x
  }

  function FullTargets(v: View, k: Kind): (w: seq<int>)
    requires |v.liquid| == |v.level| == |v.endless| == 7
    ensures |w| == 7 && forall i: nat :: i < 7 ==> w[i] == FullTarget(v, k, i)
  {
    seq(7, i requires 0 <= i < 7 => FullTarget(v, k, i))
  }

  lemma FullyTopped(v: View, k: Kind, w: seq<int>, left: int)
    requires |v.liquid| == |w| == 7 && v.liquid[SELF] && k.levelMax <= k.Cap()
    requires forall i: nat :: i < 7 ==> w[i] == if v.liquid[i] then k.levelMax else -1
    requires left >= (if v.liquid[TOP] then k.Cap() - k.levelMax else 0) + (k.Cap() - k.levelMax)
    ensures forall i: nat :: i < 7 ==>
              Topped(v, k, Stage(w, left)).want[i] == if i == SELF || (i == TOP && v.liquid[TOP]) then k.Cap() else w[i]
  {
    hide k.Cap;
  }

  /** Where a gas leaves something over, its targets are these. */
  lemma GasBrimful(v: View, k: Kind, s: Settings, t: Tick, want: seq<int>, a: Account)
    requires Distributed(v, k, s, t, want, a) && k.gas && |v.liquid| == |v.level| == |v.endless| == 7 && v.liquid[SELF]
    requires LeftOver(v, k) > 0
    ensures want == FullTargets(v, k)
  {
    hide Sum, AllCount, GasSettled, Targets, GasFilled, v.Valid, Restored, Topped;
    var w := GasStage(v, k, s, t, want, a);
    DistributedFlows(v, k, s, t, want, a);
    FlowsCapacity(v, k);
    hide k.Cap, k.Proper, Flows, Distributed;
    GasFullVolume(v, k, t, w);
    var g := Stage(w, Sum(v.level) - Sum(w));
    FullyTopped(v, k, w, g.left);
    RestoredGas(v, k, s, t, Topped(v, k, g).want, want);
  }

  lemma FlowsCapacity(v: View, k: Kind)
    requires Flows(v, k)
    ensures k.levelMax <= k.Cap() && |v.liquid| == |v.endless| == 7 && forall i: nat :: i < 7 && v.endless[i] ==> v.liquid[i]
  {
    hide Sum;
  }

  lemma GasFullVolume(v: View, k: Kind, t: Tick, w: seq<int>)
    requires GasFilled(v, k, t, w) && k.gas && v.liquid[SELF] && k.levelMax <= k.Cap() && LeftOver(v, k) > 0
    ensures forall i: nat :: i < 7 ==> w[i] == if v.liquid[i] then k.levelMax else -1
    ensures Sum(v.level) - Sum(w) >= (if v.liquid[TOP] then k.Cap() - k.levelMax else 0) + (k.Cap() - k.levelMax)
  {
    hide Sum, AllCount, GasSettled, Targets, k.Cap;
    assert Sum(v.level) > k.levelMax * AllCount(v);
    GasIsFull(v, k, t, w);
  }

  lemma RestoredGas(v: View, k: Kind, s: Settings, t: Tick, w: seq<int>, want: seq<int>)
    requires |v.liquid| == |v.level| == |v.endless| == |w| == 7 && k.gas && want == Restored(v, k, s, t, 0, w)
    requires forall i: nat :: i < 7 && v.endless[i] ==> v.liquid[i]
    requires forall i: nat :: i < 7 ==> w[i] == if !v.liquid[i] then -1 else if i == SELF || i == TOP then k.Cap() else k.levelMax
    ensures want == FullTargets(v, k)
  {
    hide k.Cap;
  }

  /** `w` holds at most as much as `w'` everywhere. */
  ghost predicate NoMore(w: seq<int>, w': seq<int>)
    requires |w| == |w'| == 7
  {
    forall i: nat :: i < 7 ==> w[i] <= w'[i]
  }

  lemma SameVolume(v: View, w: seq<int>, w': seq<int>, cap: int)
    requires |w| == |w'| == |v.liquid| == 7 && Targets(v, w, cap) && Targets(v, w', cap) && Sum(w) == Sum(w') && NoMore(w, w')
    ensures w == w'
  {
    forall i: nat | i < 7
      ensures w[i] == w'[i]
    {
      TargetAt(v, cap, w, i);
      TargetAt(v, cap, w', i);
      SumUpdate(w, i, w'[i]);
      StillNoMore(w, w', i);
      hide Sum, SameSum, Targets, NoMore;
    }
  }

  lemma StillNoMore(w: seq<int>, w': seq<int>, i: nat)
    requires |w| == |w'| == 7 && NoMore(w, w') && i < 7
    ensures Sum(w[i := w'[i]]) <= Sum(w')
  {
    forall j: nat | j < 7
      ensures Pos(w'[j]) >= Pos(w[i := w'[i]][j])
    {
    }
    AtLeastSum(w', w[i := w'[i]]);
    hide Sum, Pos;
  }

  /** Of two fair distributions one is nowhere above the other. */
  lemma FairCompare(v: View, k: Kind, w: seq<int>, w': seq<int>, dirs: seq<nat>, i: nat, j: nat)
    requires |v.liquid| == |w| == |w'| == 7 && AreCells(dirs) && Fair(v, k, w, dirs) && Fair(v, k, w', dirs)
    requires i < |dirs| && j < |dirs| && v.liquid[dirs[i]] && v.liquid[dirs[j]]
    ensures w[dirs[i]] < w'[dirs[i]] ==> w[dirs[j]] <= w'[dirs[j]]
  {
  }

  lemma FairOrdered(v: View, k: Kind, w: seq<int>, w': seq<int>, dirs: seq<nat>) returns (below: bool)
    requires |v.liquid| == |w| == |w'| == 7 && AreCells(dirs) && Fair(v, k, w, dirs) && Fair(v, k, w', dirs)
    ensures below ==> Below(v, w, w', dirs)
    ensures !below ==> Below(v, w', w, dirs)
  {
    below := true;
    if i: nat :| i < |dirs| && v.liquid[dirs[i]] && w'[dirs[i]] < w[dirs[i]] {
      below := false;
      forall j: nat | j < |dirs| && v.liquid[dirs[j]]
        ensures w'[dirs[j]] <= w[dirs[j]]
      {
        FairCompare(v, k, w', w, dirs, i, j);
      }
    }
    hide Fair;
  }

  /** `w` holds at most as much as `w'` in these directions. */
  ghost predicate Below(v: View, w: seq<int>, w': seq<int>, dirs: seq<nat>)
    requires |v.liquid| == |w| == |w'| == 7 && AreCells(dirs)
  {
    forall i: nat :: i < |dirs| && v.liquid[dirs[i]] ==> w[dirs[i]] <= w'[dirs[i]]
  }

  /** There is one fair distribution of a volume. */
  lemma GasUnique(v: View, k: Kind, t: Tick, w: seq<int>, w': seq<int>)
    requires GasFilled(v, k, t, w) && GasFilled(v, k, t, w')
    ensures w == w'
  {
    GasComparable(v, k, t, w, w');
    hide Sum, GasSettled, Targets, NoMore;
    if NoMore(w, w') {
      SameVolume(v, w, w', k.Cap());
    } else {
      SameVolume(v, w', w, k.Cap());
    }
  }

  lemma GasComparable(v: View, k: Kind, t: Tick, w: seq<int>, w': seq<int>)
    requires GasFilled(v, k, t, w) && GasFilled(v, k, t, w')
    ensures NoMore(w, w') || NoMore(w', w)
  {
    var dirs := Listed(v, Preference(k, t));
    hide Sum;
    if AtLevel(v, w, dirs, k.levelMax) {
      if AtLevel(v, w', dirs, k.levelMax) {
        BothFull(v, k, t, w, w');
      } else {
        OneFull(v, k, t, w', w);
      }
    } else if AtLevel(v, w', dirs, k.levelMax) {
      OneFull(v, k, t, w, w');
    } else {
      NoneFull(v, k, t, w, w');
    }
  }

  /** The place of a direction in the list of the preferred ones, or of the others. */
  lemma PlaceOfDirection(v: View, k: Kind, t: Tick, i: nat) returns (place: nat)
    requires |v.liquid| == 7 && i < 7 && v.liquid[i]
    ensures var dirs := Listed(v, Preference(k, t));
            || (place < |dirs| && dirs[place] == i)
            || (i !in dirs && k.floatHeight.Some? && place < |Fallback(k, t)| && Fallback(k, t)[place] == i)
  {
    EitherDirection(k, t, i);
    ListedMembers(v, Preference(k, t), i);
    var dirs := Listed(v, Preference(k, t));
    hide Preference, Listed, Fallback;
    if i in dirs {
      place :| 0 <= place < |dirs| && dirs[place] == i;
    } else {
      place :| 0 <= place < |Fallback(k, t)| && Fallback(k, t)[place] == i;
    }
  }

  lemma NoneFull(v: View, k: Kind, t: Tick, w: seq<int>, w': seq<int>)
    requires GasFilled(v, k, t, w) && GasFilled(v, k, t, w')
    requires var dirs := Listed(v, Preference(k, t)); !AtLevel(v, w, dirs, k.levelMax) && !AtLevel(v, w', dirs, k.levelMax)
    ensures NoMore(w, w') || NoMore(w', w)
  {
    var dirs := Listed(v, Preference(k, t));
    var below := FairOrdered(v, k, w, w', dirs);
    OthersAgree(v, k, t, w, w');
    hide *;
    if below {
      Everywhere(v, w, w', dirs);
    } else {
      Everywhere(v, w', w, dirs);
    }
  }

  lemma OthersAgree(v: View, k: Kind, t: Tick, w: seq<int>, w': seq<int>)
    requires GasFilled(v, k, t, w) && GasFilled(v, k, t, w')
    requires var dirs := Listed(v, Preference(k, t)); !AtLevel(v, w, dirs, k.levelMax) && !AtLevel(v, w', dirs, k.levelMax)
    ensures var dirs := Listed(v, Preference(k, t)); forall i: nat :: i < 7 ==> i in dirs || w[i] == w'[i]
  {
    hide Sum, Listed, Preference, Fallback, Fair, AtLevel;
  }

  lemma Everywhere(v: View, w: seq<int>, w': seq<int>, dirs: seq<nat>)
    requires |v.liquid| == |w| == |w'| == 7 && Directions(v, dirs) && AreCells(dirs) && Below(v, w, w', dirs)
    requires forall i: nat :: i < 7 ==> i in dirs || w[i] == w'[i]
    ensures NoMore(w, w')
  {
    forall i: nat | i < 7
      ensures w[i] <= w'[i]
    {
      if i in dirs {
        var place: nat :| place < |dirs| && dirs[place] == i;
      }
    }
  }

  lemma OneFull(v: View, k: Kind, t: Tick, w: seq<int>, w': seq<int>)
    requires GasFilled(v, k, t, w) && GasFilled(v, k, t, w')
    requires var dirs := Listed(v, Preference(k, t)); !AtLevel(v, w, dirs, k.levelMax) && AtLevel(v, w', dirs, k.levelMax)
    ensures NoMore(w, w')
  {
    hide Sum;
    forall i: nat | i < 7
      ensures w[i] <= w'[i]
    {
      if v.liquid[i] {
        var place := PlaceOfDirection(v, k, t, i);
        GasBelowNormal(v, k, t, w, i);
        hide Listed, Preference, Fallback, Fair;
      }
    }
  }

  lemma BothFull(v: View, k: Kind, t: Tick, w: seq<int>, w': seq<int>)
    requires GasFilled(v, k, t, w) && GasFilled(v, k, t, w')
    requires var dirs := Listed(v, Preference(k, t)); AtLevel(v, w, dirs, k.levelMax) && AtLevel(v, w', dirs, k.levelMax)
    ensures NoMore(w, w') || NoMore(w', w)
  {
    if k.floatHeight.Some? {
      var below := FairOrdered(v, k, w, w', Fallback(k, t));
      hide *;
      if below {
        FullAndOthers(v, k, t, w, w');
      } else {
        FullAndOthers(v, k, t, w', w);
      }
    } else {
      hide *;
      FullAndOthers(v, k, t, w, w');
    }
  }

  lemma FullAndOthers(v: View, k: Kind, t: Tick, w: seq<int>, w': seq<int>)
    requires GasFilled(v, k, t, w) && GasFilled(v, k, t, w')
    requires var dirs := Listed(v, Preference(k, t)); AtLevel(v, w, dirs, k.levelMax) && AtLevel(v, w', dirs, k.levelMax)
    requires k.floatHeight.Some? ==> Below(v, w, w', Fallback(k, t))
    ensures NoMore(w, w')
  {
    hide Sum, Fair;
    forall i: nat | i < 7
      ensures w[i] <= w'[i]
    {
      if v.liquid[i] {
        var place := PlaceOfDirection(v, k, t, i);
        hide Listed, Preference, Fallback;
      }
    }
  }

  // ----- the last corrections -----

  lemma FitsFacts(v: View, k: Kind, w: seq<int>, i: nat, total: nat)
    requires |v.liquid| == |w| == 7 && Targets(v, w, k.Cap()) && i < 7
    ensures Fits(v, k, w, i, total) <= total
    ensures var w' := w[i := w[i] + Fits(v, k, w, i, total)];
            Targets(v, w', k.Cap()) && Sum(w') == Sum(w) + Fits(v, k, w, i, total)
  {
    hide *;
    TargetAt(v, k.Cap(), w, i);
    FitsBounds(v, k, w, i, total);
    PutOrLeave(v, k.Cap(), w, i, Fits(v, k, w, i, total));
  }

  lemma FitsBounds(v: View, k: Kind, w: seq<int>, i: nat, total: nat)
    requires |v.liquid| == |w| == 7 && i < 7 && (v.liquid[i] ==> 0 <= w[i] <= k.Cap())
    ensures Fits(v, k, w, i, total) <= total
    ensures v.liquid[i] ==> w[i] + Fits(v, k, w, i, total) <= k.Cap()
    ensures !v.liquid[i] ==> Fits(v, k, w, i, total) == 0
  {
  }

  lemma ToppedFacts(v: View, k: Kind, g: Stage)
    requires |v.liquid| == |g.want| == 7 && Targets(v, g.want, k.Cap()) && g.left >= 0
    ensures var r := Topped(v, k, g);
            && Targets(v, r.want, k.Cap()) && Sum(r.want) + r.left == Sum(g.want) + g.left && 0 <= r.left <= g.left
            && (g.left == 0 ==> r == g)
  {
    hide Sum, Targets, Fits;
    var up := Fits(v, k, g.want, TOP, g.left);
    FitsFacts(v, k, g.want, TOP, g.left);
    FitsFacts(v, k, g.want[TOP := g.want[TOP] + up], SELF, g.left - up);
    if g.left == 0 {
      NothingToTop(v, k, g);
    }
  }

  ghost predicate EndlessStay(v: View, want: seq<int>)
    requires |v.level| == |v.endless| == |want| == 7
  {
    forall i: nat :: i < 7 && v.endless[i] ==> want[i] >= v.level[i]
  }

  lemma RestoredTargets(v: View, k: Kind, s: Settings, t: Tick, share: int, w: seq<int>)
    requires v.Valid(k.Cap()) && k.Proper() && |w| == 7 && Targets(v, w, k.Cap())
    ensures |v.liquid| == |v.level| == |v.endless| == 7
    ensures var r := Restored(v, k, s, t, share, w); Targets(v, r, k.Cap()) && EndlessStay(v, r)
  {
    hide FloodsFast;
  }

  /** What appears is counted. */
  lemma GainedSum(v: View, w: seq<int>, w': seq<int>, cap: int)
    requires |v.liquid| == |w| == |w'| == 7 && Targets(v, w, cap) && Targets(v, w', cap)
    ensures Sum(w') == Sum(w) + Gained(w, w')
  {
    PosChange(v, w, w', cap, 0);
    PosChange(v, w, w', cap, 1);
    PosChange(v, w, w', cap, 2);
    PosChange(v, w, w', cap, 3);
    PosChange(v, w, w', cap, 4);
    PosChange(v, w, w', cap, 5);
    PosChange(v, w, w', cap, 6);
    hide Targets, Pos;
  }

  lemma PosChange(v: View, w: seq<int>, w': seq<int>, cap: int, i: nat)
    requires |v.liquid| == |w| == |w'| == 7 && Targets(v, w, cap) && Targets(v, w', cap) && i < 7
    ensures w'[i] - w[i] == Pos(w'[i]) - Pos(w[i])
  {
  }

  /** The node is full of water that was made here: an endless cell that would have fallen below its
      level, or a cell of a cave that is being flooded. */
  ghost predicate MadeAt(v: View, k: Kind, s: Settings, t: Tick, want: seq<int>, i: nat)
    requires |v.liquid| == |v.level| == |v.endless| == |want| == 7 && i < 7 && v.liquid[SELF]
  {
    || (v.endless[i] && want[i] == v.level[i] > 0)
    || (!k.gas && want[i] == k.levelMax && FloodsFast(v, k, s, t, Portioned(v, k, s, t).share, i))
  }

  /** What the last correction adds is made where it appears, and nothing is taken away. */
  ghost predicate Supplied(v: View, k: Kind, s: Settings, t: Tick, w: seq<int>, want: seq<int>)
    requires |v.liquid| == |v.level| == |v.endless| == |w| == |want| == 7 && v.liquid[SELF]
  {
    forall i: nat :: i < 7 ==> w[i] <= want[i] && (w[i] < want[i] ==> MadeAt(v, k, s, t, want, i))
  }

  lemma RaisedIsMade(v: View, k: Kind, s: Settings, t: Tick, w: seq<int>, i: nat)
    requires v.Valid(k.Cap()) && |v.liquid| == |v.level| == |v.endless| == |w| == 7 && v.liquid[SELF] && i < 7
    requires Targets(v, w, k.Cap())
    ensures var r := Restored(v, k, s, t, if k.gas then 0 else Portioned(v, k, s, t).share, w);
            w[i] <= r[i] && (w[i] < r[i] ==> MadeAt(v, k, s, t, r, i))
  {
    GasNeverFloods(v, k, s, t, 0, i);
    TargetAt(v, k.Cap(), w, i);
    hide FloodsFast, Portioned, Targets, v.Valid;
  }

  lemma GainedWhere(v: View, k: Kind, s: Settings, t: Tick, w: seq<int>)
    requires v.Valid(k.Cap()) && |w| == 7 && Targets(v, w, k.Cap())
    ensures |v.liquid| == |v.level| == |v.endless| == 7 && v.liquid[SELF]
    ensures var share := if k.gas then 0 else Portioned(v, k, s, t).share;
            var r := Restored(v, k, s, t, share, w);
            Supplied(v, k, s, t, w, r) && (Gained(w, r) == 0 ==> r == w)
  {
    hide v.Valid, Portioned, MadeAt, Replenished, Restored, Targets;
    ViewSize(v, k.Cap());
    var share := if k.gas then 0 else Portioned(v, k, s, t).share;
    var r := Restored(v, k, s, t, share, w);
    forall i: nat | i < 7
      ensures w[i] <= r[i] && (w[i] < r[i] ==> MadeAt(v, k, s, t, r, i))
    {
      RaisedIsMade(v, k, s, t, w, i);
    }
    NothingGained(w, r);
  }

  lemma NothingGained(w: seq<int>, w': seq<int>)
    requires |w| == |w'| == 7 && forall i: nat :: i < 7 ==> w[i] <= w'[i]
    ensures Gained(w, w') == 0 ==> w' == w
  {
  }

  lemma GasNeverFloods(v: View, k: Kind, s: Settings, t: Tick, share: int, i: nat)
    requires |v.liquid| == |v.level| == 7
    ensures k.gas ==> !FloodsFast(v, k, s, t, share, i)
  {
  }

  // ----- the laws of one look -----

  /** Nothing makes or dries up liquid here. */
  ghost predicate Still(v: View, s: Settings)
    requires |v.endless| == 7
  {
    s.relax == 0 && s.fastFlood == 0 && forall i :: 0 <= i < 7 ==> !v.endless[i]
  }

  /** `w` are the targets before endless cells and caves are filled. */
  ghost predicate Poured(v: View, k: Kind, s: Settings, t: Tick, w: seq<int>)
    requires |v.liquid| == |v.level| == |v.endless| == 7 && v.liquid[SELF]
  {
    if k.gas then exists u :: GasFilled(v, k, t, u) && w == Topped(v, k, Stage(u, Sum(v.level) - Sum(u))).want
    else w == Topped(v, k, Settle(v, k, s, t)).want
  }

  /** What a lake gains or, if negative, what dries up. */
  function LakeGain(v: View, k: Kind, s: Settings, t: Tick): int
    requires |v.liquid| == |v.level| == 7 && v.liquid[SELF]
  {
    if k.gas then 0 else Portioned(v, k, s, t).lake
  }

  /** The account of a look: what is left over and what is lost above a block that is not loaded are
      fixed by what is seen. What is made is what a lake gains, at its surface near the water level, and
      what endless cells are short of and flooded caves take in; it dries up only just above the water
      level. */
  ghost predicate Accounted(v: View, k: Kind, s: Settings, t: Tick, want: seq<int>, a: Account)
    requires |v.liquid| == |v.level| == |v.endless| == |want| == 7 && v.liquid[SELF]
  {
    && a.left == LeftOver(v, k)
    && a.fix == (if k.gas then 0 else One(AboveUnloaded(v, k, s, t)))
    && (exists w :: |w| == 7 && Poured(v, k, s, t, w) && Supplied(v, k, s, t, w, want) &&
                    a.regenerated == LakeGain(v, k, s, t) + Gained(w, want))
    && (LakeGain(v, k, s, t) > 0 ==> LakeSurface(v, k, s) && NearWaterLevel(s, t.y))
    && (LakeGain(v, k, s, t) < 0 ==> LakeSurface(v, k, s) && t.y == s.waterLevel + 1)
    && (Still(v, s) ==> a.regenerated == 0)
  }

  /** Where nothing is made but what a lake gains or loses, the whole volume settles; with lakes and
      flooding switched off and no endless cells that is everywhere. */
  ghost predicate SettlesDown(v: View, k: Kind, s: Settings, t: Tick, want: seq<int>, a: Account)
    requires |v.liquid| == |v.level| == |v.endless| == |want| == 7 && v.liquid[SELF]
  {
    && (k.pressure == 0 && a.regenerated == LakeGain(v, k, s, t) ==>
          if k.gas then GasSettled(v, k, t, want) else Settled(v, k, want, Sum(v.level), LakeGain(v, k, s, t) - a.fix))
    && (Still(v, s) ==> a.regenerated == LakeGain(v, k, s, t) == 0)
  }

  /** What the last corrections change. */
  lemma FinishedFacts(v: View, k: Kind, s: Settings, t: Tick, share: int, g: Stage, lake: int, fix: nat, want: seq<int>, a: Account)
    requires v.Valid(k.Cap()) && k.Proper() && |v.liquid| == |v.level| == |v.endless| == |g.want| == 7 && v.liquid[SELF]
    requires Targets(v, g.want, k.Cap()) && g.left >= 0 && share == if k.gas then 0 else Portioned(v, k, s, t).share
    requires Finished(v, k, s, t, share, g, lake, fix, want, a)
    ensures |want| == 7 && Targets(v, want, k.Cap()) && EndlessStay(v, want)
    ensures Sum(want) == Sum(g.want) + g.left + a.regenerated - lake - a.left && a.fix == fix && a.left == Topped(v, k, g).left
    ensures Supplied(v, k, s, t, Topped(v, k, g).want, want) && a.regenerated == lake + Gained(Topped(v, k, g).want, want)
    ensures Still(v, s) ==> a.regenerated == lake
    ensures a.regenerated == lake && g.left == 0 ==> want == g.want
  {
    var topped := Topped(v, k, g);
    ToppedFacts(v, k, g);
    hide v.Valid, k.Cap, k.Proper, Sum, Targets, Portioned, Topped, Restored, MadeAt, EndlessStay, Gained, Supplied;
    RestoredTargets(v, k, s, t, share, topped.want);
    GainedSum(v, topped.want, want, k.Cap());
    GainedWhere(v, k, s, t, topped.want);
    if Still(v, s) {
      NothingMade(v, k, s, t, topped.want, want);
    }
  }

  lemma NothingMade(v: View, k: Kind, s: Settings, t: Tick, w: seq<int>, want: seq<int>)
    requires |v.liquid| == |v.level| == |v.endless| == |w| == |want| == 7 && v.liquid[SELF] && Still(v, s)
    requires Supplied(v, k, s, t, w, want)
    ensures Gained(w, want) == 0
  {
    hide Portioned;
    assert forall i: nat :: i < 7 ==> !MadeAt(v, k, s, t, want, i);
    hide MadeAt;
  }

  /** How a gas had settled before the last corrections. */
  lemma GasStage(v: View, k: Kind, s: Settings, t: Tick, want: seq<int>, a: Account) returns (w: seq<int>)
    requires Distributed(v, k, s, t, want, a) && k.gas
    ensures |v.liquid| == |v.level| == |v.endless| == |w| == 7 && GasFilled(v, k, t, w)
    ensures Finished(v, k, s, t, 0, Stage(w, Sum(v.level) - Sum(w)), 0, 0, want, a)
  {
    w :| GasFilled(v, k, t, w) && Finished(v, k, s, t, 0, Stage(w, Sum(v.level) - Sum(w)), 0, 0, want, a);
  }

  /** The volume in the seven cells changes by exactly what the account says, all targets are within
      bounds, and endless cells lose nothing. */
  lemma LookConserves(v: View, k: Kind, s: Settings, t: Tick, want: seq<int>, a: Account)
    requires Distributed(v, k, s, t, want, a)
    ensures |v.liquid| == |v.level| == |v.endless| == |want| == 7 && v.liquid[SELF]
    ensures Sum(want) == Sum(v.level) + a.Change()
    ensures Targets(v, want, k.Cap()) && EndlessStay(v, want)
  {
    hide Sum, Targets, Portioned, Finished, GasFilled, Settle, v.Valid, k.Proper, k.Cap;
    if k.gas {
      var w := GasStage(v, k, s, t, want, a);
      GasFilledFacts(v, k, t, w);
      FinishedFacts(v, k, s, t, 0, Stage(w, Sum(v.level) - Sum(w)), 0, 0, want, a);
    } else {
      var p := Portioned(v, k, s, t);
      SettleFacts(v, k, s, t);
      FinishedFacts(v, k, s, t, p.share, Settle(v, k, s, t), p.lake, p.fix, want, a);
    }
  }

  lemma GasFilledFacts(v: View, k: Kind, t: Tick, w: seq<int>)
    requires GasFilled(v, k, t, w)
    ensures |w| == 7 && Targets(v, w, k.Cap()) && Sum(w) <= Sum(v.level) && GasSettled(v, k, t, w)
  {
    hide Sum, AllCount, Targets, GasSettled;
  }

  /** The account of every look is determined by what is seen. */
  lemma LookAccounted(v: View, k: Kind, s: Settings, t: Tick, want: seq<int>, a: Account)
    requires Distributed(v, k, s, t, want, a)
    ensures |v.liquid| == |v.level| == |v.endless| == |want| == 7 && v.liquid[SELF] && Accounted(v, k, s, t, want, a)
  {
    hide *;
    if k.gas {
      GasAccounted(v, k, s, t, want, a);
    } else {
      LiquidAccounted(v, k, s, t, want, a);
    }
  }

  lemma GasAccounted(v: View, k: Kind, s: Settings, t: Tick, want: seq<int>, a: Account)
    requires Distributed(v, k, s, t, want, a) && k.gas
    ensures |v.liquid| == |v.level| == |v.endless| == |want| == 7 && v.liquid[SELF] && Accounted(v, k, s, t, want, a)
  {
    hide Accounted, Distributed, Sum, Targets, Portioned, Finished, GasFilled, v.Valid, k.Proper, k.Cap, LeftOver, Topped, Still,
      Supplied, LakeSurface, NearWaterLevel, AboveUnloaded, Flows, Gained, Poured;
    var w := GasStage(v, k, s, t, want, a);
    DistributedFlows(v, k, s, t, want, a);
    FlowsFacts(v, k);
    GasFilledFacts(v, k, t, w);
    var g := Stage(w, Sum(v.level) - Sum(w));
    FinishedFacts(v, k, s, t, 0, g, 0, 0, want, a);
    GasLeftOver(v, k, t, w);
    GasPoured(v, k, s, t, w);
    AccountedIs(v, k, s, t, Topped(v, k, g).want, want, a);
  }

  lemma GasPoured(v: View, k: Kind, s: Settings, t: Tick, w: seq<int>)
    requires |v.liquid| == |v.level| == |v.endless| == |w| == 7 && v.liquid[SELF] && k.gas && GasFilled(v, k, t, w)
    ensures Poured(v, k, s, t, Topped(v, k, Stage(w, Sum(v.level) - Sum(w))).want)
  {
    hide GasFilled, Topped, Sum;
  }

  lemma LiquidFinished(v: View, k: Kind, s: Settings, t: Tick, want: seq<int>, a: Account)
    requires Distributed(v, k, s, t, want, a) && !k.gas
    ensures |v.liquid| == |v.level| == |v.endless| == 7 && v.liquid[SELF] && Flows(v, k)
    ensures var p := Portioned(v, k, s, t); Finished(v, k, s, t, p.share, Settle(v, k, s, t), p.lake, p.fix, want, a)
  {
    hide Portioned, Finished, Settle, Flows;
  }

  lemma LiquidAccounted(v: View, k: Kind, s: Settings, t: Tick, want: seq<int>, a: Account)
    requires Distributed(v, k, s, t, want, a) && !k.gas
    ensures |v.liquid| == |v.level| == |v.endless| == |want| == 7 && v.liquid[SELF] && Accounted(v, k, s, t, want, a)
  {
    hide Accounted, Distributed, Sum, Targets, Portioned, Finished, Settle, v.Valid, k.Proper, k.Cap, LeftOver, Topped, Still, Supplied,
      LakeSurface, NearWaterLevel, AboveUnloaded, Flows, Gained;
    LiquidFinished(v, k, s, t, want, a);
    FlowsFacts(v, k);
    var p, g := Portioned(v, k, s, t), Settle(v, k, s, t);
    SettleFacts(v, k, s, t);
    PortionFacts(v, k, s, t);
    FinishedFacts(v, k, s, t, p.share, g, p.lake, p.fix, want, a);
    LiquidLeftOver(v, k, s, t);
    LakeOnly(v, k, s, t);
    StillMeansNoLake(v, k, s);
    assert Poured(v, k, s, t, Topped(v, k, g).want);
    hide Poured;
    AccountedIs(v, k, s, t, Topped(v, k, g).want, want, a);
  }

  lemma AccountedIs(v: View, k: Kind, s: Settings, t: Tick, w: seq<int>, want: seq<int>, a: Account)
    requires |v.liquid| == |v.level| == |v.endless| == |w| == |want| == 7 && v.liquid[SELF]
    requires a.left == LeftOver(v, k) && a.fix == (if k.gas then 0 else One(AboveUnloaded(v, k, s, t)))
    requires Poured(v, k, s, t, w) && Supplied(v, k, s, t, w, want) && a.regenerated == LakeGain(v, k, s, t) + Gained(w, want)
    requires LakeGain(v, k, s, t) > 0 ==> LakeSurface(v, k, s) && NearWaterLevel(s, t.y)
    requires LakeGain(v, k, s, t) < 0 ==> LakeSurface(v, k, s) && t.y == s.waterLevel + 1
    requires Still(v, s) ==> a.regenerated == 0
    ensures Accounted(v, k, s, t, want, a)
  {
    hide LeftOver, AboveUnloaded, Poured, Supplied, LakeGain, Gained, LakeSurface, NearWaterLevel, Still;
  }

  lemma FlowsFacts(v: View, k: Kind)
    requires Flows(v, k)
    ensures v.Valid(k.Cap()) && k.Proper()
  {
  }

  lemma StillMeansNoLake(v: View, k: Kind, s: Settings)
    requires |v.endless| == |v.level| == 7
    ensures Still(v, s) ==> !LakeSurface(v, k, s)
  {
  }

  /** Without pressure every look finds room for everything. */
  lemma NothingLostWithoutPressure(v: View, k: Kind)
    requires Flows(v, k) && k.pressure == 0 && |v.liquid| == |v.level| == 7 && v.liquid[SELF]
    ensures LeftOver(v, k) == 0
  {
    Volumes(v, k);
    LevelBound(v, k.Cap());
    assert k.Cap() == k.levelMax;
    hide Sum, AllCount, SameCount, Mean, Spare, v.Valid, k.Cap, SinksOne;
  }

  /** Under pressure too nothing is lost while the cell above is open, and never as much as one unit
      for each cell. */
  lemma LiquidLossBound(v: View, k: Kind)
    requires Flows(v, k) && !k.gas && |v.liquid| == |v.level| == 7 && v.liquid[SELF]
    ensures v.liquid[TOP] ==> LeftOver(v, k) == 0
    ensures LeftOver(v, k) < AllCount(v)
    ensures LeftOver(v, k) > 0 <==> !v.liquid[TOP] && k.levelMax <= Mean(v) && k.Cap() - Mean(v) + One(SinksOne(v, k)) < Spare(v)
  {
    Volumes(v, k);
    hide Sum, AllCount, SameCount, Mean, Spare, v.Valid, k.Cap, SinksOne;
  }

  /** Where nothing is made or dries up and there is no pressure, liquids and gases settle. */
  lemma LookSettles(v: View, k: Kind, s: Settings, t: Tick, want: seq<int>, a: Account)
    requires Distributed(v, k, s, t, want, a)
    ensures |v.liquid| == |v.level| == |v.endless| == |want| == 7 && SettlesDown(v, k, s, t, want, a)
  {
    hide Distributed, Targets, Portioned, v.Valid, k.Cap, Still, Settled, GasSettled, EndlessStay, Sum;
    LookConserves(v, k, s, t, want, a);
    NoLakeInStill(v, k, s, t, want, a);
    if k.pressure == 0 && a.regenerated == LakeGain(v, k, s, t) {
      if k.gas {
        GasSettles(v, k, s, t, want, a);
      } else {
        LiquidSettles(v, k, s, t, want, a);
      }
    }
  }

  lemma NoLakeInStill(v: View, k: Kind, s: Settings, t: Tick, want: seq<int>, a: Account)
    requires Distributed(v, k, s, t, want, a) && |v.liquid| == |v.level| == |v.endless| == |want| == 7 && v.liquid[SELF]
    ensures Still(v, s) ==> a.regenerated == LakeGain(v, k, s, t) == 0
  {
    hide Distributed, LeftOver, Poured, Supplied, LakeGain, Gained, Still, LakeSurface, NearWaterLevel, AboveUnloaded;
    LookAccounted(v, k, s, t, want, a);
    StillMeansNoLake(v, k, s);
  }

  lemma GasSettles(v: View, k: Kind, s: Settings, t: Tick, want: seq<int>, a: Account)
    requires Distributed(v, k, s, t, want, a) && k.gas && k.pressure == 0 && |v.liquid| == |v.endless| == |want| == 7 && a.regenerated == 0
    ensures GasSettled(v, k, t, want)
  {
    hide Distributed, Sum, Targets, Portioned, Finished, GasFilled, v.Valid, k.Proper, k.Cap, Topped, Still, Supplied, Gained, GasSettled;
    var w := GasStage(v, k, s, t, want, a);
    DistributedFlows(v, k, s, t, want, a);
    FlowsFacts(v, k);
    GasFilledFacts(v, k, t, w);
    GasRoom(v, k, t, w);
    FinishedFacts(v, k, s, t, 0, Stage(w, Sum(v.level) - Sum(w)), 0, 0, want, a);
  }

  lemma DistributedFlows(v: View, k: Kind, s: Settings, t: Tick, want: seq<int>, a: Account)
    requires Distributed(v, k, s, t, want, a)
    ensures Flows(v, k)
  {
    hide Flows;
  }

  lemma LiquidSettles(v: View, k: Kind, s: Settings, t: Tick, want: seq<int>, a: Account)
    requires Distributed(v, k, s, t, want, a) && !k.gas && k.pressure == 0
    requires |v.liquid| == |v.level| == |v.endless| == |want| == 7 && v.liquid[SELF] && a.regenerated == LakeGain(v, k, s, t)
    ensures Settled(v, k, want, Sum(v.level), LakeGain(v, k, s, t) - a.fix)
  {
    hide Distributed, Sum, Targets, Portioned, Finished, Settle, v.Valid, k.Proper, k.Cap, Topped, Still, Supplied, Gained, Flows,
      Settled, LakeSurface, AboveUnloaded, NearWaterLevel;
    LiquidFinished(v, k, s, t, want, a);
    FlowsFacts(v, k);
    var p := Portioned(v, k, s, t);
    SettleFacts(v, k, s, t);
    SettlesWithoutPressure(v, k, s, t);
    FinishedFacts(v, k, s, t, p.share, Settle(v, k, s, t), p.lake, p.fix, want, a);
  }

  lemma GasRoom(v: View, k: Kind, t: Tick, w: seq<int>)
    requires Flows(v, k) && k.pressure == 0 && GasFilled(v, k, t, w)
    ensures Sum(w) == Sum(v.level)
  {
    LevelBound(v, k.Cap());
    assert k.Cap() == k.levelMax;
    hide Sum, AllCount, SameCount, Targets, GasSettled, v.Valid, k.Cap;
  }

  /** What is seen determines the targets and the account. */
  lemma OneOutcome(v: View, k: Kind, s: Settings, t: Tick, want: seq<int>, a: Account, want': seq<int>, a': Account)
    requires Distributed(v, k, s, t, want, a) && Distributed(v, k, s, t, want', a')
    ensures want == want' && a == a'
  {
    hide Sum, Portioned, GasFilled, Settle, v.Valid, Flows, Topped, Restored, Gained;
    if k.gas {
      var w := GasStage(v, k, s, t, want, a);
      var w' := GasStage(v, k, s, t, want', a');
      GasUnique(v, k, t, w, w');
    }
  }
}
