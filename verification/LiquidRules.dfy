/** The rules of lakes, floods and losses, in the numbers that are seen around a node. */
module LiquidRules {
  import Arithmetic
  import opened Liquid
  import opened LiquidLaws
  import opened Wrappers

  // ----- lakes -----

  /** A renewable liquid with nothing above, on a full cell, while lakes are levelled. */
  ghost predicate OnFullCell(v: View, k: Kind, s: Settings)
    requires |v.level| == 7
  {
    k.renewable && s.relax != 0 && k.levelMax > 1 && v.level[6] == 0 && v.level[0] >= k.levelMax
  }

  /** At the water level, or below it down to the depth of fast floods. */
  ghost predicate AtWater(s: Settings, y: int) {
    y == s.waterLevel || (s.fastFlood != 0 && s.fastFlood < y < s.waterLevel)
  }

  /** How much the level of a lake may be short of: one unit, under pressure one cell, for each cell of the
      level beyond the setting. */
  ghost function Slack(k: Kind, s: Settings, same: nat): int {
    if k.pressure > 0 then (same - s.relax) * k.levelMax else same - s.relax
  }

  lemma UpExactly(v: View, k: Kind, s: Settings, t: Tick, more: int, same: nat)
    requires |v.level| == 7
    ensures var up := RelaxedUp(v, k, s, t, more, same);
            && (up != more <==> OnFullCell(v, k, s) && AtWater(s, t.y) && more < k.levelMax * same <= more + Slack(k, s, same))
            && (up != more ==> up == k.levelMax * same)
  {
    MissingIs(k, s, same);
    hide Missing, Slack;
  }

  lemma MissingIs(k: Kind, s: Settings, same: nat)
    ensures k.levelMax > 1 ==> Missing(k, s, same) == if Slack(k, s, same) > 0 then Slack(k, s, same) else 0
  {
    var m := same - s.relax;
    if k.levelMax > 1 {
      TimesMore(m, k.levelMax);
    }
  }

  lemma TimesMore(m: int, x: nat)
    requires x > 1
    ensures m > 0 ==> m * x > m
    ensures m <= 0 ==> m * x <= 0
  {
    if m > 0 {
      Arithmetic.ProductOrder(x, 2, m);
    } else {
      Arithmetic.ProductOrder(0, m, x);
    }
  }

  lemma DownExactly(v: View, k: Kind, s: Settings, t: Tick, share: int, rest: int, same: nat)
    requires |v.level| == 7
    ensures var dries := OnFullCell(v, k, s) && t.y == s.waterLevel + 1 && share <= 0 && (rest <= 1 || t.loopcount % 2 == 0) &&
                         rest <= Slack(k, s, same) && Slack(k, s, same) > 0;
            RelaxedDown(v, k, s, t, share, rest, same) == if dries then 0 else rest
  {
    MissingIs(k, s, same);
    hide Missing, Slack;
  }

  /** How the portion comes to its lake. */
  lemma LakeParts(v: View, k: Kind, s: Settings, t: Tick) returns (fallen: int, up: int, rest: int)
    requires |v.liquid| == |v.level| == 7 && v.liquid[SELF]
    ensures var p, same := Portioned(v, k, s, t), SameCount(v);
            && fallen == Sum(v.level) - Pos(p.bottom) && up == RelaxedUp(v, k, s, t, fallen, same)
            && rest == up - p.fix - p.share * same && p.total == RelaxedDown(v, k, s, t, p.share, rest, same)
            && p.lake == up - fallen + (p.total - rest)
  {
    var total, same := Sum(v.level), SameCount(v);
    var average := Average(k, total, AllCount(v));
    var bottom := Fallen(v, k, average, total);
    fallen := total - Pos(bottom);
    up := RelaxedUp(v, k, s, t, fallen, same);
    var fix := One(AboveUnloaded(v, k, s, t));
    var share := Share(k, average, up - fix, same);
    rest := up - fix - share * same;
    var kept := RelaxedDown(v, k, s, t, share, rest, same);
    hide Sum, SameCount, AllCount, RelaxedUp, RelaxedDown, Average, Share, AboveUnloaded, Fallen, Portioned;
    PortionIs(v, k, s, t, bottom, up, share, kept);
  }

  /** Exactly when a lake is filled up, and by how much; exactly when a film of it dries up. `more` is the
      volume above the full cell below. */
  lemma LakeExactly(v: View, k: Kind, s: Settings, t: Tick)
    requires Flows(v, k) && !k.gas
    ensures |v.liquid| == |v.level| == 7 && v.liquid[SELF]
    ensures var lake, same, more := LakeGain(v, k, s, t), SameCount(v), Sum(v.level) - k.levelMax;
            var full, slack := k.levelMax * same, Slack(k, s, same);
            && (lake > 0 <==> OnFullCell(v, k, s) && AtWater(s, t.y) && more < full <= more + slack)
            && (lake > 0 ==> lake == full - more)
            && (lake < 0 <==> OnFullCell(v, k, s) && t.y == s.waterLevel + 1 && 0 < more < same && more <= slack &&
                              (more == 1 || t.loopcount % 2 == 0))
            && (lake < 0 ==> lake == 0 - more)
  {
    hide Sum, SameCount, AllCount, Portioned, RelaxedUp, RelaxedDown, Average, Share, AboveUnloaded, Fallen, High, Mean, Spare, k.Cap,
      v.Valid, Slack, OnFullCell, AtWater;
    FlowsFacts(v, k);
    ViewSize(v, k.Cap());
    var fallen, up, rest := LakeParts(v, k, s, t);
    var p, same := Portioned(v, k, s, t), SameCount(v);
    UpExactly(v, k, s, t, fallen, same);
    DownExactly(v, k, s, t, p.share, rest, same);
    if OnFullCell(v, k, s) {
      if High(v, k) {
        HighLake(v, k, s, t);
      } else {
        LowLake(v, k, s, t, fallen, up, rest);
      }
    }
  }

  lemma HighLake(v: View, k: Kind, s: Settings, t: Tick)
    requires Flows(v, k) && |v.liquid| == |v.level| == 7 && v.liquid[SELF] && High(v, k) && OnFullCell(v, k, s)
    ensures Portioned(v, k, s, t).lake == 0 && Sum(v.level) - k.levelMax >= k.levelMax * SameCount(v) >= SameCount(v)
  {
    HighPortion(v, k, s, t);
    Volumes(v, k);
    BelowIsOpen(v, k, s, t);
    MoreForEach(Mean(v), k.levelMax, SameCount(v));
    MoreForEach(k.levelMax, 1, SameCount(v));
    hide Sum, SameCount, AllCount, Portioned, Mean, Spare, v.Valid, k.Cap;
  }

  lemma BelowIsOpen(v: View, k: Kind, s: Settings, t: Tick)
    requires Flows(v, k) && |v.level| == 7 && OnFullCell(v, k, s)
    ensures |v.liquid| == 7 && v.liquid[BOTTOM] && !AboveUnloaded(v, k, s, t) && Sum(v.level) >= k.levelMax
  {
    SumOfParts(v.level);
    hide SameSum;
  }

  lemma LowLake(v: View, k: Kind, s: Settings, t: Tick, fallen: int, up: int, rest: int)
    requires Flows(v, k) && |v.liquid| == |v.level| == 7 && v.liquid[SELF] && !High(v, k) && OnFullCell(v, k, s)
    requires var p, same := Portioned(v, k, s, t), SameCount(v);
             && fallen == Sum(v.level) - Pos(p.bottom) && up == RelaxedUp(v, k, s, t, fallen, same)
             && rest == up - p.fix - p.share * same && p.total == RelaxedDown(v, k, s, t, p.share, rest, same)
             && p.lake == up - fallen + (p.total - rest)
    ensures fallen == Sum(v.level) - k.levelMax && rest == up - Portioned(v, k, s, t).share * SameCount(v) && up >= 0
    ensures Portioned(v, k, s, t).share <= 0 <==> up < SameCount(v)
    ensures Portioned(v, k, s, t).share <= 0 ==> rest == up
  {
    LowPortion(v, k, s, t);
    BelowIsOpen(v, k, s, t);
    assert k.levelMax > 1 && SameCount(v) >= 1;
    hide Sum, SameCount, AllCount, Portioned, High, Mean, Spare, v.Valid, k.Cap, Flows, OnFullCell, AboveUnloaded;
    var relaxed := LowParts(v, k, s, t);
    var p, same := Portioned(v, k, s, t), SameCount(v);
    ShareOfRest(p.share, same, up, rest, k.levelMax);
  }

  lemma ShareOfRest(share: int, same: nat, up: int, rest: int, max: nat)
    requires same >= 1 && 0 <= share <= max && max > 1 && rest == up - share * same && rest >= 0 && (share < max ==> rest < same)
    ensures share <= 0 <==> up < same
  {
    Arithmetic.ProductOrder(share, 1, same);
  }

  // ----- floods and losses -----

  /** A cave below the water level is flooded fast: enough nodes wait, all five cells of the level are open,
      the node above is full, and the level is at least a quarter full. */
  ghost predicate CaveFloods(v: View, k: Kind, s: Settings, t: Tick, share: int)
    requires |v.liquid| == |v.level| == 7
  {
    && s.fastFlood != 0 && s.fastFlood < t.y < s.waterLevel && t.queued >= 1000 && !k.gas && k.levelMax > 1
    && v.liquid[1] && v.liquid[2] && v.liquid[3] && v.liquid[4] && v.liquid[5]
    && v.level[6] >= k.levelMax && share >= k.levelMax / 4
  }

  /** What the last correction makes of each cell: endless ones keep their level, all but the cell above
      are filled to the normal level in a flood, and nothing else changes. */
  lemma SuppliedExactly(v: View, k: Kind, s: Settings, t: Tick, want: seq<int>, a: Account) returns (w: seq<int>)
    requires Distributed(v, k, s, t, want, a)
    ensures |v.liquid| == |v.level| == |v.endless| == |w| == |want| == 7 && v.liquid[SELF] && Poured(v, k, s, t, w)
    ensures var share := if k.gas then 0 else Portioned(v, k, s, t).share;
            forall i: nat :: i < 7 ==>
              want[i] == if v.endless[i] && w[i] < v.level[i] then v.level[i]
                         else if CaveFloods(v, k, s, t, share) && i < 6 && 0 <= w[i] < k.levelMax then k.levelMax
                         else w[i]
  {
    hide Sum, Portioned, Settle, Topped, GasFilled, Flows, Gained;
    var share := if k.gas then 0 else Portioned(v, k, s, t).share;
    if k.gas {
      var u := GasStage(v, k, s, t, want, a);
      w := Topped(v, k, Stage(u, Sum(v.level) - Sum(u))).want;
    } else {
      LiquidFinished(v, k, s, t, want, a);
      w := Topped(v, k, Settle(v, k, s, t)).want;
    }
    hide Distributed, Finished, Poured;
    forall i: nat | i < 7
      ensures FloodsFast(v, k, s, t, share, i) <==> CaveFloods(v, k, s, t, share) && i < 6
    {
      FloodsExactly(v, k, s, t, share, i);
    }
    hide FloodsFast, CaveFloods;
  }

  lemma FloodsExactly(v: View, k: Kind, s: Settings, t: Tick, share: int, i: nat)
    requires |v.liquid| == |v.level| == 7 && i < 7
    ensures FloodsFast(v, k, s, t, share, i) <==> CaveFloods(v, k, s, t, share) && i < 6
  {
  }

  /** Exactly when a unit is lost because the block below is not loaded. */
  lemma LostBelow(v: View, k: Kind, s: Settings, t: Tick, want: seq<int>, a: Account)
    requires Distributed(v, k, s, t, want, a)
    ensures |v.level| == 7 && 0 <= a.fix <= 1
    ensures a.fix == 1 <==>
            !k.gas && k.levelMax > 1 && v.level[6] == 0 && !v.bottomLoaded && t.y > s.waterLevel && t.loopcount % 3 == 0
  {
    hide Distributed, LeftOver, Poured, Supplied, LakeGain, Gained, Sum, LakeSurface, NearWaterLevel, Still;
    LookAccounted(v, k, s, t, want, a);
  }

  // ----- room and turns -----

  /** A cell takes its normal level, under pressure more by the pressure, but never more than the kind can be
      compressed to. */
  lemma Capacity(k: Kind)
    ensures k.pressure == 0 ==> k.Cap() == k.levelMax
    ensures k.pressure > 0 ==> k.Cap() <= k.compressedMax && k.Cap() <= k.levelMax + k.pressure
    ensures k.pressure > 0 ==> k.Cap() == k.compressedMax || k.Cap() == k.levelMax + k.pressure
  {
  }

  /** The sides take turns: in four turns running each of them comes first once. */
  lemma SidesTakeTurns(turn: nat)
    ensures Row(4 * turn)[2..6] == [2, 3, 4, 5] && Row(4 * turn + 1)[2..6] == [4, 3, 5, 2]
    ensures Row(4 * turn + 2)[2..6] == [3, 5, 4, 2] && Row(4 * turn + 3)[2..6] == [5, 3, 2, 4]
  {
    assert (4 * turn) % 4 == 0 && (4 * turn + 1) % 4 == 1 && (4 * turn + 2) % 4 == 2 && (4 * turn + 3) % 4 == 3;
  }

  // ----- where a gas goes -----

  /** How much a gas cares for a cell: 0 for the one towards its layer, then where the wind blows, up, along,
      and down. */
  ghost function Order(k: Kind, t: Tick, d: nat): nat {
    if k.floatHeight.Some? && ((d == 6 && t.y < k.floatHeight.value) || (d == 0 && t.y > k.floatHeight.value)) then 0
    else if t.wind.Some? && t.wind.value == d then 1
    else if d == 6 then 2 else if d == 0 then 4 else 3
  }

  /** The gas goes there of its own accord: everywhere, but with a layer of its own not away from it. */
  ghost predicate Wanted(k: Kind, t: Tick, d: nat) {
    k.floatHeight.None? || 1 <= d <= 5 || Order(k, t, d) == 0
  }

  /** The gas goes there before it goes to `b`; the cells of the level take turns. */
  ghost predicate GoesFirst(k: Kind, t: Tick, a: nat, b: nat) {
    || Order(k, t, a) < Order(k, t, b)
    || (Order(k, t, a) == 3 == Order(k, t, b) && Precedes(Row(t.loopcount + t.loopRand + 1), a, b))
  }

  ghost predicate Precedes(row: seq<nat>, a: nat, b: nat)
    requires |row| == 7
  {
    exists i: nat, j: nat :: i < j < 7 && row[i] == a && row[j] == b
  }

  lemma UprightFirst(k: Kind, t: Tick, a: nat, b: nat, place: nat)
    requires place < |Upright(k, t)| && Upright(k, t)[place] == b && GoesFirst(k, t, a, b)
    ensures a in Upright(k, t)[..place]
  {
    hide Row;
    var up := Upright(k, t);
    assert up == TowardsLayer(k, t) + WithWind(t) + if k.floatHeight.None? then [TOP] else [];
    assert place == 0 || (place == 1 && up[..1] == [up[0]]);
  }

  lemma UprightOrder(k: Kind, t: Tick, d: nat)
    requires d < 7 && Wanted(k, t, d)
    ensures d in Upright(k, t) <==> Order(k, t, d) < 3
  {
    hide Row;
    UprightMembers(k, t, d);
  }

  lemma InParts(up: seq<nat>, r: seq<nat>, tail: seq<nat>, place: nat)
    requires |up| <= place < |up| + |r| + |tail|
    ensures (up + r + tail)[place] == if place < |up| + |r| then r[place - |up|] else tail[place - |up| - |r|]
    ensures (up + r + tail)[..place] == if place < |up| + |r| then up + r[..place - |up|] else up + r + tail[..place - |up| - |r|]
  {
  }

  lemma PreferredFirst(k: Kind, t: Tick, a: nat, b: nat, place: nat)
    requires a < 7 && b < 7 && Wanted(k, t, a) && Wanted(k, t, b) && GoesFirst(k, t, a, b)
    requires place < |Preference(k, t)| && Preference(k, t)[place] == b
    ensures a in Preference(k, t)[..place]
  {
    hide Row, IsRow, Preference, Upright, Precedes, Order;
    var row, up := Row(t.Turn(1)), Upright(k, t);
    var r, tail := row[SELF..TOP], if k.floatHeight.None? then [BOTTOM] else [];
    PreferenceIs(k, t);
    assert up + r + [] == up + r;
    var p := up + r + tail;
    assert p == Preference(k, t);
    if place < |up| {
      UprightFirst(k, t, a, b, place);
      assert p[..place] == up[..place];
    } else {
      InParts(up, r, tail, place);
      UprightOrder(k, t, a);
      UprightOrder(k, t, b);
      if a !in up {
        BehindUpright(k, t, a, b, place - |up|);
      }
    }
  }

  /** Behind these come the cells of the level in their turn, and below at the end. */
  lemma BehindUpright(k: Kind, t: Tick, a: nat, b: nat, n: nat)
    requires a < 7 && b < 7 && Wanted(k, t, a) && Wanted(k, t, b) && GoesFirst(k, t, a, b) && Order(k, t, a) >= 3
    requires var r, tail := Row(t.Turn(1))[SELF..TOP], if k.floatHeight.None? then [BOTTOM] else [];
             n < 5 + |tail| && b == if n < 5 then r[n] else tail[n - 5]
    ensures a in Row(t.Turn(1))[SELF..TOP][..if n < 5 then n else 5]
  {
    hide Row;
    var row := Row(t.Turn(1));
    var r := row[SELF..TOP];
    assert t.Turn(1) == t.loopcount + t.loopRand + 1;
    SidesOnly(t.Turn(1), a);
    SidesOnly(t.Turn(1), b);
    assert r[..5] == r;
    if n < 5 {
      assert b in r;
      var i: nat, j: nat :| i < j < 7 && row[i] == a && row[j] == b;
      assert row[n + 1] == b && row[0] == BOTTOM;
      assert r[i - 1] == a;
      assert r[..n][i - 1] == a;
    }
  }

  /** Of two cells that a gas wants, the one that comes first has as much as the other or one unit more. */
  lemma GasGoes(v: View, k: Kind, t: Tick, w: seq<int>, a: nat, b: nat)
    requires |v.liquid| == |w| == 7 && GasSettled(v, k, t, w) && a < 7 && b < 7 && v.liquid[a] && v.liquid[b]
    requires Wanted(k, t, a) && Wanted(k, t, b) && GoesFirst(k, t, a, b)
    ensures w[b] <= w[a] <= w[b] + 1
  {
    hide Row, Preference, Order, Precedes, Fallback, AtLevel, GoesFirst, Listed;
    var p := Preference(k, t);
    var dirs := Listed(v, p);
    InPreference(k, t, a);
    InPreference(k, t, b);
    ListedMembers(v, p, a);
    ListedMembers(v, p, b);
    var i :| 0 <= i < |dirs| && dirs[i] == a;
    var j :| 0 <= j < |dirs| && dirs[j] == b;
    if j < i {
      ListedOrder(v, p, j, i);
      var place: nat :| place < |p| && p[place] == b && a !in p[..place + 1];
      PreferredFirst(k, t, a, b, place);
      assert false;
    }
  }

  lemma InPreference(k: Kind, t: Tick, d: nat)
    requires d < 7
    ensures d in Preference(k, t) <==> Wanted(k, t, d)
  {
    PreferenceMembers(k, t, d);
    hide Preference;
  }

  /** Elsewhere it goes only when it has filled all of those; at its layer it goes up and down in turn. */
  lemma GasFallsBack(v: View, k: Kind, t: Tick, w: seq<int>, f: nat, d: nat)
    requires |v.liquid| == |w| == 7 && GasSettled(v, k, t, w) && f < 7 && d < 7 && v.liquid[f] && v.liquid[d] && !Wanted(k, t, f)
    ensures f == 0 || f == 6
    ensures Wanted(k, t, d) && w[f] != 0 ==> w[d] == k.levelMax
    ensures !Wanted(k, t, d) && d != f ==>
              var first := if (t.loopcount + t.loopRand) % 2 == 1 then 6 else 0;
              var second := 6 - first;
              w[second] <= w[first] <= w[second] + 1
  {
    hide Row, Preference, Listed, Fair;
    var dirs := Listed(v, Preference(k, t));
    InPreference(k, t, f);
    InPreference(k, t, d);
    ListedMembers(v, Preference(k, t), f);
    ListedMembers(v, Preference(k, t), d);
    if !Wanted(k, t, d) && d != f {
      FairTwo(v, k, w, Fallback(k, t));
    }
  }

  lemma FairTwo(v: View, k: Kind, w: seq<int>, dirs: seq<nat>)
    requires |v.liquid| == |w| == 7 && AreCells(dirs) && |dirs| == 2 && Fair(v, k, w, dirs) && v.liquid[dirs[0]] && v.liquid[dirs[1]]
    ensures w[dirs[1]] <= w[dirs[0]] <= w[dirs[1]] + 1
  {
  }
}
