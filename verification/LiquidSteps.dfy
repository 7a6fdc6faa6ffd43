/** The loops that compute what one look at a liquid does, step by step in an array of targets. */
module LiquidSteps {
  import Arithmetic
  import opened Liquid
  import opened LiquidLaws
  import opened Wrappers

  /** Sets the target of one cell. */
  method Put(v: View, want: array<int>, k: Kind, i: nat, x: int)
    requires i < 7 && |v.liquid| == 7 && v.liquid[i] && 0 <= x <= k.Cap()
    requires want.Length == 7 && Targets(v, want[..], k.Cap())
    modifies want
    ensures Targets(v, want[..], k.Cap())
    ensures want[..] == old(want[..])[i := x]
    ensures Sum(want[..]) == old(Sum(want[..])) - old(want[i]) + x
  {
    PutFacts(v, k.Cap(), want[..], i, x);
    hide Sum, Targets;
    want[i] := x;
    assert want[..] == old(want[..])[i := x];
  }

  // ----- a liquid that falls and spreads -----

  /** Fills the cell below. */
  method Gravity(v: View, k: Kind, want: array<int>, total0: nat) returns (average: nat, total: int)
    requires Flows(v, k) && want.Length == 7 && |v.liquid| == |v.level| == 7 && want[..] == Empty(v)
    requires total0 == Sum(v.level)
    modifies want
    ensures average == Average(k, total0, AllCount(v)) && want[..] == Empty(v)[BOTTOM := Fallen(v, k, average, total0)]
    ensures total == total0 - Pos(want[BOTTOM])
  {
    total := total0;
    FallenBounds(v, k);
    StartFacts(v, k.Cap(), if v.liquid[BOTTOM] then 0 else -1);
    average := Average(k, total0, AllCount(v));
    assert Empty(v)[BOTTOM := if v.liquid[BOTTOM] then 0 else -1] == Empty(v);
    hide AllCount, Sum, Average, v.Valid, k.Cap, Targets;
    if v.liquid[BOTTOM] {
      var bottom := if average > k.levelMax then average else if total > k.levelMax then k.levelMax else total;
      Put(v, want, k, BOTTOM, bottom);
      total := total - bottom;
    }
  }

  /** What the first half of the settling decides. */
  method Apportion(v: View, k: Kind, s: Settings, t: Tick, want: array<int>, total0: nat)
    returns (share: int, total: int, lake: int, fix: nat)
    requires Flows(v, k) && want.Length == 7 && |v.liquid| == |v.level| == 7 && v.liquid[SELF] && want[..] == Empty(v)
    requires total0 == Sum(v.level)
    modifies want
    ensures Portioned(v, k, s, t) == Portion(want[BOTTOM], share, total, lake, fix)
    ensures want[..] == Empty(v)[BOTTOM := want[BOTTOM]]
  {
    var same := SameCount(v);
    var average, fallen := Gravity(v, k, want, total0);
    hide Sum, SameCount, AllCount, AboveUnloaded, RelaxedUp, RelaxedDown, Average, Fallen, Share, Flows, Empty;
    var relaxed := RelaxedUp(v, k, s, t, fallen, same);
    fix := One(AboveUnloaded(v, k, s, t));
    share := Share(k, average, relaxed - fix, same);
    var rest := relaxed - fix - share * same;
    total := RelaxedDown(v, k, s, t, share, rest, same);
    lake := relaxed - fallen + (total - rest);
    PortionIs(v, k, s, t, want[BOTTOM], relaxed, share, total);
  }

  /** Gives one cell its share, and a unit more if it may have it. */
  method ServeCell(v: View, want: array<int>, k: Kind, i: nat, share: nat, total: int, loopcount: nat) returns (left: int)
    requires v.Valid(k.Cap()) && k.Proper() && want.Length == 7 && Targets(v, want[..], k.Cap())
    requires 1 <= i < 6 && v.liquid[i] && share <= k.Cap()
    modifies want
    ensures Targets(v, want[..], k.Cap())
    ensures left == total - One(i in Thirsty(v, k, share, loopcount) && total > 0)
    ensures want[..] == old(want[..])[i := share + (total - left)]
  {
    left := total;
    hide Sum, Targets;
    Put(v, want, k, i, share);
    if want[i] < k.levelMax && left > 0 {
      if k.levelMax > LEVEL_SOURCE || loopcount % 3 != 0 || v.level[i] <= 0 {
        if v.level[i] > want[i] {
          Put(v, want, k, i, want[i] + 1);
          left := left - 1;
        }
      } else {
        Put(v, want, k, i, want[i] + 1);
        left := left - 1;
      }
    }
  }

  /** Gives every cell of the level its share, and a unit more to the first that may have it. */
  method FillSameLevel(v: View, want: array<int>, k: Kind, t: Tick, share: nat, total: int) returns (left: int)
    requires v.Valid(k.Cap()) && k.Proper() && want.Length == 7 && Targets(v, want[..], k.Cap())
    requires share <= k.Cap()
    modifies want
    ensures Targets(v, want[..], k.Cap()) && Stage(want[..], left) == Filled(v, k, t, Stage(old(want[..]), total), share)
  {
    left := total;
    var row := Row(t.Turn(1));
    ghost var first, may := want[..], Thirsty(v, k, share, t.loopcount);
    hide Row, Targets, Thirsty, Gets, v.Valid, IsRow;
    for j := SELF to TOP
      invariant Targets(v, want[..], k.Cap())
      invariant want[..] == SharedOut(v, first, row, j, share, may, total) && left == Remaining(total, Waiting(row, may, 1, j))
    {
      left := FillNext(v, want, k, t, share, left, row, j, first, total);
    }
  }

  method FillNext(v: View, want: array<int>, k: Kind, t: Tick, share: nat, left0: int, row: seq<nat>, j: nat,
                  ghost first: seq<int>, ghost total: int)
    returns (left: int)
    requires v.Valid(k.Cap()) && k.Proper() && want.Length == 7 && Targets(v, want[..], k.Cap())
    requires share <= k.Cap() && |first| == 7 && IsRow(row) && AreCells(row) && 1 <= j < 6
    requires want[..] == SharedOut(v, first, row, j, share, Thirsty(v, k, share, t.loopcount), total)
    requires left0 == Remaining(total, Waiting(row, Thirsty(v, k, share, t.loopcount), 1, j))
    modifies want
    ensures Targets(v, want[..], k.Cap())
    ensures want[..] == SharedOut(v, first, row, j + 1, share, Thirsty(v, k, share, t.loopcount), total)
    ensures left == Remaining(total, Waiting(row, Thirsty(v, k, share, t.loopcount), 1, j + 1))
  {
    hide RANDOM_MAP, Targets, Thirsty, Gets, v.Valid, k.Proper, k.Cap, Remaining, Waiting, SharedOut;
    left := left0;
    ViewSize(v, k.Cap());
    ghost var may := Thirsty(v, k, share, t.loopcount);
    var i := row[j];
    assert |row| == 7;
    hide IsRow;
    GetsNext(row, may, 1, j, total);
    InSameLevel(row, j);
    OnlyLiquid(v, k, share, t.loopcount, i);
    SharedUnfolds(v, first, row, j, share, may, total);
    if !v.liquid[i] {
      return;
    }
    left := ServeCell(v, want, k, i, share, left, t.loopcount);
  }

  lemma SharedUnfolds(v: View, w: seq<int>, row: seq<nat>, j: nat, share: int, may: set<nat>, total: int)
    requires |v.liquid| == |w| == |row| == 7 && AreCells(row) && 1 <= j < 6
    ensures var before := SharedOut(v, w, row, j, share, may, total);
            SharedOut(v, w, row, j + 1, share, may, total) ==
            if v.liquid[row[j]] then before[row[j] := share + One(Gets(row, may, 1, j, total))] else before
  {
  }

  lemma OnlyLiquid(v: View, k: Kind, share: int, loopcount: nat, i: nat)
    requires |v.liquid| == |v.level| == 7 && i < 7
    ensures i in Thirsty(v, k, share, loopcount) ==> v.liquid[i]
  {
  }

  /** Hands out units one by one in the given order to the cells below `max`. */
  method HandOut(v: View, want: array<int>, k: Kind, row: seq<nat>, from: nat, until: nat, max: nat, total: int)
    returns (left: int)
    requires |v.liquid| == want.Length == 7 && Targets(v, want[..], k.Cap()) && max <= k.Cap()
    requires IsRow(row) && AreCells(row) && from <= until <= 7
    modifies want
    ensures Targets(v, want[..], k.Cap()) && Stage(want[..], left) == HandedOn(Stage(old(want[..]), total), row, from, until, max)
  {
    left := total;
    ghost var first, may := want[..], Room(want[..], max);
    hide Sum, Targets, Gets, IsRow, Room;
    for j := from to until
      invariant Targets(v, want[..], k.Cap())
      invariant want[..] == Handed(first, row, may, from, j, total) && left == Remaining(total, Waiting(row, may, from, j))
    {
      if left < 1 {
        HandedNoMore(first, row, may, from, j, until, total);
        return;
      }
      left := HandOne(v, want, k, row, from, j, max, left, first, total);
    }
  }

  /** What the next cell of the order gets. */
  lemma HandedNext(first: seq<int>, w: seq<int>, row: seq<nat>, from: nat, j: nat, max: nat, left: int, total: int)
    requires |first| == |w| == 7 && IsRow(row) && AreCells(row) && from <= j < 7
    requires w == Handed(first, row, Room(first, max), from, j, total)
    requires 0 < left == Remaining(total, Waiting(row, Room(first, max), from, j))
    ensures row[j] < 7
    ensures 0 <= w[row[j]] < max ==>
              && Handed(first, row, Room(first, max), from, j + 1, total) == w[row[j] := w[row[j]] + 1]
              && Remaining(total, Waiting(row, Room(first, max), from, j + 1)) == left - 1
    ensures !(0 <= w[row[j]] < max) ==>
              && Handed(first, row, Room(first, max), from, j + 1, total) == w
              && Remaining(total, Waiting(row, Room(first, max), from, j + 1)) == left
  {
    var i := row[j];
    assert i < 7 == |row|;
    var may := Room(first, max);
    assert i in may <==> 0 <= first[i] < max;
    assert w[i := w[i] + 0] == w;
    hide Gets, IsRow, Room, Waiting, Remaining, Handed;
    NotYetHanded(first, w, row, may, from, j, total);
    GetsNext(row, may, from, j, total);
    HandedUnfolds(first, row, may, from, j, total);
    assert One(Gets(row, may, from, j, total)) == One(0 <= w[i] < max);
  }

  lemma NotYetHanded(first: seq<int>, w: seq<int>, row: seq<nat>, may: set<nat>, from: nat, j: nat, total: int)
    requires |first| == |w| == 7 && IsRow(row) && AreCells(row) && from <= j < 7 && w == Handed(first, row, may, from, j, total)
    ensures w[row[j]] == first[row[j]]
  {
    HandedExactly(first, row, may, from, j, total);
    HandNext(first, w, row, may, from, j, total);
    hide *;
  }

  lemma HandedUnfolds(w: seq<int>, row: seq<nat>, may: set<nat>, from: nat, j: nat, total: int)
    requires |w| == |row| == 7 && AreCells(row) && from <= j < 7
    ensures var before := Handed(w, row, may, from, j, total);
            Handed(w, row, may, from, j + 1, total) == before[row[j] := before[row[j]] + One(Gets(row, may, from, j, total))]
  {
  }

  method HandOne(v: View, want: array<int>, k: Kind, row: seq<nat>, ghost from: nat, j: nat, max: nat, left0: int,
                 ghost first: seq<int>, ghost total: int)
    returns (left: int)
    requires |v.liquid| == want.Length == |first| == 7 && Targets(v, want[..], k.Cap()) && max <= k.Cap()
    requires IsRow(row) && AreCells(row) && from <= j < 7
    requires want[..] == Handed(first, row, Room(first, max), from, j, total)
    requires 0 < left0 == Remaining(total, Waiting(row, Room(first, max), from, j))
    modifies want
    ensures Targets(v, want[..], k.Cap())
    ensures want[..] == Handed(first, row, Room(first, max), from, j + 1, total)
    ensures left == Remaining(total, Waiting(row, Room(first, max), from, j + 1))
  {
    left := left0;
    var i := row[j];
    assert i < 7;
    hide RANDOM_MAP, Sum, HandedOut, Targets, Gets, IsRow, Room, Waiting, Remaining, Handed, k.Cap;
    HandedNext(first, want[..], row, from, j, max, left, total);
    TargetAt(v, k.Cap(), want[..], i);
    if want[i] >= 0 && want[i] < max {
      Put(v, want, k, i, want[i] + 1);
      left := left - 1;
    }
  }

  /** Serves the cells of one level in turn, one unit each, while something is left. */
  method SpreadRest(v: View, want: array<int>, k: Kind, total: int, turn: nat) returns (left: int)
    requires v.Valid(k.Cap()) && k.Proper() && want.Length == 7 && Targets(v, want[..], k.Cap())
    modifies want
    ensures Targets(v, want[..], k.Cap())
    ensures Stage(want[..], left) == HandedOn(Stage(old(want[..]), total), Row(turn), SELF, TOP, k.levelMax)
  {
    assert k.levelMax <= k.Cap() && |v.liquid| == 7;
    hide *;
    left := HandOut(v, want, k, Row(turn), SELF, TOP, k.levelMax, total);
  }

  /** Presses what is left into all cells, one unit each, beyond their normal level. */
  method Compress(v: View, k: Kind, want: array<int>, total: int, turn: nat) returns (left: int)
    requires v.Valid(k.Cap()) && k.Proper() && want.Length == 7 && Targets(v, want[..], k.Cap())
    modifies want
    ensures Targets(v, want[..], k.Cap())
    ensures Stage(want[..], left) == HandedOn(Stage(old(want[..]), total), Row(turn), 0, 7, k.Cap())
  {
    assert |v.liquid| == 7;
    hide *;
    left := HandOut(v, want, k, Row(turn), 0, 7, k.Cap(), total);
  }

  /** Adds to the cell above what the cells below it could not take. */
  method FillAbove(v: View, k: Kind, want: array<int>, total: int) returns (left: int)
    requires v.Valid(k.Cap()) && k.Proper() && want.Length == 7 && Targets(v, want[..], k.Cap())
    requires v.liquid[TOP] && want[TOP] <= k.levelMax && total > 0
    modifies want
    ensures Targets(v, want[..], k.Cap())
    ensures var up := Min(total, k.levelMax - Pos(old(want[TOP])));
            want[..] == old(want[..])[TOP := Pos(old(want[TOP])) + up] && left == total - up
  {
    var current := if want[TOP] > 0 then want[TOP] else 0;
    var add := Min(total, k.levelMax - current);
    Put(v, want, k, TOP, current + add);
    left := total - add;
  }

  /** What the level could not take goes up, and under pressure into all cells. */
  method Rise(v: View, k: Kind, t: Tick, want: array<int>, total: int) returns (left: int)
    requires v.Valid(k.Cap()) && k.Proper() && want.Length == 7 && Targets(v, want[..], k.Cap())
    requires v.liquid[TOP] ==> want[TOP] <= k.levelMax
    modifies want
    ensures Targets(v, want[..], k.Cap()) && Stage(want[..], left) == Raised(v, k, t, Stage(old(want[..]), total))
  {
    left := total;
    assert 0 <= TOP < 7 == |v.liquid|;
    ghost var g := Stage(want[..], total);
    hide *;
    if v.liquid[TOP] && left > 0 {
      left := FillAbove(v, k, want, left);
      ghost var filled := Stage(want[..], left);
      RaisedUp(v, k, t, g, filled);
      if left > 0 && k.pressure != 0 {
        left := Compress(v, k, want, left, t.Turn(3));
      }
    } else {
      RaisedNone(v, k, t, g);
    }
  }

  lemma RaisedNone(v: View, k: Kind, t: Tick, g: Stage)
    requires |v.liquid| == |g.want| == 7 && (!v.liquid[TOP] || g.left <= 0)
    ensures Raised(v, k, t, g) == g
  {
  }

  lemma RaisedUp(v: View, k: Kind, t: Tick, g: Stage, filled: Stage)
    requires |v.liquid| == |g.want| == 7 && v.liquid[TOP] && g.left > 0
    requires filled.want == g.want[TOP := Pos(g.want[TOP]) + Min(g.left, k.levelMax - Pos(g.want[TOP]))]
    requires filled.left == g.left - Min(g.left, k.levelMax - Pos(g.want[TOP]))
    ensures Raised(v, k, t, g) ==
            if filled.left > 0 && k.pressure != 0 then HandedOn(filled, Row(t.Turn(3)), 0, 7, k.Cap()) else filled
  {
    hide HandedOn, Row;
  }

  /** Takes a unit from one cell to another. */
  method Move(v: View, k: Kind, want: array<int>, i: nat, j: nat)
    requires i < 7 && j < 7 && i != j && |v.liquid| == 7 && v.liquid[i] && v.liquid[j]
    requires want.Length == 7 && Targets(v, want[..], k.Cap()) && want[i] > 0 && want[j] < k.Cap()
    modifies want
    ensures Targets(v, want[..], k.Cap()) && want[..] == Moved(old(want[..]), i, j)
  {
    TargetAt(v, k.Cap(), want[..], i);
    TargetAt(v, k.Cap(), want[..], j);
    hide Sum, Targets, k.Cap;
    Put(v, want, k, i, want[i] - 1);
    Put(v, want, k, j, want[j] + 1);
  }

  /** Under pressure one unit sinks. */
  method Sink(v: View, k: Kind, want: array<int>)
    requires v.Valid(k.Cap()) && k.Proper() && want.Length == 7 && Targets(v, want[..], k.Cap())
    modifies want
    ensures Targets(v, want[..], k.Cap()) && want[..] == Sunk(v, k, old(want[..]))
  {
    TargetAt(v, k.Cap(), want[..], TOP);
    assert v.liquid[SELF] && |v.liquid| == 7;
    hide Sum, Moved, Targets, v.Valid, k.Cap;
    if v.liquid[BOTTOM] && want[BOTTOM] < k.Cap() && want[TOP] > 0 {
      Move(v, k, want, TOP, BOTTOM);
    } else if v.liquid[BOTTOM] && want[BOTTOM] < k.Cap() && want[SELF] > k.levelMax {
      if want[BOTTOM] <= want[SELF] {
        Move(v, k, want, SELF, BOTTOM);
      }
    } else if v.liquid[TOP] && want[SELF] < k.Cap() && want[TOP] > k.levelMax {
      if want[SELF] <= want[TOP] {
        Move(v, k, want, TOP, SELF);
      }
    }
  }

  /** Distributes a liquid: down, sideways, up. */
  method SettleLiquid(v: View, k: Kind, s: Settings, t: Tick, want: array<int>, total0: nat)
    returns (share: int, left: int, lake: int, fix: nat)
    requires Flows(v, k) && want.Length == 7 && |v.liquid| == |v.level| == 7 && v.liquid[SELF] && want[..] == Empty(v)
    requires total0 == Sum(v.level)
    modifies want
    ensures Targets(v, want[..], k.Cap()) && Stage(want[..], left) == Settle(v, k, s, t)
    ensures var p := Portioned(v, k, s, t); share == p.share && lake == p.lake && fix == p.fix
  {
    PortionFacts(v, k, s, t);
    StartFacts(v, k.Cap(), Portioned(v, k, s, t).bottom);
    FlowsFacts(v, k);
    LevelFacts(v, k, s, t);
    hide Portioned, Empty, Raised, Sunk, Filled, HandedOn, Row, Targets, v.Valid, k.Cap, k.Proper, Sum, SameCount, SameSum, Above,
      SameWithin, Flows, Levelled;
    share, left, lake, fix := Apportion(v, k, s, t, want, total0);
    left := FillLevel(v, k, t, want, share, left);
    left := Rise(v, k, t, want, left);
    if k.pressure != 0 {
      Sink(v, k, want);
    }
  }

  /** Fills the cells of one level, and spreads the rest over them. */
  method FillLevel(v: View, k: Kind, t: Tick, want: array<int>, share: nat, total: int) returns (left: int)
    requires v.Valid(k.Cap()) && k.Proper() && want.Length == 7 && Targets(v, want[..], k.Cap())
    requires share <= k.Cap()
    modifies want
    ensures Targets(v, want[..], k.Cap()) && Stage(want[..], left) == Levelled(v, k, t, Stage(old(want[..]), total), share)
  {
    hide v.Valid, Targets, Filled, HandedOn, Row, k.Cap, k.Proper;
    left := FillSameLevel(v, want, k, t, share, total);
    left := SpreadRest(v, want, k, left, t.Turn(2));
  }

  // ----- a gas that rises and spreads -----

  lemma ListedGrows(v: View, p: seq<nat>, d: nat)
    requires |v.liquid| == 7 && AreCells(p) && d < 7
    ensures Listed(v, p + [d]) == AddDirection(v, Listed(v, p), d)
  {
    assert (p + [d])[..|p|] == p;
  }

  /** The directions in the order of preference. */
  method GasDirections(v: View, k: Kind, t: Tick) returns (dirs: seq<nat>)
    requires v.Valid(k.Cap())
    ensures dirs == Listed(v, Preference(k, t))
  {
    assert |v.liquid| == 7;
    hide *;
    var row := Row(t.Turn(1));
    dirs := UprightDirections(v, k, t);
    dirs := SideDirections(v, row, Upright(k, t), dirs);
    PreferenceIs(k, t);
    if k.floatHeight.None? {
      dirs := Append(v, dirs, Upright(k, t) + row[SELF..TOP], BOTTOM);
      dirs := AnyDirections(v, k, t, dirs);
    }
  }

  /** Towards the layer where the gas floats, with the wind, and up. */
  method UprightDirections(v: View, k: Kind, t: Tick) returns (dirs: seq<nat>)
    requires |v.liquid| == 7
    ensures dirs == Listed(v, Upright(k, t))
  {
    dirs := [];
    assert Listed(v, []) == [];
    UprightIs(k, t);
    ghost var towards, wind := TowardsLayer(k, t), WithWind(t);
    hide *;
    if k.floatHeight.Some? && t.y != k.floatHeight.value {
      dirs := Append(v, dirs, [], if t.y < k.floatHeight.value then TOP else BOTTOM);
    }
    assert dirs == Listed(v, towards);
    if t.wind.Some? {
      dirs := Append(v, dirs, towards, t.wind.value);
    }
    assert dirs == Listed(v, towards + wind);
    if k.floatHeight.None? {
      dirs := Append(v, dirs, towards + wind, TOP);
    }
  }

  lemma UprightIs(k: Kind, t: Tick)
    ensures k.floatHeight.Some? && t.y != k.floatHeight.value ==>
              TowardsLayer(k, t) == [] + [if t.y < k.floatHeight.value then TOP else BOTTOM]
    ensures k.floatHeight.None? || t.y == k.floatHeight.value ==> TowardsLayer(k, t) == []
    ensures var p := TowardsLayer(k, t);
            p + WithWind(t) == if t.wind.Some? then p + [t.wind.value] else p
    ensures var p := TowardsLayer(k, t) + WithWind(t);
            Upright(k, t) == if k.floatHeight.None? then p + [TOP] else p
  {
  }

  /** To the sides. */
  method SideDirections(v: View, row: seq<nat>, p: seq<nat>, dirs0: seq<nat>) returns (dirs: seq<nat>)
    requires |v.liquid| == |row| == 7 && AreCells(row) && AreCells(p) && dirs0 == Listed(v, p)
    ensures AreCells(p + row[SELF..TOP]) && dirs == Listed(v, p + row[SELF..TOP])
  {
    dirs := dirs0;
    hide AddDirection, Listed;
    assert p + row[SELF..SELF] == p;
    for j := SELF to TOP
      invariant dirs == Listed(v, p + row[SELF..j])
    {
      dirs := Append(v, dirs, p + row[SELF..j], row[j]);
      assert p + row[SELF..j] + [row[j]] == p + row[SELF..j + 1];
    }
  }

  /** A gas without a layer has everything listed already. */
  method AnyDirections(v: View, k: Kind, t: Tick, dirs0: seq<nat>) returns (dirs: seq<nat>)
    requires |v.liquid| == 7 && k.floatHeight.None? && dirs0 == Listed(v, Preference(k, t))
    ensures dirs == dirs0
  {
    dirs := dirs0;
    hide Listed, Preference, Directions;
    for d := BOTTOM to 7
      invariant dirs == dirs0
    {
      PreferenceMembers(k, t, d);
      ListedMembers(v, Preference(k, t), d);
      dirs := AddDirection(v, dirs, d);
    }
  }

  method Append(v: View, dirs0: seq<nat>, ghost p: seq<nat>, d: nat) returns (dirs: seq<nat>)
    requires |v.liquid| == 7 && AreCells(p) && dirs0 == Listed(v, p) && d < 7
    ensures dirs == Listed(v, p + [d])
  {
    ListedGrows(v, p, d);
    dirs := AddDirection(v, dirs0, d);
  }

  /** The other cells are as they were. */
  ghost predicate SameBeyond(w: seq<int>, w': seq<int>, dirs: seq<nat>)
    requires |w| == |w'| == 7
  {
    forall d: nat :: d < 7 && d !in dirs ==> w'[d] == w[d]
  }

  /** Directions at `base` have been served in some full rounds, and in the next up to a place of the
      list; the other cells are as in `first`. */
  ghost predicate Rounds(v: View, k: Kind, first: seq<int>, w: seq<int>, dirs: seq<nat>, base: nat, round: nat, place: nat) {
    && |v.liquid| == |first| == |w| == 7 && AreCells(dirs) && Distinct(dirs)
    && Targets(v, w, k.Cap()) && SameBeyond(first, w, dirs)
    && forall i :: 0 <= i < |dirs| && v.liquid[dirs[i]] ==> w[dirs[i]] == InRound(k, base, round, i < place)
  }

  function InRound(k: Kind, base: nat, round: nat, served: bool): int {
    Min(k.levelMax, base + round + One(served))
  }

  /** Serves the directions round after round, one unit each, up to the normal level; gives up only
      when all of them are full. */
  method RoundRobin(v: View, k: Kind, want: array<int>, dirs: seq<nat>, total: nat, ghost base: nat) returns (left: nat)
    requires v.Valid(k.Cap()) && k.Proper() && want.Length == 7 && Targets(v, want[..], k.Cap())
    requires |dirs| > 0 && AreCells(dirs) && Distinct(dirs)
    requires base <= k.levelMax && AtLevel(v, want[..], dirs, base)
    modifies want
    ensures Targets(v, want[..], k.Cap()) && left <= total
    ensures Sum(want[..]) + left == old(Sum(want[..])) + total
    ensures Fair(v, k, want[..], dirs) && SameBeyond(old(want[..]), want[..], dirs)
    ensures left > 0 ==> AtLevel(v, want[..], dirs, k.levelMax)
  {
    left := total;
    var tries := 0;
    ghost var first, round, place := want[..], 0, 0;
    assert Rounds(v, k, first, want[..], dirs, base, 0, 0);
    hide *;
    while left > 0 && tries < |dirs| * k.levelMax
      invariant Rounds(v, k, first, want[..], dirs, base, round, place) && 0 <= left <= total
      invariant Sum(want[..]) + left == old(Sum(want[..])) + total
      invariant tries == round * |dirs| + place && 0 <= place < |dirs| && 0 <= tries
      decreases |dirs| * k.levelMax - tries
    {
      PlaceInRound(tries, round, place, |dirs|);
      left := ServeDirection(v, k, want, dirs, tries % |dirs|, left, first, base, round);
      tries := tries + 1;
      if place + 1 == |dirs| {
        NextRound(v, k, first, want[..], dirs, base, round);
        round, place := round + 1, 0;
      } else {
        place := place + 1;
      }
    }
    if left > 0 {
      RoundsDone(tries, round, place, |dirs|, k.levelMax);
    }
    RoundsAreFair(v, k, first, want[..], dirs, base, round, place);
  }

  method ServeDirection(v: View, k: Kind, want: array<int>, dirs: seq<nat>, place: nat, left0: nat,
                        ghost first: seq<int>, ghost base: nat, ghost round: nat)
    returns (left: nat)
    requires k.Proper() && want.Length == 7 && place < |dirs| && left0 > 0
    requires Rounds(v, k, first, want[..], dirs, base, round, place)
    modifies want
    ensures Rounds(v, k, first, want[..], dirs, base, round, place + 1)
    ensures Sum(want[..]) + left == old(Sum(want[..])) + left0 && left0 - 1 <= left <= left0
  {
    left := left0;
    ghost var w := want[..];
    var d := dirs[place];
    assert |v.liquid| == 7 && d < 7 && Targets(v, w, k.Cap());
    RoundsStep(v, k, first, w, dirs, base, round, place);
    hide Sum, Rounds, Targets;
    if v.liquid[d] && want[d] < k.levelMax {
      Put(v, want, k, d, want[d] + 1);
      left := left - 1;
    }
  }

  lemma RoundsStep(v: View, k: Kind, first: seq<int>, w: seq<int>, dirs: seq<nat>, base: nat, round: nat, place: nat)
    requires k.Proper() && Rounds(v, k, first, w, dirs, base, round, place) && place < |dirs|
    ensures var d := dirs[place];
            && k.levelMax <= k.Cap() && (v.liquid[d] ==> w[d] >= 0)
            && Rounds(v, k, first, if v.liquid[d] && w[d] < k.levelMax then w[d := w[d] + 1] else w, dirs, base, round, place + 1)
  {
    var d := dirs[place];
    assert d in dirs;
    var w' := if v.liquid[d] && w[d] < k.levelMax then w[d := w[d] + 1] else w;
    forall i | 0 <= i < |dirs| && v.liquid[dirs[i]]
      ensures w'[dirs[i]] == InRound(k, base, round, i < place + 1)
    {
      if i < place {
        assert dirs[i] != dirs[place];
      } else if i > place {
        assert dirs[place] != dirs[i];
      }
    }
    hide Distinct;
  }

  lemma NextRound(v: View, k: Kind, first: seq<int>, w: seq<int>, dirs: seq<nat>, base: nat, round: nat)
    requires Rounds(v, k, first, w, dirs, base, round, |dirs|)
    ensures Rounds(v, k, first, w, dirs, base, round + 1, 0)
  {
    hide Distinct, Targets, SameBeyond;
  }

  lemma RoundsAreFair(v: View, k: Kind, first: seq<int>, w: seq<int>, dirs: seq<nat>, base: nat, round: nat, place: nat)
    requires Rounds(v, k, first, w, dirs, base, round, place)
    ensures |v.liquid| == |first| == |w| == 7 && AreCells(dirs)
    ensures Targets(v, w, k.Cap()) && SameBeyond(first, w, dirs) && Fair(v, k, w, dirs)
    ensures round >= k.levelMax ==> AtLevel(v, w, dirs, k.levelMax)
  {
    hide Distinct, Targets, SameBeyond;
  }

  lemma PlaceInRound(tries: nat, round: nat, place: nat, n: nat)
    requires tries == round * n + place && place < n
    ensures tries % n == place
    ensures (round + 1) * n == round * n + n
  {
    Arithmetic.DivisionUnique(tries, round, n, place);
    assert (round + 1) * n == round * n + n;
  }

  lemma RoundsDone(tries: nat, round: nat, place: nat, n: nat, max: nat)
    requires tries == round * n + place && place < n && tries >= n * max
    ensures round >= max
  {
    Arithmetic.ProductOrder(round, max, n);
    assert max * n == n * max;
  }

  function Times(n: nat, x: nat): nat {
    if n == 0 then 0 else Times(n - 1, x) + x
  }

  lemma {:induction false} TimesIsProduct(n: nat, x: nat)
    ensures Times(n, x) == n * x
  {
    if n > 0 {
      TimesIsProduct(n - 1, x);
      assert n * x == (n - 1) * x + x;
    }
  }

  /** Gives every listed direction the same level. */
  method EvenShare(v: View, k: Kind, want: array<int>, dirs: seq<nat>, total: nat, level: nat) returns (left: int)
    requires v.Valid(k.Cap()) && k.Proper() && want.Length == 7 && Targets(v, want[..], 0)
    requires Directions(v, dirs) && level <= k.levelMax
    modifies want
    ensures Targets(v, want[..], k.Cap())
    ensures Sum(want[..]) + left == total && left == total - |dirs| * level
    ensures AtLevel(v, want[..], dirs, level) && SameBeyond(old(want[..]), want[..], dirs)
  {
    left := total;
    SumOfNothing(v, want[..]);
    hide Sum, Targets;
    for i := 0 to |dirs|
      invariant Targets(v, want[..], k.Cap()) && SameBeyond(old(want[..]), want[..], dirs)
      invariant AtLevel(v, want[..], dirs[..i], level) && AtLevel(v, want[..], dirs[i..], 0)
      invariant Sum(want[..]) + left == total && left == total - Times(i, level)
    {
      assert dirs[i] in dirs && dirs[i..][0] == dirs[i];
      SharesGrow(v, want[..], dirs, i, level);
      Put(v, want, k, dirs[i], level);
      left := left - level;
    }
    TimesIsProduct(|dirs|, level);
    assert dirs[..|dirs|] == dirs;
  }

  lemma SharesGrow(v: View, w: seq<int>, dirs: seq<nat>, i: nat, level: int)
    requires |v.liquid| == |w| == 7 && Directions(v, dirs) && i < |dirs|
    requires AtLevel(v, w, dirs[..i], level) && AtLevel(v, w, dirs[i..], 0)
    ensures var w' := w[dirs[i] := level]; AtLevel(v, w', dirs[..i + 1], level) && AtLevel(v, w', dirs[i + 1..], 0)
  {
    var w', first, rest := w[dirs[i] := level], dirs[..i + 1], dirs[i + 1..];
    forall j | 0 <= j < |first|
      ensures w'[first[j]] == level
    {
      if j < i {
        assert dirs[..i][j] == dirs[j] != dirs[i];
      }
    }
    forall j | 0 <= j < |rest|
      ensures w'[rest[j]] == 0
    {
      assert dirs[i..][j + 1] == dirs[i + 1 + j] != dirs[i];
    }
  }

  lemma SumOfNothing(v: View, w: seq<int>)
    requires Targets(v, w, 0)
    ensures Sum(w) == 0
  {
  }

  /** The preferred directions have been served, the others have nothing. */
  ghost predicate PreferredServed(v: View, k: Kind, t: Tick, w: seq<int>)
    requires |v.liquid| == |w| == 7
  {
    var dirs := Listed(v, Preference(k, t));
    Fair(v, k, w, dirs) && forall d: nat :: d < 7 && v.liquid[d] && d !in dirs ==> w[d] == 0
  }

  method FillPreferred(v: View, k: Kind, t: Tick, want: array<int>, total0: nat) returns (left: nat)
    requires v.Valid(k.Cap()) && k.Proper() && want.Length == 7 && Targets(v, want[..], 0)
    modifies want
    ensures Targets(v, want[..], k.Cap()) && Sum(want[..]) + left == total0
    ensures PreferredServed(v, k, t, want[..])
    ensures left > 0 ==> AtLevel(v, want[..], Listed(v, Preference(k, t)), k.levelMax)
  {
    assert |v.liquid| == 7;
    hide *;
    var dirs := GasDirections(v, k, t);
    SomewhereToGo(v, k, t);
    var base := Min(k.levelMax, total0 / |dirs|);
    ShareFits(total0, |dirs|, k.levelMax);
    ghost var w0 := want[..];
    left := EvenShare(v, k, want, dirs, total0, base);
    ghost var w1 := want[..];
    left := RoundRobin(v, k, want, dirs, left, base);
    OthersUnused(v, k, t, w0, w1, want[..], dirs);
  }

  method FillOthers(v: View, k: Kind, t: Tick, want: array<int>, total: nat) returns (left: nat)
    requires v.Valid(k.Cap()) && k.Proper() && want.Length == 7 && Targets(v, want[..], k.Cap()) && k.floatHeight.Some?
    requires PreferredServed(v, k, t, want[..]) && AtLevel(v, want[..], Listed(v, Preference(k, t)), k.levelMax)
    modifies want
    ensures Targets(v, want[..], k.Cap()) && Sum(want[..]) + left == old(Sum(want[..])) + total
    ensures GasSettled(v, k, t, want[..])
    ensures left > 0 ==> AtLevel(v, want[..], Listed(v, Preference(k, t)), k.levelMax) && AtLevel(v, want[..], Fallback(k, t), k.levelMax)
  {
    assert |v.liquid| == 7;
    ghost var w := want[..];
    OthersEmpty(v, k, t, w);
    hide *;
    left := RoundRobin(v, k, want, Fallback(k, t), total, 0);
    PreferredStay(v, k, t, w, want[..]);
  }

  /** Distributes a gas over the cells it can enter. */
  method SpreadGas(v: View, k: Kind, t: Tick, want: array<int>, total0: nat) returns (left: nat)
    requires Flows(v, k) && want.Length == 7 && |v.liquid| == |v.level| == 7 && Targets(v, want[..], 0) && total0 == Sum(v.level)
    modifies want
    ensures GasFilled(v, k, t, want[..]) && left == total0 - Sum(want[..])
  {
    FlowsFacts(v, k);
    hide *;
    left := FillPreferred(v, k, t, want, total0);
    if k.floatHeight.Some? && left > 0 {
      left := FillOthers(v, k, t, want, left);
    } else {
      PreferredSuffice(v, k, t, want[..]);
    }
    if left > 0 {
      AllFull(v, k, t, want[..]);
    }
    GasKeepsWhatFits(v, k, t, want[..], left);
  }

  lemma GasKeepsWhatFits(v: View, k: Kind, t: Tick, w: seq<int>, left: nat)
    requires |v.liquid| == |v.level| == |w| == 7 && Targets(v, w, k.Cap()) && GasSettled(v, k, t, w)
    requires Sum(w) + left == Sum(v.level) && (left > 0 ==> Sum(w) == k.levelMax * AllCount(v))
    ensures GasFilled(v, k, t, w)
  {
    forall i: nat | i < 7
      ensures if v.liquid[i] then w[i] <= k.levelMax else w[i] == -1
    {
      TargetAt(v, k.Cap(), w, i);
      if v.liquid[i] {
        GasBelowNormal(v, k, t, w, i);
      }
    }
    hide Sum, AllCount, GasSettled, Targets;
    SumAtMost(v, w, k.levelMax);
  }

  /** The gas may always stay where it is. */
  lemma SomewhereToGo(v: View, k: Kind, t: Tick)
    requires v.Valid(k.Cap())
    ensures var dirs := Listed(v, Preference(k, t)); |dirs| > 0 && AreCells(dirs) && Distinct(dirs)
  {
    PreferenceMembers(k, t, SELF);
    ListedMembers(v, Preference(k, t), SELF);
    hide Listed, Preference, Distinct;
  }

  lemma ShareFits(total: nat, n: nat, max: nat)
    requires n > 0
    ensures var base := Min(max, total / n); 0 <= base <= max && n * base <= total
  {
    var base := Min(max, total / n);
    assert n * base <= n * (total / n);
  }

  /** The other directions are not touched while the preferred ones are served. */
  lemma OthersUnused(v: View, k: Kind, t: Tick, w0: seq<int>, w1: seq<int>, w2: seq<int>, dirs: seq<nat>)
    requires |w1| == |w2| == 7 && Targets(v, w0, 0) && dirs == Listed(v, Preference(k, t))
    requires SameBeyond(w0, w1, dirs) && SameBeyond(w1, w2, dirs) && Fair(v, k, w2, dirs)
    ensures PreferredServed(v, k, t, w2)
  {
    hide Preference, Listed, Fair;
  }

  lemma OthersEmpty(v: View, k: Kind, t: Tick, w: seq<int>)
    requires k.floatHeight.Some? && |v.liquid| == |w| == 7 && PreferredServed(v, k, t, w)
    ensures AtLevel(v, w, Fallback(k, t), 0)
  {
    var others := Fallback(k, t);
    forall i | 0 <= i < |others| && v.liquid[others[i]]
      ensures w[others[i]] == 0
    {
      EitherDirection(k, t, others[i]);
      ListedMembers(v, Preference(k, t), others[i]);
    }
    hide Preference, Fallback, Listed, Fair;
  }

  lemma PreferredSuffice(v: View, k: Kind, t: Tick, w: seq<int>)
    requires |v.liquid| == |w| == 7 && PreferredServed(v, k, t, w)
    ensures GasSettled(v, k, t, w)
  {
    if k.floatHeight.Some? {
      OthersEmpty(v, k, t, w);
    }
    hide Preference, Fallback, Listed, Distinct;
  }

  /** The preferred directions are not touched while the others are served. */
  lemma PreferredStay(v: View, k: Kind, t: Tick, w: seq<int>, w': seq<int>)
    requires k.floatHeight.Some? && |v.liquid| == |w| == |w'| == 7
    requires AtLevel(v, w, Listed(v, Preference(k, t)), k.levelMax)
    requires SameBeyond(w, w', Fallback(k, t)) && Fair(v, k, w', Fallback(k, t))
    ensures AtLevel(v, w', Listed(v, Preference(k, t)), k.levelMax) && GasSettled(v, k, t, w')
  {
    var dirs := Listed(v, Preference(k, t));
    forall i | 0 <= i < |dirs|
      ensures w'[dirs[i]] == k.levelMax
    {
      ListedMembers(v, Preference(k, t), dirs[i]);
      EitherDirection(k, t, dirs[i]);
    }
    hide Preference, Fallback, Listed, Distinct;
  }

  /** The directions tried reach every cell the gas can enter, so if all of those are full every cell is. */
  lemma AllFull(v: View, k: Kind, t: Tick, w: seq<int>)
    requires |v.liquid| == |w| == 7 && Targets(v, w, k.Cap())
    requires AtLevel(v, w, Listed(v, Preference(k, t)), k.levelMax)
    requires k.floatHeight.Some? ==> AtLevel(v, w, Fallback(k, t), k.levelMax)
    ensures Sum(w) == k.levelMax * AllCount(v)
  {
    forall i: nat | i < 7
      ensures v.liquid[i] ==> w[i] == k.levelMax
      ensures !v.liquid[i] ==> w[i] == -1
    {
      TargetAt(v, k.Cap(), w, i);
      if v.liquid[i] {
        var place := PlaceOfDirection(v, k, t, i);
      }
      hide Preference, Fallback, Listed, Targets;
    }
    AllEqual(v, w, k.levelMax);
  }

  lemma AllEqual(v: View, w: seq<int>, x: nat)
    requires |v.liquid| == |w| == 7 && forall i: nat :: i < 7 ==> (v.liquid[i] ==> w[i] == x) && (!v.liquid[i] ==> w[i] == -1)
    ensures Sum(w) == x * AllCount(v)
  {
    SameSumBounds(v, w, x);
    SumOfParts(w);
    Distribute(x, One(v.liquid[BOTTOM]), SameCount(v), One(v.liquid[TOP]));
    hide SameCount, SameSum, Sum;
  }

  // ----- the last corrections -----

  /** Puts what is left into one cell, up to its compressed capacity. */
  method FillLast(v: View, k: Kind, want: array<int>, i: nat, total: int) returns (left: int)
    requires |v.liquid| == want.Length == 7 && Targets(v, want[..], k.Cap()) && i < 7
    modifies want
    ensures Targets(v, want[..], k.Cap())
    ensures var add := Fits(v, k, old(want[..]), i, total); left == total - add && want[..] == old(want[..])[i := old(want[i]) + add]
  {
    left := total;
    TargetAt(v, k.Cap(), want[..], i);
    hide Targets, k.Cap, Sum;
    assert want[..][i := want[i] + 0] == want[..];
    if left > 0 && v.liquid[i] && want[i] < k.Cap() {
      var add := if left > k.Cap() - want[i] then k.Cap() - want[i] else left;
      Put(v, want, k, i, want[i] + add);
      left := left - add;
    }
  }

  method ReplenishCell(v: View, k: Kind, s: Settings, t: Tick, want: array<int>, share: int, i: nat) returns (made: nat)
    requires v.Valid(k.Cap()) && k.Proper() && want.Length == 7 && Targets(v, want[..], k.Cap()) && i < 7
    modifies want
    ensures Targets(v, want[..], k.Cap())
    ensures want[..] == old(want[..])[i := Replenished(v, k, s, t, share, i, old(want[i]))]
    ensures made == Replenished(v, k, s, t, share, i, old(want[i])) - old(want[i])
  {
    made := 0;
    TargetAt(v, k.Cap(), want[..], i);
    assert k.levelMax <= k.Cap() && |v.endless| == 7 && (v.endless[i] ==> v.liquid[i]) && v.level[i] <= k.Cap();
    assert want[..][i := want[i]] == want[..];
    hide Sum, FloodsFast, Targets, v.Valid, k.Cap;
    if v.endless[i] && want[i] < v.level[i] {
      made := v.level[i] - want[i];
      Put(v, want, k, i, v.level[i]);
    } else if want[i] >= 0 && want[i] < k.levelMax && FloodsFast(v, k, s, t, share, i) {
      made := k.levelMax - want[i];
      Put(v, want, k, i, k.levelMax);
    }
  }

  /** What the cells before `n` have gained. */
  ghost function GainedBefore(w: seq<int>, w': seq<int>, n: nat): int
    requires |w| == |w'| == 7 && n <= 7
  {
    if n == 0 then 0 else GainedBefore(w, w', n - 1) + w'[n - 1] - w[n - 1]
  }

  lemma GainedAll(w: seq<int>, w': seq<int>)
    requires |w| == |w'| == 7
    ensures GainedBefore(w, w', 7) == Gained(w, w')
  {
    assert GainedBefore(w, w', 1) == w'[0] - w[0];
    assert GainedBefore(w, w', 2) == GainedBefore(w, w', 1) + w'[1] - w[1];
    assert GainedBefore(w, w', 3) == GainedBefore(w, w', 2) + w'[2] - w[2];
    assert GainedBefore(w, w', 4) == GainedBefore(w, w', 3) + w'[3] - w[3];
    assert GainedBefore(w, w', 5) == GainedBefore(w, w', 4) + w'[4] - w[4];
    assert GainedBefore(w, w', 6) == GainedBefore(w, w', 5) + w'[5] - w[5];
  }

  method Replenish(v: View, k: Kind, s: Settings, t: Tick, want: array<int>, share: int) returns (made: nat)
    requires v.Valid(k.Cap()) && k.Proper() && want.Length == 7 && Targets(v, want[..], k.Cap())
    modifies want
    ensures |v.endless| == |v.level| == 7 && Targets(v, want[..], k.Cap()) && want[..] == Restored(v, k, s, t, share, old(want[..]))
    ensures made == Gained(old(want[..]), want[..])
  {
    hide Sum, FloodsFast, Replenished, Targets, Restored, k.Cap, k.Proper;
    made := 0;
    assert |v.endless| == |v.level| == 7;
    ghost var first := want[..];
    ghost var last := Restored(v, k, s, t, share, first);
    hide v.Valid;
    for i := 0 to 7
      invariant Targets(v, want[..], k.Cap())
      invariant made == GainedBefore(first, last, i)
      invariant forall j: nat :: i <= j < 7 ==> want[j] == first[j]
      invariant forall j: nat :: j < i ==> want[j] == last[j]
    {
      ghost var w := want[..];
      var more := ReplenishCell(v, k, s, t, want, share, i);
      assert forall j: nat :: j < 7 && j != i ==> want[j] == want[..][j] == w[j];
      assert want[i] == want[..][i] == last[i];
      made := made + more;
    }
    GainedAll(first, last);
    assert want[..] == last;
  }

  /** The corrections that liquids and gases share. */
  method Finish(v: View, k: Kind, s: Settings, t: Tick, want: array<int>, share: int, total: int, ghost lake: int, ghost fix: nat)
    returns (left: int, made: nat)
    requires v.Valid(k.Cap()) && k.Proper() && want.Length == 7 && Targets(v, want[..], k.Cap())
    requires |v.liquid| == |v.level| == |v.endless| == 7
    modifies want
    ensures Finished(v, k, s, t, share, Stage(old(want[..]), total), lake, fix, want[..], Account(lake + made, left, fix))
  {
    hide Sum, Targets, Fits, Restored, Gained, v.Valid, k.Cap, k.Proper;
    left := FillLast(v, k, want, TOP, total);
    left := FillLast(v, k, want, SELF, left);
    assert Stage(want[..], left) == Topped(v, k, Stage(old(want[..]), total));
    made := Replenish(v, k, s, t, want, share);
  }

  // ----- one look -----

  method DistributeGas(v: View, k: Kind, s: Settings, t: Tick, want: array<int>, total0: nat) returns (a: Account)
    requires Flows(v, k) && want.Length == 7 && |v.liquid| == |v.level| == |v.endless| == 7 && v.liquid[SELF] && want[..] == Empty(v)
    requires total0 == Sum(v.level) && k.gas
    modifies want
    ensures Distributed(v, k, s, t, want[..], a)
  {
    assert Targets(v, want[..], 0);
    FlowsFacts(v, k);
    hide GasFilled, Finished, Flows, Sum, v.Valid, k.Cap, k.Proper, Targets, Empty;
    var left: int := SpreadGas(v, k, t, want, total0);
    GasFilledFacts(v, k, t, want[..]);
    ghost var settled := want[..];
    var made;
    left, made := Finish(v, k, s, t, want, 0, left, 0, 0);
    a := Account(made, left, 0);
    assert GasFilled(v, k, t, settled);
  }

  method DistributeLiquid(v: View, k: Kind, s: Settings, t: Tick, want: array<int>, total0: nat) returns (a: Account)
    requires Flows(v, k) && want.Length == 7 && |v.liquid| == |v.level| == |v.endless| == 7 && v.liquid[SELF] && want[..] == Empty(v)
    requires total0 == Sum(v.level) && !k.gas
    modifies want
    ensures Distributed(v, k, s, t, want[..], a)
  {
    FlowsFacts(v, k);
    hide Finished, Flows, Sum, v.Valid, k.Cap, k.Proper, Targets, Empty, Settle, Portioned;
    var share, left, lake, fix := SettleLiquid(v, k, s, t, want, total0);
    var made;
    left, made := Finish(v, k, s, t, want, share, left, lake, fix);
    a := Account(lake + made, left, fix);
  }

  /** New targets for the seven cells, and the account of the look. */
  method Distribute7(v: View, k: Kind, s: Settings, t: Tick, want: array<int>, total0: nat) returns (a: Account)
    requires Flows(v, k) && want.Length == 7 && |v.liquid| == |v.level| == |v.endless| == 7 && v.liquid[SELF] && want[..] == Empty(v)
    requires total0 == Sum(v.level)
    modifies want
    ensures Distributed(v, k, s, t, want[..], a)
  {
    hide Distributed, Flows, Sum, Empty;
    if k.gas {
      a := DistributeGas(v, k, s, t, want, total0);
    } else {
      a := DistributeLiquid(v, k, s, t, want, total0);
    }
  }
}
