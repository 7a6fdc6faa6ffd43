/** One liquid kind settling among the seven cells around a node: what one look makes of what it sees.
    The laws of it are in LiquidLaws, the loops that compute it in LiquidSteps. */
module Liquid {
  import opened Wrappers

  // The seven cells: below, the node itself, its four side neighbours, above.

  const BOTTOM := 0
  const SELF := 1
  const TOP := 6

  /** The four orders in which cells of one level are served; they take turns. */
  const RANDOM_MAP: seq<seq<nat>> :=
    [[0, 1, 2, 3, 4, 5, 6], [0, 1, 4, 3, 5, 2, 6], [0, 1, 3, 5, 4, 2, 6], [0, 1, 5, 3, 2, 4, 6]]

  /** The node below comes first, the node above last, and each cell once. */
  predicate IsRow(row: seq<nat>) {
    && |row| == 7 && row[0] == BOTTOM && row[1] == SELF && row[6] == TOP
    && (forall j :: 1 <= j < 6 ==> 1 <= row[j] < 6)
    && (forall i, j :: 0 <= i < j < 7 ==> row[i] != row[j])
    && (forall i: nat :: i < 7 ==> i in row)
  }

  predicate AreCells(dirs: seq<nat>) {
    forall i :: 0 <= i < |dirs| ==> dirs[i] < 7
  }

  function Row(turn: nat): (r: seq<nat>)
    ensures IsRow(r) && |r| == 7 && AreCells(r)
  {
    RowFacts(turn % 4);
    RANDOM_MAP[turn % 4]
  }

  lemma RowFacts(n: nat)
    requires n < 4
    ensures IsRow(RANDOM_MAP[n])
  {
  }

  function Min(a: int, b: int): int {
    if a < b then a else b
  }

  function Max(a: int, b: int): int {
    if a < b then b else a
  }

  // ----- what is seen around a node -----

  /** What a liquid is like. `pressure` is 0 unless the map uses liquid pressure. */
  datatype Kind = Kind(levelMax: nat, compressedMax: nat, pressure: nat, gas: bool, renewable: bool,
                       weight: nat, floatHeight: Option<int>) {
    /** The most one cell can hold. */
    function Cap(): (c: nat) {
      if pressure == 0 then levelMax
      else if compressedMax < levelMax + pressure then compressedMax else levelMax + pressure
    }

    predicate Proper() {
      1 <= levelMax <= compressedMax
    }
  }

  /** The seven cells as the liquid sees them: which it can enter, how much of it is there (-1
      where it cannot be), which are endless, and whether the cell below is loaded. */
  datatype View = View(liquid: seq<bool>, level: seq<int>, endless: seq<bool>, bottomLoaded: bool) {
    ghost predicate Valid(cap: nat) {
      && |liquid| == |level| == |endless| == 7
      && liquid[SELF] && (liquid[BOTTOM] ==> bottomLoaded)
      && forall i :: 0 <= i < 7 ==> if liquid[i] then 0 <= level[i] <= cap else level[i] == -1 && !endless[i]
    }
  }

  function Pos(x: int): nat {
    if x < 0 then 0 else x
  }

  /** The volume in the side neighbours and the node itself. */
  function SameSum(w: seq<int>): nat
    requires |w| == 7
  {
    Pos(w[1]) + Pos(w[2]) + Pos(w[3]) + Pos(w[4]) + Pos(w[5])
  }

  /** The volume in all seven cells; a negative entry is a cell the liquid cannot enter. */
  function Sum(w: seq<int>): nat
    requires |w| == 7
  {
    Pos(w[BOTTOM]) + SameSum(w) + Pos(w[TOP])
  }

  function One(b: bool): nat {
    if b then 1 else 0
  }

  function SameCount(v: View): (n: nat)
    requires |v.liquid| == 7
    ensures v.liquid[SELF] ==> n >= 1
  {
    One(v.liquid[1]) + One(v.liquid[2]) + One(v.liquid[3]) + One(v.liquid[4]) + One(v.liquid[5])
  }

  function AllCount(v: View): (n: nat)
    requires |v.liquid| == 7
    ensures v.liquid[SELF] ==> n >= 1
  {
    One(v.liquid[BOTTOM]) + SameCount(v) + One(v.liquid[TOP])
  }

  /** `w` holds targets between 0 and `cap` for exactly the cells the liquid can enter. */
  ghost predicate Targets(v: View, w: seq<int>, cap: int) {
    && |w| == |v.liquid| == 7
    && forall i :: 0 <= i < 7 ==> if v.liquid[i] then 0 <= w[i] <= cap else w[i] == -1
  }

  /** The cells hold nothing yet. */
  function Empty(v: View): (w: seq<int>)
    requires |v.liquid| == 7
    ensures |w| == 7 && forall i :: 0 <= i < 7 ==> w[i] == if v.liquid[i] then 0 else -1
  {
    seq(7, i requires 0 <= i < 7 => if v.liquid[i] then 0 else -1)
  }

  /** The settings of the map: how eagerly lakes are levelled, the water level, and the depth below
      which caves are flooded fast. 0 switches the first and the last off. */
  datatype Settings = Settings(relax: int, waterLevel: int, fastFlood: int)

  /** The sides the wind can blow to. */
  type Side = d: nat | 2 <= d < 6 witness 2

  /** When and where a node is looked at: two counters that vary the order in which cells are
      served, the length of the queue, the height, and where the wind drives a gas, if it does. */
  datatype Tick = Tick(loopcount: nat, loopRand: nat, queued: nat, y: int, wind: Option<Side>) {
    function Turn(i: nat): nat {
      loopcount + loopRand + i
    }
  }

  /** Targets so far, and the volume still in hand. */
  datatype Stage = Stage(want: seq<int>, left: int)

  // ----- handing out one by one -----

  /** How many of the cells at places `from` up to `until` of the order may have one unit more. */
  ghost function Waiting(row: seq<nat>, may: set<nat>, from: nat, until: nat): (n: nat)
    requires from <= until <= |row|
    decreases until
  {
    if from == until then 0 else Waiting(row, may, from, until - 1) + One(row[until - 1] in may)
  }

  /** What is left of `total` when `n` cells could have had one unit each. */
  function Remaining(total: int, n: nat): int {
    if total <= n then Min(total, 0) else total - n
  }

  /** The cell at place `l` of the order is among the first `total` that may have one unit more. */
  ghost predicate Gets(row: seq<nat>, may: set<nat>, from: nat, l: nat, total: int)
    requires from <= l < |row|
  {
    row[l] in may && Waiting(row, may, from, l) < total
  }

  /** Of the cells at places `from` up to `until` of the order, the first `total` that may have one unit
      more get it. */
  ghost function Handed(w: seq<int>, row: seq<nat>, may: set<nat>, from: nat, until: nat, total: int): (r: seq<int>)
    requires |w| == |row| == 7 && AreCells(row) && from <= until <= 7
    ensures |r| == 7
    decreases until
  {
    if from == until then w
    else
      var before := Handed(w, row, may, from, until - 1, total);
      var i := row[until - 1];
      before[i := before[i] + One(Gets(row, may, from, until - 1, total))]
  }

  /** The cells with room for more. */
  ghost function Room(w: seq<int>, max: int): set<nat>
    requires |w| == 7
  {
    set i: nat | i < 7 && 0 <= w[i] < max
  }

  /** Hands out what is left to the cells below `max`, one unit each. */
  ghost function HandedOn(g: Stage, row: seq<nat>, from: nat, until: nat, max: int): (r: Stage)
    requires |g.want| == |row| == 7 && AreCells(row) && from <= until <= 7
    ensures |r.want| == 7
  {
    var may := Room(g.want, max);
    Stage(Handed(g.want, row, may, from, until, g.left), Remaining(g.left, Waiting(row, may, from, until)))
  }

  // ----- a liquid that falls and spreads -----

  predicate NearWaterLevel(s: Settings, y: int) {
    y == s.waterLevel || (s.fastFlood != 0 && y <= s.waterLevel && y > s.fastFlood)
  }

  /** Above a block that is not loaded a lake loses a unit now and then. */
  predicate AboveUnloaded(v: View, k: Kind, s: Settings, t: Tick)
    requires |v.level| == 7
  {
    v.level[TOP] == 0 && t.y > s.waterLevel && k.levelMax > 1 && !v.bottomLoaded && t.loopcount % 3 == 0
  }

  /** How much every cell of the level gets at first, of `total` in hand. */
  function Share(k: Kind, average: nat, total: int, same: nat): int
    requires same >= 1
  {
    if average > k.levelMax then average
    else if total >= k.levelMax * same then k.levelMax
    else total / same
  }

  /** The average level; without pressure only whether there is one unit for every cell counts. */
  function Average(k: Kind, total: nat, all: nat): nat
    requires all >= 1
  {
    if k.pressure == 0 && total / all != 0 then k.levelMax else total / all
  }

  /** The target of the cell below: all there is, up to the normal level; the average if that is higher. */
  function Fallen(v: View, k: Kind, average: nat, total: nat): int
    requires |v.liquid| == 7
  {
    if !v.liquid[BOTTOM] then -1 else if average > k.levelMax then average else Min(total, k.levelMax)
  }

  /** How much a lake may be short of to be topped up. */
  function Missing(k: Kind, s: Settings, same: nat): (m: int) {
    var m := if same > s.relax then same - s.relax else 0;
    if k.pressure != 0 && k.levelMax > 1 then Max(m, m * k.levelMax) else m
  }

  /** The body of water lies on a full cell and has nothing above. */
  predicate LakeSurface(v: View, k: Kind, s: Settings)
    requires |v.level| == 7
  {
    k.renewable && s.relax != 0 && k.levelMax > 1 && v.level[TOP] == 0 && v.level[BOTTOM] >= k.levelMax
  }

  /** A lake at the water level that is nearly full is filled up. */
  function RelaxedUp(v: View, k: Kind, s: Settings, t: Tick, total: int, same: nat): (r: int)
    requires |v.level| == 7
    ensures r >= total && (r > total ==> LakeSurface(v, k, s) && NearWaterLevel(s, t.y) && r == k.levelMax * same)
  {
    if LakeSurface(v, k, s) && NearWaterLevel(s, t.y) && total + Missing(k, s, same) >= k.levelMax * same &&
       total < k.levelMax * same && Missing(k, s, same) > 0 then k.levelMax * same else total
  }

  /** A film of water just above the water level dries up. */
  function RelaxedDown(v: View, k: Kind, s: Settings, t: Tick, share: int, total: int, same: nat): (r: int)
    requires |v.level| == 7
    ensures r == total || (r == 0 && share <= 0 && LakeSurface(v, k, s) && t.y == s.waterLevel + 1)
  {
    if LakeSurface(v, k, s) && t.y == s.waterLevel + 1 && (total <= 1 || t.loopcount % 2 == 0) && share <= 0 &&
       total <= Missing(k, s, same) && Missing(k, s, same) > 0 then 0 else total
  }

  /** What the first half of the settling decides: the target of the cell below, the share of each cell
      of the level, the volume still in hand, what a lake gains or loses, and the unit lost above a
      block that is not loaded. */
  datatype Portion = Portion(bottom: int, share: int, total: int, lake: int, fix: nat)

  function Portioned(v: View, k: Kind, s: Settings, t: Tick): Portion
    requires |v.liquid| == |v.level| == 7 && v.liquid[SELF]
  {
    var total, same := Sum(v.level), SameCount(v);
    var average := Average(k, total, AllCount(v));
    var bottom := Fallen(v, k, average, total);
    var fallen := total - Pos(bottom);
    var relaxed := RelaxedUp(v, k, s, t, fallen, same);
    var fix := One(AboveUnloaded(v, k, s, t));
    var share := Share(k, average, relaxed - fix, same);
    var rest := relaxed - fix - share * same;
    var kept := RelaxedDown(v, k, s, t, share, rest, same);
    Portion(bottom, share, kept, (relaxed - fallen) + (kept - rest), fix)
  }

  const LEVEL_SOURCE := 8

  /** The cells that may have a unit more than their share: those that hold more than that already,
      and now and then all that hold some of a liquid with few levels. */
  ghost function Thirsty(v: View, k: Kind, share: int, loopcount: nat): set<nat>
    requires |v.liquid| == |v.level| == 7
  {
    set i: nat | i < 7 && v.liquid[i] && share < k.levelMax &&
                 (k.levelMax > LEVEL_SOURCE || loopcount % 3 != 0 || v.level[i] <= 0 ==> v.level[i] > share)
  }

  /** The cells at places 1 up to `j` of the order get their share, and the first `total` of those that
      may have it a unit more. */
  ghost function SharedOut(v: View, w: seq<int>, row: seq<nat>, j: nat, share: int, may: set<nat>, total: int): (r: seq<int>)
    requires |v.liquid| == |w| == |row| == 7 && AreCells(row) && 1 <= j <= 6
    ensures |r| == 7
    decreases j
  {
    if j == 1 then w
    else
      var before := SharedOut(v, w, row, j - 1, share, may, total);
      var i := row[j - 1];
      if v.liquid[i] then before[i := share + One(Gets(row, may, 1, j - 1, total))] else before
  }

  /** Fills the cells of the level. */
  ghost function Filled(v: View, k: Kind, t: Tick, g: Stage, share: int): (r: Stage)
    requires |v.liquid| == |v.level| == |g.want| == 7
    ensures |r.want| == 7
  {
    var row, may := Row(t.Turn(1)), Thirsty(v, k, share, t.loopcount);
    Stage(SharedOut(v, g.want, row, 6, share, may, g.left), Remaining(g.left, Waiting(row, may, 1, 6)))
  }

  /** Fills the cells of the level, and hands out the rest to those below their normal level. */
  ghost function Levelled(v: View, k: Kind, t: Tick, g: Stage, share: int): (r: Stage)
    requires |v.liquid| == |v.level| == |g.want| == 7
    ensures |r.want| == 7
  {
    HandedOn(Filled(v, k, t, g, share), Row(t.Turn(2)), SELF, TOP, k.levelMax)
  }

  /** What the level could not take goes up to the normal level of the cell above, and under pressure
      the rest of it into all cells. */
  ghost function Raised(v: View, k: Kind, t: Tick, g: Stage): (r: Stage)
    requires |v.liquid| == |g.want| == 7
    ensures |r.want| == 7
  {
    if !v.liquid[TOP] || g.left <= 0 then g
    else
      var up := Min(g.left, k.levelMax - Pos(g.want[TOP]));
      var filled := Stage(g.want[TOP := Pos(g.want[TOP]) + up], g.left - up);
      if filled.left > 0 && k.pressure != 0 then HandedOn(filled, Row(t.Turn(3)), 0, 7, k.Cap()) else filled
  }

  function Moved(w: seq<int>, i: nat, j: nat): seq<int>
    requires |w| == 7 && i < 7 && j < 7
  {
    w[i := w[i] - 1][j := w[j] + 1]
  }

  /** Under pressure one unit sinks by one cell or two: into the cell below from the cell above, or from
      the node itself if that is compressed as much; while there is no room below, into the node itself
      from a compressed cell above. */
  function Sunk(v: View, k: Kind, w: seq<int>): (r: seq<int>)
    requires |v.liquid| == |w| == 7
    ensures |r| == 7
  {
    if v.liquid[BOTTOM] && w[BOTTOM] < k.Cap() then
      if w[TOP] > 0 then Moved(w, TOP, BOTTOM)
      else if w[SELF] > k.levelMax && w[SELF] >= w[BOTTOM] then Moved(w, SELF, BOTTOM)
      else w
    else if w[SELF] < k.Cap() && w[TOP] > k.levelMax && w[TOP] >= w[SELF] then Moved(w, TOP, SELF)
    else w
  }

  /** Where a liquid settles: down, sideways, up, and under pressure a little down again. */
  ghost function Settle(v: View, k: Kind, s: Settings, t: Tick): (r: Stage)
    requires |v.liquid| == |v.level| == 7 && v.liquid[SELF]
    ensures |r.want| == 7
  {
    var p := Portioned(v, k, s, t);
    var g := Raised(v, k, t, Levelled(v, k, t, Stage(Empty(v)[BOTTOM := p.bottom], p.total), p.share));
    if k.pressure != 0 then Stage(Sunk(v, k, g.want), g.left) else g
  }

  // ----- a gas that rises and spreads -----

  /** Nothing is listed twice. */
  ghost predicate Distinct<T>(list: seq<T>) {
    forall i, j :: 0 <= i < j < |list| ==> list[i] != list[j]
  }

  /** Directions the gas can enter, each once. */
  ghost predicate Directions(v: View, dirs: seq<nat>)
    requires |v.liquid| == 7
  {
    AreCells(dirs) && (forall i :: 0 <= i < |dirs| ==> v.liquid[dirs[i]]) && Distinct(dirs)
  }

  /** Adds the direction if the gas can go there and it is not listed yet. */
  function AddDirection(v: View, dirs: seq<nat>, d: nat): (r: seq<nat>)
    requires |v.liquid| == 7 && d < 7
    ensures Directions(v, dirs) ==> Directions(v, r)
  {
    if !v.liquid[d] || d in dirs then dirs else dirs + [d]
  }

  /** The directions in the order in which the gas prefers them: towards the layer where it floats,
      with the wind, up, to the sides, and down. A gas that floats in a layer does not go up or down
      of its own accord once it is there. */
  function Preference(k: Kind, t: Tick): (p: seq<nat>)
    ensures AreCells(p)
  {
    Upright(k, t) + Row(t.Turn(1))[SELF..TOP] + if k.floatHeight.None? then [BOTTOM] else []
  }

  /** What comes before the sides. */
  function Upright(k: Kind, t: Tick): (p: seq<nat>)
    ensures AreCells(p)
  {
    TowardsLayer(k, t) + WithWind(t) + if k.floatHeight.None? then [TOP] else []
  }

  function TowardsLayer(k: Kind, t: Tick): (p: seq<nat>)
    ensures AreCells(p)
  {
    match k.floatHeight
    case None => []
    case Some(y) => if t.y < y then [TOP] else if t.y > y then [BOTTOM] else []
  }

  function WithWind(t: Tick): (p: seq<nat>)
    ensures AreCells(p)
  {
    if t.wind.Some? then [t.wind.value] else []
  }

  /** The directions of a list that the gas can enter, each where it comes first. */
  function Listed(v: View, p: seq<nat>): (r: seq<nat>)
    requires |v.liquid| == 7 && AreCells(p)
    ensures Directions(v, r) && AreCells(r)
  {
    if p == [] then [] else AddDirection(v, Listed(v, p[..|p| - 1]), p[|p| - 1])
  }

  /** All that the gas can enter in these directions are at one level. */
  ghost predicate AtLevel(v: View, w: seq<int>, dirs: seq<nat>, level: int)
    requires |v.liquid| == |w| == 7 && AreCells(dirs)
  {
    forall i :: 0 <= i < |dirs| && v.liquid[dirs[i]] ==> w[dirs[i]] == level
  }

  /** Served in turn up to the normal level: a direction has as much as the ones listed after it, or
      one unit more. */
  ghost predicate Fair(v: View, k: Kind, w: seq<int>, dirs: seq<nat>)
    requires |v.liquid| == |w| == 7 && AreCells(dirs)
  {
    && (forall i :: 0 <= i < |dirs| && v.liquid[dirs[i]] ==> w[dirs[i]] <= k.levelMax)
    && forall i, j :: 0 <= i < j < |dirs| && v.liquid[dirs[i]] && v.liquid[dirs[j]] ==> w[dirs[j]] <= w[dirs[i]] <= w[dirs[j]] + 1
  }

  /** The vertical directions used only when the preferred ones are full. */
  function Fallback(k: Kind, t: Tick): (dirs: seq<nat>)
    requires k.floatHeight.Some?
    ensures |dirs| > 0 && Distinct(dirs) && AreCells(dirs)
  {
    if t.y < k.floatHeight.value then [BOTTOM]
    else if t.y > k.floatHeight.value then [TOP]
    else if t.Turn(0) % 2 == 1 then [TOP, BOTTOM] else [BOTTOM, TOP]
  }

  /** The gas fills the directions it prefers evenly, the first of them first, and only when they are
      full the others, in the same way. */
  ghost predicate GasSettled(v: View, k: Kind, t: Tick, w: seq<int>)
    requires |v.liquid| == |w| == 7
  {
    var dirs := Listed(v, Preference(k, t));
    && Fair(v, k, w, dirs)
    && (k.floatHeight.Some? ==> Fair(v, k, w, Fallback(k, t)))
    && (AtLevel(v, w, dirs, k.levelMax) || forall d: nat :: d < 7 && v.liquid[d] && d !in dirs ==> w[d] == 0)
  }

  /** How much of a gas the cells can take at their normal level. */
  function GasKept(v: View, k: Kind): nat
    requires |v.liquid| == |v.level| == 7
  {
    Min(Sum(v.level), k.levelMax * AllCount(v))
  }

  // ----- the last corrections -----

  /** What fits into a cell of the volume that is left. */
  function Fits(v: View, k: Kind, w: seq<int>, i: nat, total: int): (add: nat)
    requires |v.liquid| == |w| == 7 && i < 7
  {
    if v.liquid[i] then Pos(Min(total, k.Cap() - w[i])) else 0
  }

  /** What is left goes up, and then into the node itself, up to their compressed capacity. */
  function Topped(v: View, k: Kind, g: Stage): (r: Stage)
    requires |v.liquid| == |g.want| == 7
    ensures |r.want| == 7
  {
    var up := Fits(v, k, g.want, TOP, g.left);
    var w := g.want[TOP := g.want[TOP] + up];
    var down := Fits(v, k, w, SELF, g.left - up);
    Stage(w[SELF := w[SELF] + down], g.left - up - down)
  }

  /** The cell belongs to a large cave below the water level that is being flooded. */
  predicate FloodsFast(v: View, k: Kind, s: Settings, t: Tick, share: int, i: nat)
    requires |v.liquid| == |v.level| == 7
  {
    k.levelMax > 1 && !k.gas && s.fastFlood != 0 && t.y < s.waterLevel && t.y > s.fastFlood && t.queued >= 1000 &&
    i != TOP && share >= k.levelMax / 4 && SameCount(v) >= 5 && v.level[TOP] >= k.levelMax
  }

  /** Endless cells never lose volume, and caves below the water level are flooded. */
  function Replenished(v: View, k: Kind, s: Settings, t: Tick, share: int, i: nat, x: int): (r: int)
    requires |v.liquid| == |v.level| == |v.endless| == 7 && i < 7
    ensures r >= x && (v.endless[i] ==> r >= v.level[i])
    ensures !v.endless[i] && s.fastFlood == 0 ==> r == x
  {
    if v.endless[i] && x < v.level[i] then v.level[i]
    else if 0 <= x < k.levelMax && FloodsFast(v, k, s, t, share, i) then k.levelMax
    else x
  }

  function Restored(v: View, k: Kind, s: Settings, t: Tick, share: int, w: seq<int>): (r: seq<int>)
    requires |v.liquid| == |v.level| == |v.endless| == |w| == 7
    ensures |r| == 7 && forall i: nat :: i < 7 ==> r[i] == Replenished(v, k, s, t, share, i, w[i])
  {
    seq(7, i requires 0 <= i < 7 => Replenished(v, k, s, t, share, i, w[i]))
  }

  /** The units that appear in the cells. */
  function Gained(w: seq<int>, w': seq<int>): int
    requires |w| == |w'| == 7
  {
    (w'[0] - w[0]) + (w'[1] - w[1]) + (w'[2] - w[2]) + (w'[3] - w[3]) + (w'[4] - w[4]) + (w'[5] - w[5]) + (w'[6] - w[6])
  }

  // ----- one look -----

  /** What one look does to the volume of its liquid, as the program counts it: units made (or, if
      negative, dried up), units it has found no place for, and the unit lost above a block that is
      not loaded. */
  datatype Account = Account(regenerated: int, left: int, fix: nat) {
    function Change(): int {
      regenerated - left - fix
    }
  }

  /** The view of a liquid that flows: it can enter the node, and there is some of it. */
  ghost predicate Flows(v: View, k: Kind) {
    v.Valid(k.Cap()) && k.Proper() && Sum(v.level) > 0
  }

  /** The last corrections of what has settled make these targets and this account. */
  ghost predicate Finished(v: View, k: Kind, s: Settings, t: Tick, share: int, g: Stage, lake: int, fix: nat, want: seq<int>,
                           a: Account)
    requires |v.liquid| == |v.level| == |v.endless| == |g.want| == 7
  {
    var topped := Topped(v, k, g);
    want == Restored(v, k, s, t, share, topped.want) && a == Account(lake + Gained(topped.want, want), topped.left, fix)
  }

  /** A fair distribution of as much of a gas as the cells can take. */
  ghost predicate GasFilled(v: View, k: Kind, t: Tick, w: seq<int>) {
    && |v.liquid| == |v.level| == |w| == 7
    && Targets(v, w, k.Cap()) && GasSettled(v, k, t, w) && Sum(w) == GasKept(v, k)
  }

  /** What one look makes of the seven cells. */
  ghost predicate Distributed(v: View, k: Kind, s: Settings, t: Tick, want: seq<int>, a: Account) {
    && Flows(v, k) && |v.liquid| == |v.level| == |v.endless| == 7 && v.liquid[SELF]
    && if k.gas
       then exists w :: GasFilled(v, k, t, w) && Finished(v, k, s, t, 0, Stage(w, Sum(v.level) - Sum(w)), 0, 0, want, a)
       else
         var p := Portioned(v, k, s, t);
         Finished(v, k, s, t, p.share, Settle(v, k, s, t), p.lake, p.fix, want, a)
  }
}
