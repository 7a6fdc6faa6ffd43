/** The tree around the player: queries, enumeration, and what holds of the whole grid. */
module FarTree {
  import Arithmetic
  import opened FarOctree
  import opened Wrappers

  // ----- the tree of a player -----

  const FARMESH_STEP_MAX := 16

  const STEP_VALUES := 256   // of an unsigned byte

  /** Below a range of 2 the step before 0 is the largest there is. */
  function FarmeshToTreePow(range: nat): (tp: nat)
    ensures tp <= FARMESH_STEP_MAX && (tp == 0 <==> 2 <= range < 4)
  {
    if range >= 4 then
      assert RangeToStep(range) == 1 + RangeToStep(range / 2) == 2 + RangeToStep(range / 2 / 2);
      Min(RangeToStep(range) - 1, FARMESH_STEP_MAX)
    else
      Min((RangeToStep(range) - 1) % STEP_VALUES, FARMESH_STEP_MAX)
  }

  function Min(a: nat, b: nat): nat { if a < b then a else b }

  /** A tree is never smaller than one mesh cell. */
  function TreePow(d: Control): (tp: nat) {
    Max(d.cellPow, FarmeshToTreePow(d.farmesh))
  }

  /** `a` with its lowest `n` bits cleared. */
  function AlignDown(a: int, n: nat): (r: int)
    ensures r <= a < r + Pow2(n)
  {
    assert a == a / Pow2(n) * Pow2(n) + a % Pow2(n);
    a / Pow2(n) * Pow2(n)
  }

  function AlignPos(b: Pos, n: nat): Pos {
    Pos(AlignDown(b.x, n), AlignDown(b.y, n), AlignDown(b.z, n))
  }

  /** The cube of side 2^tp that is traversed; it moves with the player in steps of half its side. */
  function TreeStart(player: Pos, tp: nat, flatY: int): (c: Cell)
    requires tp >= 1
    ensures c.size == Pow2(tp)
  {
    var low := Pow2(tp - 1) / 2;
    Cell(Pos(AlignDown(player.x, tp - 1) - low,
             if flatY != 0 then flatY else AlignDown(player.y, tp - 1) - low,
             AlignDown(player.z, tp - 1) - low), Pow2(tp))
  }

  /** The cube has its corner a quarter of its side below a multiple of half the side, which is the last
      one up to the player; in a flat traversal it begins at the given height. */
  lemma StartIsCentered(player: Pos, tp: nat, flatY: int)
    requires tp >= 1
    ensures var c := TreeStart(player, tp, flatY);
            var half, quarter := c.size / 2, c.size / 4;
            && c.size == Pow2(tp) && c.size >= 2
            && (c.pos.x + quarter) % half == 0 && c.pos.x + quarter <= player.x < c.pos.x + quarter + half
            && (c.pos.z + quarter) % half == 0 && c.pos.z + quarter <= player.z < c.pos.z + quarter + half
            && (flatY != 0 ==> c.pos.y == flatY)
            && (flatY == 0 ==> (c.pos.y + quarter) % half == 0 && c.pos.y + quarter <= player.y < c.pos.y + quarter + half)
  {
    hide AlignDown, Pow2, TreeStart;
    StartParts(player, tp, flatY);
    CenteredAt(player.x, tp);
    CenteredAt(player.y, tp);
    CenteredAt(player.z, tp);
  }

  lemma StartParts(player: Pos, tp: nat, flatY: int)
    requires tp >= 1
    ensures var c := TreeStart(player, tp, flatY);
            var low := Pow2(tp - 1) / 2;
            && c.size == Pow2(tp) && c.pos.x == AlignDown(player.x, tp - 1) - low && c.pos.z == AlignDown(player.z, tp - 1) - low
            && c.pos.y == if flatY != 0 then flatY else AlignDown(player.y, tp - 1) - low
  {
    hide AlignDown, Pow2;
  }

  lemma CenteredAt(a: int, tp: nat)
    requires tp >= 1
    ensures var s := Pow2(tp);
            var from := AlignDown(a, tp - 1) - Pow2(tp - 1) / 2;
            s >= 2 && (from + s / 4) % (s / 2) == 0 && from + s / 4 <= a < from + s / 4 + s / 2
  {
    var half := Pow2(tp - 1);
    assert Pow2(tp) == 2 * half;
    AlignIsMultiple(a, tp - 1);
    hide AlignDown, Pow2;
    Quarter(half);
  }

  lemma Quarter(h: nat)
    ensures (2 * h) / 4 == h / 2 && (2 * h) / 2 == h
  {
  }

  lemma AlignIsMultiple(a: int, n: nat)
    ensures AlignDown(a, n) % Pow2(n) == 0
  {
    MultipleOf(a / Pow2(n), Pow2(n));
  }

  lemma {:induction false} StepBounds(range: nat)
    requires range >= 1
    ensures Pow2(RangeToStep(range)) <= range < 2 * Pow2(RangeToStep(range))
  {
    if range >= 2 {
      StepBounds(range / 2);
    }
  }

  /** The tree of a range has a side of more than a quarter and at most half of the range, and 2^16 at most;
      the enumeration takes one of at least a mesh cell. Without a range it has the greatest side. */
  lemma TreeSides(d: Control, player: Pos, flatY: int)
    requires !(2 <= d.farmesh < 4)
    ensures FarmeshToTreePow(d.farmesh) >= 1
    ensures var queried, enumerated := TreeStart(player, FarmeshToTreePow(d.farmesh), 0).size, TreeStart(player, TreePow(d), flatY).size;
            && (4 <= d.farmesh < 0x4_0000 ==> 2 * queried <= d.farmesh < 4 * queried)
            && (d.farmesh >= 0x4_0000 || d.farmesh < 2 ==> queried == 0x1_0000)
            && enumerated == Max(queried, Pow2(d.cellPow))
  {
    var tp := FarmeshToTreePow(d.farmesh);
    RangeSides(d.farmesh);
    Pow2Monotone(tp, d.cellPow);
    Pow2Monotone(d.cellPow, tp);
    StartParts(player, tp, 0);
    StartParts(player, TreePow(d), flatY);
    hide Pow2, FarmeshToTreePow, TreeStart;
  }

  lemma RangeSides(range: nat)
    requires !(2 <= range < 4)
    ensures 4 <= range < 0x4_0000 ==> 2 * Pow2(FarmeshToTreePow(range)) <= range < 4 * Pow2(FarmeshToTreePow(range))
    ensures range >= 0x4_0000 || range < 2 ==> Pow2(FarmeshToTreePow(range)) == 0x1_0000
  {
    TwoToThe16();
    if range >= 4 {
      var steps := RangeToStep(range);
      StepBounds(range);
      Pow2Monotone(18, steps);
      Pow2Monotone(steps, 17);
      assert Pow2(17) == 2 * Pow2(16) && Pow2(18) == 2 * Pow2(17) && Pow2(steps) == 2 * Pow2(steps - 1);
      assert FarmeshToTreePow(range) == if steps - 1 < 16 then steps - 1 else 16;
      hide Pow2, RangeToStep, FarmeshToTreePow;
    } else {
      assert FarmeshToTreePow(range) == 16;
    }
  }

  lemma TwoToThe16()
    ensures Pow2(16) == 0x1_0000
  {
    assert Pow2(4) == 16 && Pow2(8) == 0x100 && Pow2(12) == 0x1000;
  }

  datatype Control = Control(cellPow: nat, qualityPow: nat, farmesh: nat)

  /** The cell that the block `b` is drawn with, if it lies in the tree. */
  function GetFarParams(d: Control, tp: nat, player: Pos, b: Pos, each: bool): (r: Option<Result>)
    requires tp >= 1 && tp >= d.cellPow
  {
    Find(Params(player, d.cellPow, d.qualityPow, each, false), TreeStart(player, tp, 0),
         if each then b else AlignPos(b, d.cellPow), tp)
  }

  /** `b` is the corner of a cell of the grid with this step. */
  predicate InFarGrid(d: Control, tp: nat, player: Pos, b: Pos, step: int, each: bool)
    requires tp >= 1 && tp >= d.cellPow
  {
    var r := GetFarParams(d, tp, player, b, each);
    r.Some? && r.value.pos == b && r.value.step == step
  }

  /** Everything the traversal reports to a callback that never stops. */
  ghost function Grid(d: Control, tp: nat, player: Pos, each: bool): (r: seq<Result>)
    requires tp >= 1 && tp >= d.cellPow
  {
    var p := Params(player, d.cellPow, d.qualityPow, each, false);
    Results(p, AllCells(p, TreeStart(player, tp, 0), tp))
  }

  /** Reports the whole grid, or its lowest layer at height `flatY`, to the callback. */
  method RunFarAll(player: Pos, d: Control, flatY: int, each: bool, maxStep: nat, v: Visitor)
    requires maxStep > 0 || TreePow(d) >= 1
    modifies v
    ensures var tp := if maxStep > 0 then Max(d.cellPow, maxStep) else TreePow(d);
            var p := Params(player, d.cellPow, d.qualityPow, each, flatY != 0);
            v.log == Visit(v.stops, old(v.log), Results(p, AllCells(p, TreeStart(player, tp, flatY), tp))).0
  {
    var tp := Max(d.cellPow, if maxStep > 0 then maxStep else FarmeshToTreePow(d.farmesh));
    var stop := v.Each(Params(player, d.cellPow, d.qualityPow, each, flatY != 0), TreeStart(player, tp, flatY), tp);
  }

  // ----- queries agree with the enumeration -----

  ghost predicate Multiple(a: int, n: nat) {
    a % Pow2(n) == 0
  }

  ghost predicate OnGrid(b: Pos, n: nat) {
    Multiple(b.x, n) && Multiple(b.y, n) && Multiple(b.z, n)
  }

  lemma MultipleOf(q: int, m: int)
    requires m > 0
    ensures (q * m) % m == 0
  {
    Arithmetic.DivisionUnique(q * m, q, m, 0);
  }

  lemma MultipleSum(a: int, b: int, n: nat)
    requires Multiple(a, n) && Multiple(b, n)
    ensures Multiple(a + b, n) && Multiple(a - b, n)
  {
    var m := Pow2(n);
    var i, j := a / m, b / m;
    assert a == i * m && b == j * m;
    assert a + b == (i + j) * m && a - b == (i - j) * m;
    MultipleOf(i + j, m);
    MultipleOf(i - j, m);
  }

  lemma Pow2Multiple(k: nat, n: nat, q: int)
    requires n <= k
    ensures Multiple(q * Pow2(k), n)
  {
    var m, t := Pow2(n), Pow2(k - n);
    Pow2Sum(k - n, n);
    hide Pow2;
    Arithmetic.ProductAssociates(q, t, m);
    MultipleOf(q * t, m);
  }

  /** Clearing low bits does not carry a coordinate across a multiple. */
  lemma AlignKeepsSide(a: int, b: int, n: nat)
    requires Multiple(a, n)
    ensures a <= b <==> a <= AlignDown(b, n)
  {
    var m := Pow2(n);
    var i, j := a / m, b / m;
    assert a == i * m && AlignDown(b, n) == j * m;
    Arithmetic.ProductOrder(j, i, m);
    Arithmetic.ProductOrder(i, j, m);
  }

  lemma AlignedInside(c: Cell, b: Pos, k: nat, n: nat)
    requires n <= k && c.size == Pow2(k) && OnGrid(c.pos, n)
    ensures c.Contains(b) <==> c.Contains(AlignPos(b, n))
  {
    Pow2Multiple(k, n, 1);
    MultipleSum(c.pos.x, c.size, n);
    MultipleSum(c.pos.y, c.size, n);
    MultipleSum(c.pos.z, c.size, n);
    hide Multiple;
    AlignKeepsSide(c.pos.x, b.x, n);
    AlignKeepsSide(c.pos.x + c.size, b.x, n);
    AlignKeepsSide(c.pos.y, b.y, n);
    AlignKeepsSide(c.pos.y + c.size, b.y, n);
    AlignKeepsSide(c.pos.z, b.z, n);
    AlignKeepsSide(c.pos.z + c.size, b.z, n);
  }

  ghost predicate AllOnGrid(cells: seq<Cell>, n: nat) {
    forall i :: 0 <= i < |cells| ==> OnGrid(cells[i].pos, n)
  }

  lemma SplitOnGrid(c: Cell, k: nat, n: nat)
    requires n < k && c.size == Pow2(k) && OnGrid(c.pos, n)
    ensures AllOnGrid(Split(c), n)
  {
    var h := c.size / 2;
    assert h == 1 * Pow2(k - 1);
    Pow2Multiple(k - 1, n, 1);
    MultipleSum(c.pos.x, h, n);
    MultipleSum(c.pos.y, h, n);
    MultipleSum(c.pos.z, h, n);
    hide Multiple;
  }

  /** In a tree whose cells start on multiples of a mesh cell, looking up the corner of a mesh
      cell gives the same as looking up any position inside. */
  lemma {:induction false} FindAligned(p: Params, c: Cell, b: Pos, k: nat)
    requires Regular(p, c, k) && !p.each && OnGrid(c.pos, p.cellPow)
    ensures Find(p, c, b, k) == Find(p, c, AlignPos(b, p.cellPow), k)
    decreases k, 10
  {
    AlignedInside(c, b, k, p.cellPow);
    if !IsTreeCell(p, c) {
      SplitRegular(p, c, k);
      SplitOnGrid(c, k, p.cellPow);
      FindInAligned(p, Split(c), 0, b, k - 1);
    } else {
      StorageOfRegular(p, c, k);
    }
  }

  lemma {:induction false} FindInAligned(p: Params, cells: seq<Cell>, i: nat, b: Pos, k: nat)
    requires AllRegular(p, cells, k) && i <= 8 && !p.each && AllOnGrid(cells, p.cellPow)
    ensures FindIn(p, cells, i, b, k) == FindIn(p, cells, i, AlignPos(b, p.cellPow), k)
    decreases k, 20 - i
  {
    if i < 8 {
      FindAligned(p, cells[i], b, k);
      FindInAligned(p, cells, i + 1, b, k);
    }
  }

  lemma StartOnGrid(player: Pos, tp: nat, n: nat)
    requires tp >= n + 2
    ensures OnGrid(TreeStart(player, tp, 0).pos, n)
  {
    assert Pow2(tp - 1) == 2 * Pow2(tp - 2);
    StartCoordinate(player.x, tp, n);
    StartCoordinate(player.y, tp, n);
    StartCoordinate(player.z, tp, n);
  }

  lemma StartCoordinate(a: int, tp: nat, n: nat)
    requires tp >= n + 2
    ensures Multiple(AlignDown(a, tp - 1) - Pow2(tp - 1) / 2, n)
  {
    assert Pow2(tp - 1) == 2 * Pow2(tp - 2);
    Pow2Multiple(tp - 1, n, a / Pow2(tp - 1));
    Pow2Multiple(tp - 2, n, 1);
    MultipleSum(AlignDown(a, tp - 1), Pow2(tp - 2), n);
  }

  lemma AlignNothing(b: Pos)
    ensures AlignPos(b, 0) == b
  {
  }

  lemma LookupIsFind(d: Control, tp: nat, player: Pos, b: Pos, each: bool)
    requires tp >= 1 && tp >= d.cellPow
    requires each || d.cellPow == 0 || tp >= d.cellPow + 2
    ensures GetFarParams(d, tp, player, b, each) ==
            Find(Params(player, d.cellPow, d.qualityPow, each, false), TreeStart(player, tp, 0), b, tp)
  {
    if !each {
      if d.cellPow == 0 {
        AlignNothing(b);
      } else {
        StartOnGrid(player, tp, d.cellPow);
        FindAligned(Params(player, d.cellPow, d.qualityPow, false, false), TreeStart(player, tp, 0), b, tp);
      }
    }
  }

  ghost predicate Emits(d: Control, tp: nat, player: Pos, each: bool, b: Pos, step: int)
    requires tp >= 1 && tp >= d.cellPow
  {
    exists i :: 0 <= i < |Grid(d, tp, player, each)| &&
      Grid(d, tp, player, each)[i].pos == b && Grid(d, tp, player, each)[i].step == step
  }

  /** The point query holds of exactly the corners and steps that the traversal reports. */
  ghost predicate Agrees(d: Control, tp: nat, player: Pos, each: bool)
    requires tp >= 1 && tp >= d.cellPow
  {
    forall b, step :: InFarGrid(d, tp, player, b, step, each) <==> Emits(d, tp, player, each, b, step)
  }

  lemma QueryMatchesGrid(d: Control, tp: nat, player: Pos, each: bool)
    requires tp >= 1 && tp >= d.cellPow
    requires each || d.cellPow == 0 || tp >= d.cellPow + 2
    ensures Agrees(d, tp, player, each)
  {
    var p := Params(player, d.cellPow, d.qualityPow, each, false);
    var c := TreeStart(player, tp, 0);
    var all := AllCells(p, c, tp);
    hide Find, AllCells, TreeStart, TreeResult;
    forall b, step
      ensures InFarGrid(d, tp, player, b, step, each) <==> Emits(d, tp, player, each, b, step)
    {
      LookupIsFind(d, tp, player, b, each);
      FindAgreesWithCells(p, c, b, tp);
      if i :| 0 <= i < |all| && TreeResult(p, all[i]).pos == b && TreeResult(p, all[i]).step == step {
        ReportedHasCorner(p, c, tp, i);
      }
      if InFarGrid(d, tp, player, b, step, each) {
        var i :| 0 <= i < |all| && all[i].Contains(b);
        assert Grid(d, tp, player, each)[i] == TreeResult(p, all[i]);
      }
    }
  }

  lemma ReportedHasCorner(p: Params, c: Cell, k: nat, i: nat)
    requires Regular(p, c, k) && i < |AllCells(p, c, k)|
    ensures AllCells(p, c, k)[i].Contains(AllCells(p, c, k)[i].pos)
    ensures TreeResult(p, AllCells(p, c, k)[i]).pos == AllCells(p, c, k)[i].pos
  {
    var cells := MeshCells(p, c, k);
    forall j | 0 <= j < |cells|
      ensures IsLeaf(p, c, cells[j])
    {
      var l := MeshCellIsLeaf(p, c, k, j);
    }
    ReportedNotEmpty(p, c, cells, i);
  }

  lemma {:induction false} ReportedNotEmpty(p: Params, root: Cell, cells: seq<Cell>, i: nat)
    requires forall j :: 0 <= j < |cells| ==> IsLeaf(p, root, cells[j])
    requires i < |Reported(p, cells)|
    ensures Reported(p, cells)[i].size > 0
    decreases |cells|
  {
    hide IsLeaf, Emitted;
    var own := Emitted(p, cells[0]);
    if i < |own| {
      LeafEmits(p, root, cells[0], i);
    } else {
      ReportedNotEmpty(p, root, cells[1..], i - |own|);
    }
  }

  lemma LeafEmits(p: Params, root: Cell, c: Cell, i: nat)
    requires IsLeaf(p, root, c) && i < |Emitted(p, c)|
    ensures Emitted(p, c)[i].size > 0
  {
    hide IsTreeCell, BlocksY, StorageSize;
    var j: nat :| Leaf(p, root, c, j);
    StorageOfRegular(p, c, j);
    if p.each { BlockSizesY(p, c, 0); }
  }

  ghost predicate AllOfSize(cells: seq<Cell>, s: nat) {
    forall i :: 0 <= i < |cells| ==> cells[i].size == s
  }

  lemma {:induction false} BlockSizesX(p: Params, c: Cell, y: nat, z: nat, x: nat)
    requires x <= Pow2(p.cellPow)
    ensures AllOfSize(BlocksX(p, c, y, z, x), StorageSize(p, c))
    decreases Pow2(p.cellPow) - x
  {
    if x < Pow2(p.cellPow) {
      BlockSizesX(p, c, y, z, x + 1);
    }
  }

  lemma {:induction false} BlockSizesZ(p: Params, c: Cell, y: nat, z: nat)
    requires z <= Pow2(p.cellPow)
    ensures AllOfSize(BlocksZ(p, c, y, z), StorageSize(p, c))
    decreases Pow2(p.cellPow) - z
  {
    if z < Pow2(p.cellPow) {
      BlockSizesX(p, c, y, z, 0);
      BlockSizesZ(p, c, y, z + 1);
    }
  }

  lemma {:induction false} BlockSizesY(p: Params, c: Cell, y: nat)
    requires y <= LayersOf(p)
    ensures AllOfSize(BlocksY(p, c, y), StorageSize(p, c))
    decreases LayersOf(p) - y
  {
    if y < LayersOf(p) {
      BlockSizesZ(p, c, y, 0);
      BlockSizesY(p, c, y + 1);
    }
  }

  /** A player for whom the lowest corner of the tree is not a multiple of a mesh cell. */
  ghost function Offside(tp: nat): Pos {
    if tp == 1 then Pos(1, 1, 1) else Pos(0, 0, 0)
  }

  lemma AlignBelowZero(a: int, n: nat)
    requires 0 - Pow2(n) < a < 0
    ensures AlignDown(a, n) < a
  {
    MultipleOf(-1, Pow2(n));
    var m := Pow2(n);
    if AlignDown(a, n) == a {
      hide Pow2;
      var q := a / m;
      assert q * m == a;
      Arithmetic.ProductOrder(0, q, m);
      Arithmetic.ProductOrder(q, -1, m);
    }
  }

  lemma AlignZero(n: nat)
    ensures AlignDown(0, n) == 0
  {
  }

  lemma OffsideStart(tp: nat, n: nat)
    requires tp >= 1 && n >= 1 && n <= tp < n + 2
    ensures AlignDown(TreeStart(Offside(tp), tp, 0).pos.x, n) < TreeStart(Offside(tp), tp, 0).pos.x
  {
    if tp == 1 {
      assert Pow2(0) == 1 && Pow2(1) == 2;
      assert TreeStart(Offside(tp), tp, 0).pos.x == 1;
    } else {
      assert Pow2(tp - 1) == 2 * Pow2(tp - 2);
      AlignZero(tp - 1);
      Pow2Monotone(tp - 2, n);
      AlignBelowZero(0 - Pow2(tp - 2), n);
      hide AlignDown;
      assert TreeStart(Offside(tp), tp, 0).pos.x == 0 - Pow2(tp - 2);
    }
  }

  /** Cells reported lie inside the start cube, so one that covers its lowest corner starts there. */
  lemma CornerCell(p: Params, c: Cell, k: nat) returns (i: nat)
    requires Regular(p, c, k) && !p.flat
    ensures i < |AllCells(p, c, k)| && AllCells(p, c, k)[i].pos == c.pos
  {
    Pow2Monotone(0, k);
    FindAgreesWithCells(p, c, c.pos, k);
    i :| 0 <= i < |AllCells(p, c, k)| && AllCells(p, c, k)[i].Contains(c.pos);
    ReportedHasCorner(p, c, k, i);
    CellsPartition(p, c, k, AllCells(p, c, k)[i].pos);
    CountPositive(AllCells(p, c, k), AllCells(p, c, k)[i].pos, i);
  }

  lemma OffsideDisagrees(d: Control, tp: nat)
    requires tp >= 1 && d.cellPow >= 1 && d.cellPow <= tp < d.cellPow + 2
    ensures !Agrees(d, tp, Offside(tp), false)
  {
    var player := Offside(tp);
    var p := Params(player, d.cellPow, d.qualityPow, false, false);
    var c := TreeStart(player, tp, 0);
    var i := CornerCell(p, c, tp);
    var r := Grid(d, tp, player, false)[i];
    assert r.pos == c.pos && Emits(d, tp, player, false, r.pos, r.step);
    OffsideStart(tp, d.cellPow);
    assert !c.Contains(AlignPos(c.pos, d.cellPow));
    assert !InFarGrid(d, tp, player, r.pos, r.step, false);
  }

  /** Block by block, query and traversal always agree. Mesh cell by mesh cell they agree for all
      players exactly when a mesh cell is one block or at most a quarter of the tree. */
  lemma QueriesAgree(d: Control, tp: nat)
    requires tp >= 1 && tp >= d.cellPow
    ensures forall player :: Agrees(d, tp, player, true)
    ensures (forall player :: Agrees(d, tp, player, false)) <==> d.cellPow == 0 || tp >= d.cellPow + 2
  {
    forall player
      ensures Agrees(d, tp, player, true)
      ensures d.cellPow == 0 || tp >= d.cellPow + 2 ==> Agrees(d, tp, player, false)
    {
      QueryMatchesGrid(d, tp, player, true);
      if d.cellPow == 0 || tp >= d.cellPow + 2 {
        QueryMatchesGrid(d, tp, player, false);
      }
    }
    if !(d.cellPow == 0 || tp >= d.cellPow + 2) {
      OffsideDisagrees(d, tp);
    }
  }

  // ----- the tree of the range may be smaller than one mesh cell -----

  /** A tree smaller than one mesh cell is not split. */
  lemma SmallTreeIsWhole(p: Params, tp: nat)
    requires 1 <= tp < p.cellPow
    ensures IsTreeCell(p, TreeStart(p.player, tp, 0))
  {
    Pow2Monotone(tp, p.cellPow);
  }

  /** The query looks in the tree of the range, even where the traversal takes a larger one. A tree
      smaller than one mesh cell is not split, and its stored blocks have a side of 0, by which the
      program divides: None. */
  function RangeLookup(d: Control, player: Pos, b: Pos, each: bool): (r: Option<Option<Result>>)
    requires FarmeshToTreePow(d.farmesh) >= 1
  {
    var tp := FarmeshToTreePow(d.farmesh);
    if tp >= d.cellPow then Some(GetFarParams(d, tp, player, b, each)) else
    var p := Params(player, d.cellPow, d.qualityPow, each, false);
    var c := TreeStart(player, tp, 0);
    var at := if each then b else AlignPos(b, d.cellPow);
    SmallTreeIsWhole(p, tp);
    if !c.Contains(at) then Some(None)
    else if !IsTreeCell(p, c) then assert false; None
    else if !each then Some(Some(TreeResult(p, c).(step := TreeResult(p, c).step % STEP_VALUES)))
    else if StorageSize(p, c) == 0 then None
    else Some(Some(FindResult(p, c, at)))
  }

  /** The query has an answer, and it is the cell at `b` with this step. */
  predicate InRangeGrid(d: Control, player: Pos, b: Pos, step: int, each: bool)
    requires FarmeshToTreePow(d.farmesh) >= 1
  {
    var r := RangeLookup(d, player, b, each);
    r.Some? && r.value.Some? && r.value.value.pos == b && r.value.value.step == step
  }

  ghost predicate RangeAgrees(d: Control, player: Pos, each: bool)
    requires FarmeshToTreePow(d.farmesh) >= 1
  {
    forall b, step :: InRangeGrid(d, player, b, step, each) <==> Emits(d, TreePow(d), player, each, b, step)
  }

  lemma {:induction false} ShiftedAway(k: nat, n: nat)
    requires k < n
    ensures ShiftRight(Pow2(k), n) == 0
  {
    if k > 0 { ShiftedAway(k - 1, n - 1); } else { ShiftedZero(n - 1); }
  }

  lemma {:induction false} ShiftedZero(n: nat)
    ensures ShiftRight(0, n) == 0
  {
    if n > 0 { ShiftedZero(n - 1); }
  }

  lemma ByteWraps(a: int)
    requires 0 - STEP_VALUES < a < 0
    ensures a % STEP_VALUES == a + STEP_VALUES
  {
  }

  /** A query for a mesh cell in a tree smaller than one never gives the step 0. */
  lemma SmallTreeCellQuery(d: Control, player: Pos, b: Pos)
    requires 1 <= FarmeshToTreePow(d.farmesh) < d.cellPow < STEP_VALUES
    ensures !InRangeGrid(d, player, b, 0, false)
    ensures var r := RangeLookup(d, player, b, false);
            r.Some? && (r.value.Some? ==> r.value.value.step == STEP_VALUES + FarmeshToTreePow(d.farmesh) - d.cellPow)
  {
    hide TreeStart, TreeResult, IsTreeCell, AlignPos, FarmeshToTreePow, GetFarParams, Find;
    var tp := FarmeshToTreePow(d.farmesh);
    var p := Params(player, d.cellPow, d.qualityPow, false, false);
    SmallTreeIsWhole(p, tp);
    SmallTreeStep(p, player, tp);
    ByteWraps(tp - d.cellPow);
  }

  lemma SmallTreeStep(p: Params, player: Pos, tp: nat)
    requires tp >= 1 && !p.each
    ensures TreeResult(p, TreeStart(player, tp, 0)).step == tp - p.cellPow
  {
    RangeToStepOfPow2(tp);
    hide AlignDown;
  }

  /** A query for a block divides by 0 exactly inside the tree, where the player's own block is. */
  lemma SmallTreeBlockQuery(d: Control, player: Pos, b: Pos)
    requires 1 <= FarmeshToTreePow(d.farmesh) < d.cellPow
    ensures RangeLookup(d, player, b, true).None? <==> TreeStart(player, FarmeshToTreePow(d.farmesh), 0).Contains(b)
    ensures RangeLookup(d, player, player, true).None?
    ensures forall step :: !InRangeGrid(d, player, b, step, true)
  {
    var tp := FarmeshToTreePow(d.farmesh);
    ShiftedAway(tp, d.cellPow);
    PlayerInTree(player, tp);
    hide ShiftRight, Pow2, AlignPos, FarmeshToTreePow, TreeStart, GetFarParams;
  }

  /** The traversal, whose tree is then one mesh cell, reports something, with the step 0. */
  lemma SmallTreeDisagrees(d: Control, player: Pos, each: bool)
    requires 1 <= FarmeshToTreePow(d.farmesh) < d.cellPow < STEP_VALUES
    ensures !RangeAgrees(d, player, each)
  {
    var p := Params(player, d.cellPow, d.qualityPow, each, false);
    var c := TreeStart(player, d.cellPow, 0);
    var i := CornerCell(p, c, d.cellPow);
    var cells := AllCells(p, c, d.cellPow);
    assert MeshCells(p, c, d.cellPow) == [c] && [c][1..] == [];
    assert Reported(p, []) == [] && cells == Emitted(p, c) + [];
    FinestEmits(p, c);
    assert TreeResult(p, cells[i]) == Result(c.pos, 1, 0);
    assert Grid(d, d.cellPow, player, each)[i] == Result(c.pos, 1, 0);
    assert Emits(d, TreePow(d), player, each, c.pos, 0);
    SmallTreeCellQuery(d, player, c.pos);
    SmallTreeBlockQuery(d, player, c.pos);
  }

  /** The program's own query agrees with its own traversal block by block exactly when the tree of
      the range is no smaller than a mesh cell, and mesh cell by mesh cell, unless they are blocks,
      exactly when it is at least four times as large. */
  lemma RangeQueriesAgree(d: Control)
    requires 1 <= FarmeshToTreePow(d.farmesh) && d.cellPow < STEP_VALUES
    ensures (forall player :: RangeAgrees(d, player, true)) <==> FarmeshToTreePow(d.farmesh) >= d.cellPow
    ensures (forall player :: RangeAgrees(d, player, false)) <==>
            d.cellPow == 0 || FarmeshToTreePow(d.farmesh) >= d.cellPow + 2
  {
    var tp := FarmeshToTreePow(d.farmesh);
    if tp < d.cellPow {
      SmallTreeDisagrees(d, Pos(0, 0, 0), true);
      SmallTreeDisagrees(d, Pos(0, 0, 0), false);
    } else {
      hide RangeAgrees, Agrees;
      QueriesAgree(d, tp);
      forall player, each
        ensures RangeAgrees(d, player, each) <==> Agrees(d, tp, player, each)
      {
        SameTree(d, player, each);
      }
    }
  }

  /** In a tree that holds a mesh cell both look at the same. */
  lemma SameTree(d: Control, player: Pos, each: bool)
    requires FarmeshToTreePow(d.farmesh) >= 1 && FarmeshToTreePow(d.farmesh) >= d.cellPow
    ensures RangeAgrees(d, player, each) <==> Agrees(d, FarmeshToTreePow(d.farmesh), player, each)
  {
    var tp := FarmeshToTreePow(d.farmesh);
    assert TreePow(d) == tp;
    hide FarmeshToTreePow, GetFarParams, TreePow, Emits;
    forall b, step
      ensures InRangeGrid(d, player, b, step, each) <==> InFarGrid(d, tp, player, b, step, each)
    {
    }
    hide InRangeGrid, InFarGrid;
  }

  // ----- the resolution changes gradually -----

  /** The closed cubes have a point in common, be it a corner. */
  ghost predicate Touch(a: Cell, b: Cell) {
    && a.pos.x <= b.pos.x + b.size && b.pos.x <= a.pos.x + a.size
    && a.pos.y <= b.pos.y + b.size && b.pos.y <= a.pos.y + a.size
    && a.pos.z <= b.pos.z + b.size && b.pos.z <= a.pos.z + a.size
  }

  lemma Difference(h: int, g: int, reach: int)
    ensures (2 * reach) * (h - g) == 2 * h * reach - 2 * g * reach
  {
  }

  /** With sides 2h and 2g: a cell far enough to stay whole, touching one near enough to be split,
      has a side less than twice as large. */
  lemma WholeBesideSplit(h: nat, g: nat, reach: nat, da: nat, db: nat)
    requires reach >= 2 && g >= 1
    requires da >= 2 * h * reach   // the whole cell's distance
    requires db < 2 * g * reach    // the split cell's distance
    requires da <= db + h + g      // they touch
    ensures h < 2 * g
  {
    if h >= g {
      var r := 2 * reach;
      Arithmetic.ProductOrder(4, r, h - g);
      Difference(h, g, reach);
    }
  }

  lemma CentersApart(p: Params, a: Cell, c: Cell, h: nat, g: nat)
    requires a.size == 2 * h && c.size == 2 * g && Touch(a, c)
    ensures Distance(p.player, Center(a)) <= Distance(p.player, Center(c)) + h + g
  {
  }

  lemma {:induction false} Pow2Doubling(i: nat, j: nat)
    requires Pow2(i) < 4 * Pow2(j)
    ensures Pow2(i) <= 2 * Pow2(j)
  {
    assert Pow2(j + 1) == 2 * Pow2(j) && Pow2(j + 2) == 4 * Pow2(j);
    Pow2Monotone(j + 2, i);
    Pow2Monotone(i, j + 1);
  }

  lemma TouchesParent(a: Cell, b: Cell, c: Cell)
    requires Touch(a, b) && IsHalfOf(b, c)
    ensures Touch(a, c)
  {
  }

  lemma LeafNotLarger(p: Params, root: Cell, a: Cell, i: nat, b: Cell, j: nat)
    requires Leaf(p, root, a, i) && Leaf(p, root, b, j) && Touch(a, b)
    requires a != root && b != root
    ensures a.size <= 2 * b.size
  {
    if i > j {
      Pow2Monotone(p.cellPow, j);
      Pow2Monotone(j, i);
      var c :| IsHalfOf(b, c) && !IsTreeCell(p, c);
      var h, g := Pow2(i - 1), b.size;
      assert a.size == 2 * h;
      TouchesParent(a, b, c);
      hide Distance, Center, Reach, Touch, IsTreeCell, Pow2;
      CentersApart(p, a, c, h, g);
      WholeBesideSplit(h, g, Reach(p), Distance(p.player, Center(a)), Distance(p.player, Center(c)));
      Pow2Doubling(i, j);
    } else {
      Pow2Monotone(i, j);
    }
  }

  /** Mesh cells that touch, even at a corner, differ in side by at most a factor of two. */
  lemma GridIsBalanced(p: Params, c: Cell, k: nat, m: nat, n: nat)
    requires Regular(p, c, k) && m < |MeshCells(p, c, k)| && n < |MeshCells(p, c, k)|
    requires Touch(MeshCells(p, c, k)[m], MeshCells(p, c, k)[n])
    ensures MeshCells(p, c, k)[m].size <= 2 * MeshCells(p, c, k)[n].size
    ensures MeshCells(p, c, k)[n].size <= 2 * MeshCells(p, c, k)[m].size
  {
    var a, b := MeshCells(p, c, k)[m], MeshCells(p, c, k)[n];
    var i := MeshCellIsLeaf(p, c, k, m);
    var j := MeshCellIsLeaf(p, c, k, n);
    if a == c || b == c {
      RootAlone(p, c, k, m);
      RootAlone(p, c, k, n);
    } else {
      LeafNotLarger(p, c, a, i, b, j);
      LeafNotLarger(p, c, b, j, a, i);
    }
  }

  lemma RootAlone(p: Params, c: Cell, k: nat, m: nat)
    requires Regular(p, c, k) && m < |MeshCells(p, c, k)|
    ensures MeshCells(p, c, k)[m] == c ==> MeshCells(p, c, k) == [c]
  {
    var j := MeshCellIsLeaf(p, c, k, m);
  }

  // ----- around the player -----

  lemma StartAroundPlayer(a: int, tp: nat)
    requires tp >= 1
    ensures var start := AlignDown(a, tp - 1) - Pow2(tp - 1) / 2;
            start <= a < start + Pow2(tp) && start + Pow2(tp - 1) / 2 <= a < start + Pow2(tp) - Pow2(tp - 1) / 2
  {
    assert Pow2(tp) == 2 * Pow2(tp - 1);
    if tp >= 2 { assert Pow2(tp - 1) == 2 * Pow2(tp - 2); } else { assert Pow2(tp - 1) == 1; }
  }

  /** Every block no further from the player than a quarter of the tree's side lies in the tree. */
  lemma NearBlocksInTree(player: Pos, tp: nat, b: Pos)
    requires tp >= 2 && Distance(player, b) <= Pow2(tp - 2)
    ensures TreeStart(player, tp, 0).Contains(b)
  {
    assert Pow2(tp - 1) == 2 * Pow2(tp - 2) && Pow2(tp) == 2 * Pow2(tp - 1);
    StartAroundPlayer(player.x, tp);
    StartAroundPlayer(player.y, tp);
    StartAroundPlayer(player.z, tp);
    hide AlignDown;
  }

  lemma PlayerInTree(player: Pos, tp: nat)
    requires tp >= 1
    ensures TreeStart(player, tp, 0).Contains(player)
  {
    StartAroundPlayer(player.x, tp);
    StartAroundPlayer(player.y, tp);
    StartAroundPlayer(player.z, tp);
    hide AlignDown;
  }

  /** The mesh cell in which the player stands is of the finest step, and so is all it contributes:
      itself or its blocks. */
  lemma PlayerCellIsFinest(p: Params, c: Cell, k: nat, i: nat)
    requires Regular(p, c, k) && i < |MeshCells(p, c, k)| && MeshCells(p, c, k)[i].Contains(p.player)
    ensures MeshCells(p, c, k)[i].size == Pow2(p.cellPow)
    ensures forall b :: b in Emitted(p, MeshCells(p, c, k)[i]) ==> TreeResult(p, b) == Result(b.pos, 1, 0)
  {
    var a := MeshCells(p, c, k)[i];
    var j := MeshCellIsLeaf(p, c, k, i);
    if j > p.cellPow {
      Pow2Monotone(j, p.cellPow);
      assert a.size == 2 * Pow2(j - 1);
      NearCellIsSplit(p, a, Pow2(j - 1));
    }
    hide IsTreeCell, MeshCells, TreeResult;
    FinestEmits(p, a);
  }

  lemma FinestEmits(p: Params, a: Cell)
    requires a.size == Pow2(p.cellPow)
    ensures forall b :: b in Emitted(p, a) ==> TreeResult(p, b) == Result(b.pos, 1, 0)
  {
    RangeToStepOfPow2(p.cellPow);
    ShiftPow2(p.cellPow, p.cellPow);
    BlockSizesY(p, a, 0);
  }

  lemma NearCellIsSplit(p: Params, a: Cell, h: nat)
    requires a.size == 2 * h && a.size > Pow2(p.cellPow) && a.Contains(p.player)
    ensures !IsTreeCell(p, a)
  {
    assert Distance(p.player, Center(a)) <= h;
    TwiceAtLeast(a.size, Reach(p));
    hide Distance;
  }

  lemma TwiceAtLeast(s: nat, r: nat)
    requires r >= 2
    ensures s * r >= 2 * s
  {
    assert s * r == 2 * s + s * (r - 2);
    assert s * (r - 2) >= 0;
  }

  // ----- how far the finest cells reach -----

  const MAP_BLOCKSIZE := 16
  const U64_MAX := 0xFFFF_FFFF_FFFF_FFFF

  /** A node distance that covers every cell of step 0. */
  function GetFarMeshNearRange(d: Control): (range: nat) {
    if d.farmesh == 0 then 0 else
    var distancePow := 2 + Max(d.qualityPow, d.cellPow);
    if d.cellPow >= 63 || distancePow >= 63 then U64_MAX else
    var blocks := Pow2(distancePow) + Pow2(d.cellPow);
    if blocks > U64_MAX / MAP_BLOCKSIZE then U64_MAX else blocks * MAP_BLOCKSIZE
  }

  lemma ReachOfParent(p: Params)
    ensures 2 * Pow2(p.cellPow) * Reach(p) == Pow2(2 + Max(p.qualityPow, p.cellPow))
  {
    var m := Max(p.qualityPow, p.cellPow);
    assert Pow2(p.cellPow + 1) == 2 * Pow2(p.cellPow);
    Pow2Sum(p.cellPow + 1, 1 + m - p.cellPow);
  }

  /** Blocks of a cell of step 0 are nearer than the parent's splitting distance and half its side. */
  lemma FinestBlockNear(p: Params, tp: nat, i: nat, b: Pos)
    requires tp >= 1 && tp >= p.cellPow && !p.flat
    requires var cells := MeshCells(p, TreeStart(p.player, tp, 0), tp);
             i < |cells| && cells[i].size == Pow2(p.cellPow) && cells[i].Contains(b)
    ensures Distance(p.player, b) < Pow2(2 + Max(p.qualityPow, p.cellPow)) + Pow2(p.cellPow)
    ensures Distance(p.player, b) < Pow2(tp)
  {
    var c := TreeStart(p.player, tp, 0);
    var a := MeshCells(p, c, tp)[i];
    PlayerInTree(p.player, tp);
    MeshCellsPartition(p, c, tp, b);
    CountPositive(MeshCells(p, c, tp), b, i);
    var j := MeshCellIsLeaf(p, c, tp, i);
    assert a == c ==> Pow2(tp) == Pow2(p.cellPow);
    assert c.Contains(b) && c.Contains(p.player);
    hide TreeStart, MeshCells, Count, IsTreeCell, Distance;
    WithinCell(c, p.player, b);
    if a != c {
      var parent :| IsHalfOf(a, parent) && !IsTreeCell(p, parent);
      BesideSplitParent(p, parent, a, b);
    }
  }

  lemma WithinCell(c: Cell, a: Pos, b: Pos)
    requires c.Contains(a) && c.Contains(b)
    ensures Distance(a, b) < c.size
  {
  }

  lemma BesideSplitParent(p: Params, parent: Cell, a: Cell, b: Pos)
    requires IsHalfOf(a, parent) && !IsTreeCell(p, parent) && a.size == Pow2(p.cellPow) && a.Contains(b)
    ensures Distance(p.player, b) < Pow2(2 + Max(p.qualityPow, p.cellPow)) + Pow2(p.cellPow)
  {
    ReachOfParent(p);
    var limit := Pow2(2 + Max(p.qualityPow, p.cellPow));
    assert Distance(p.player, Center(parent)) < limit;
    hide Reach, Pow2, IsTreeCell, Distance, Center, IsHalfOf;
    NearCenter(parent, a, b);
    Triangle(p.player, Center(parent), b);
  }

  lemma NearCenter(parent: Cell, a: Cell, b: Pos)
    requires IsHalfOf(a, parent) && a.Contains(b)
    ensures Distance(Center(parent), b) <= a.size
  {
    assert parent.size / 2 == a.size;
  }

  lemma Triangle(a: Pos, b: Pos, c: Pos)
    ensures Distance(a, c) <= Distance(a, b) + Distance(b, c)
  {
  }

  /** The node at offset `o` of block `b`. */
  function Node(b: int, o: int): int {
    b * MAP_BLOCKSIZE + o
  }

  /** A node is told from its block and its place in there. */
  lemma NodeIsInBlock(b: int, o: int)
    requires 0 <= o < 16
    ensures Node(b, o) / 16 == b && Node(b, o) % 16 == o
  {
  }

  ghost predicate InBlock(o: Pos) {
    0 <= o.x < MAP_BLOCKSIZE && 0 <= o.y < MAP_BLOCKSIZE && 0 <= o.z < MAP_BLOCKSIZE
  }

  function NodePos(b: Pos, o: Pos): Pos {
    Pos(Node(b.x, o.x), Node(b.y, o.y), Node(b.z, o.z))
  }

  /** Every node of every cell of step 0 that the traversal reports, be it a mesh cell or a block, is
      closer to the camera than the near range, wherever in its block the camera is. From mesh cells of
      2^60 blocks on, the largest 64-bit number is not enough. */
  lemma NearRangeCovers(d: Control, player: Pos, each: bool, camera: Pos, i: nat, b: Pos, o: Pos)
    requires d.farmesh > 0 && 1 <= TreePow(d) < 60 && InBlock(camera) && InBlock(o)
    requires var p := Params(player, d.cellPow, d.qualityPow, each, false);
             var cells := AllCells(p, TreeStart(player, TreePow(d), 0), TreePow(d));
             i < |cells| && TreeResult(p, cells[i]).step == 0 && cells[i].Contains(b)
    ensures Distance(NodePos(player, camera), NodePos(b, o)) < GetFarMeshNearRange(d)
  {
    hide AllCells, TreeStart, Pow2, TreePow, TreeResult, Distance, NodePos, GetFarMeshNearRange;
    NodeDistance(player, camera, b, o);
    NearRangeInBlocks(d, player, each, i, b);
  }

  /** The near range, counted in blocks, exceeds the distance of every block of step 0. */
  lemma NearRangeInBlocks(d: Control, player: Pos, each: bool, i: nat, b: Pos)
    requires d.farmesh > 0 && 1 <= TreePow(d) < 60
    requires var p := Params(player, d.cellPow, d.qualityPow, each, false);
             var cells := AllCells(p, TreeStart(player, TreePow(d), 0), TreePow(d));
             i < |cells| && TreeResult(p, cells[i]).step == 0 && cells[i].Contains(b)
    ensures (Distance(player, b) + 1) * MAP_BLOCKSIZE <= GetFarMeshNearRange(d)
  {
    var tp := TreePow(d);
    var p := Params(player, d.cellPow, d.qualityPow, each, false);
    var c := TreeStart(player, tp, 0);
    hide MeshCells, Reported, Emitted, TreeStart, Pow2, IsTreeCell, TreeResult, Distance, GetFarMeshNearRange, IsHalfOf, TreePow;
    var m := FinestReported(p, c, tp, i, b);
    FinestBlockNear(p, tp, m, b);
    Pow2Monotone(tp, 59);
    RangeExceeds(d, Distance(player, b));
  }

  /** What is reported with step 0 belongs to a mesh cell of the finest size. */
  lemma FinestReported(p: Params, c: Cell, k: nat, i: nat, b: Pos) returns (m: nat)
    requires Regular(p, c, k) && !p.flat && i < |AllCells(p, c, k)|
    requires TreeResult(p, AllCells(p, c, k)[i]).step == 0 && AllCells(p, c, k)[i].Contains(b)
    ensures m < |MeshCells(p, c, k)| && MeshCells(p, c, k)[m].size == Pow2(p.cellPow) && MeshCells(p, c, k)[m].Contains(b)
  {
    var cells := MeshCells(p, c, k);
    hide MeshCells, Emitted, Reported, Pow2, IsTreeCell, TreeResult, IsHalfOf, Count;
    var n;
    m, n := ReportedFrom(p, cells, i);
    var j := MeshCellIsLeaf(p, c, k, m);
    EmittedStep(p, cells[m], j, n);
    EmittedPartition(p, cells[m], j, b);
    CountPositive(Emitted(p, cells[m]), b, n);
  }

  lemma {:induction false} ReportedFrom(p: Params, cells: seq<Cell>, i: nat) returns (m: nat, n: nat)
    requires i < |Reported(p, cells)|
    ensures m < |cells| && n < |Emitted(p, cells[m])| && Emitted(p, cells[m])[n] == Reported(p, cells)[i]
  {
    if i < |Emitted(p, cells[0])| {
      m, n := 0, i;
    } else {
      m, n := ReportedFrom(p, cells[1..], i - |Emitted(p, cells[0])|);
      m := m + 1;
    }
    hide Emitted;
  }

  lemma EmittedStep(p: Params, c: Cell, j: nat, n: nat)
    requires Regular(p, c, j) && n < |Emitted(p, c)|
    ensures TreeResult(p, Emitted(p, c)[n]) == Result(Emitted(p, c)[n].pos, Pow2(j - p.cellPow), j - p.cellPow)
    ensures Emitted(p, c)[n].size == Pow2(j - p.cellPow) * (if p.each then 1 else Pow2(p.cellPow))
  {
    hide IsTreeCell, StorageSize, RangeToStep, BlocksY, Pow2;
    StorageOfRegular(p, c, j);
    if p.each {
      BlockSizesY(p, c, 0);
      RangeToStepOfPow2(j - p.cellPow);
    } else {
      RangeToStepOfPow2(j);
      Stored(p, c);
    }
  }

  lemma Stored(p: Params, c: Cell)
    ensures StorageSize(p, c) == ShiftRight(c.size, p.cellPow)
  {
  }

  /** Every result names the corner of its cell, and its step gives the side: 2^step blocks for a stored
      block, and for a mesh cell 2^step times those of the finest one. */
  lemma GridSteps(p: Params, c: Cell, k: nat, i: nat)
    requires Regular(p, c, k) && i < |AllCells(p, c, k)|
    ensures var a := AllCells(p, c, k)[i];
            var r := TreeResult(p, a);
            && 0 <= r.step <= k - p.cellPow && r.pos == a.pos && r.size == Pow2(r.step)
            && a.size == Pow2(r.step) * (if p.each then 1 else Pow2(p.cellPow))
  {
    var cells := MeshCells(p, c, k);
    hide MeshCells, Emitted, Reported, Pow2, IsTreeCell, TreeResult, IsHalfOf;
    var m, n := ReportedFrom(p, cells, i);
    var j := MeshCellIsLeaf(p, c, k, m);
    EmittedStep(p, cells[m], j, n);
  }

  lemma RangeExceeds(d: Control, n: nat)
    requires n < Pow2(2 + Max(d.qualityPow, d.cellPow)) + Pow2(d.cellPow) && n < Pow2(59) && d.farmesh > 0
    ensures (n + 1) * MAP_BLOCKSIZE <= GetFarMeshNearRange(d)
  {
    TwoToThe59();
    hide Pow2;
  }

  /** The near range is sharp: a cell of twice the finest side is split exactly while its center is nearer
      than the near range less half its side, unless the number does not fit. */
  lemma NearRangeIsSharp(d: Control, player: Pos, each: bool, c: Cell)
    requires 0 < d.farmesh && GetFarMeshNearRange(d) < U64_MAX && c.size == 2 * Pow2(d.cellPow)
    ensures IsTreeCell(Params(player, d.cellPow, d.qualityPow, each, false), c) <==>
            (Distance(player, Center(c)) + c.size / 2) * 16 >= GetFarMeshNearRange(d)
  {
    hide Pow2, Reach, Distance, Center, GetFarMeshNearRange;
    ReachOfParent(Params(player, d.cellPow, d.qualityPow, each, false));
    NearRangeIs(d);
  }

  /** Without a range there is no near cell; otherwise the range is the distance up to which the parents of
      the finest cells are split and one such cell, in nodes, or the greatest number if that is too much. */
  lemma NearRangeIs(d: Control)
    ensures d.farmesh == 0 ==> GetFarMeshNearRange(d) == 0
    ensures var nodes := (Pow2(2 + Max(d.qualityPow, d.cellPow)) + Pow2(d.cellPow)) * 16;
            d.farmesh > 0 ==> GetFarMeshNearRange(d) == if nodes < 0x1_0000_0000_0000_0000 then nodes else 0xFFFF_FFFF_FFFF_FFFF
  {
    TwoToThe59();
    var m := Max(d.qualityPow, d.cellPow);
    Pow2Monotone(61, 2 + m);
    Pow2Monotone(63, d.cellPow);
    Pow2Monotone(d.cellPow, m);
    assert Pow2(61) == 4 * Pow2(59);
    hide Pow2;
  }

  lemma NodeDistance(a: Pos, i: Pos, b: Pos, j: Pos)
    requires InBlock(i) && InBlock(j)
    ensures Distance(NodePos(a, i), NodePos(b, j)) < (Distance(a, b) + 1) * MAP_BLOCKSIZE
  {
  }

  lemma TwoToThe59()
    ensures Pow2(59) == 0x800_0000_0000_0000
  {
    assert Pow2(4) == 16 && Pow2(8) == 0x100 && Pow2(12) == 0x1000 && Pow2(16) == 0x1_0000;
    Pow2Sum(16, 16);
    Pow2Sum(32, 16);
    Pow2Sum(48, 8);
    assert Pow2(59) == 8 * Pow2(56);
  }
}
