/** The adaptive octree that decides which far blocks are drawn at which resolution. */
module FarOctree {
  import Arithmetic
  import opened Wrappers

  datatype Pos = Pos(x: int, y: int, z: int)

  /** A cube of blocks. */
  datatype Cell = Cell(pos: Pos, size: nat) {
    predicate Contains(p: Pos) {
      && pos.x <= p.x < pos.x + size
      && pos.y <= p.y < pos.y + size
      && pos.z <= p.z < pos.z + size
    }
  }

  /** What the traversal reports of a cell: where it is, its side and its step, in mesh units. */
  datatype Result = Result(pos: Pos, size: nat, step: int)

  /** `cellPow`: blocks per mesh cell, `qualityPow`: detail, both as powers of two; `each`: report
      single stored blocks instead of mesh cells; `flat`: stay in the lowest layer. */
  datatype Params = Params(player: Pos, cellPow: nat, qualityPow: nat, each: bool, flat: bool)

  // ----- powers of two -----

  function Pow2(n: nat): (p: nat)
    ensures p >= 1
  {
    if n == 0 then 1 else 2 * Pow2(n - 1)
  }

  lemma {:induction false} Pow2Monotone(a: nat, b: nat)
    ensures a < b ==> 2 * Pow2(a) <= Pow2(b)
    ensures a <= b <==> Pow2(a) <= Pow2(b)
    decreases a + b
  {
    if a > 0 && b > 0 {
      Pow2Monotone(a - 1, b - 1);
    }
  }

  lemma {:induction false} Pow2Sum(a: nat, b: nat)
    ensures Pow2(a + b) == Pow2(a) * Pow2(b)
  {
    if a > 0 {
      Pow2Sum(a - 1, b);
    }
  }

  /** The position of the highest set bit. */
  function RangeToStep(range: nat): (s: nat) {
    if range < 2 then 0 else 1 + RangeToStep(range / 2)
  }

  lemma {:induction false} RangeToStepOfPow2(k: nat)
    ensures RangeToStep(Pow2(k)) == k
  {
    if k > 0 {
      RangeToStepOfPow2(k - 1);
    }
  }

  /** `a >> n`. */
  function ShiftRight(a: nat, n: nat): (r: nat) {
    if n == 0 then a else ShiftRight(a / 2, n - 1)
  }

  lemma {:induction false} ShiftPow2(k: nat, n: nat)
    requires n <= k
    ensures ShiftRight(Pow2(k), n) == Pow2(k - n)
    decreases n
  {
    if n > 0 {
      ShiftPow2(k - 1, n - 1);
    }
  }

  // ----- splitting -----

  function Abs(a: int): nat { if a < 0 then -a else a }

  function Max(a: int, b: int): int { if a < b then b else a }

  /** Distance in the maximum norm. */
  function Distance(a: Pos, b: Pos): (d: nat)
    ensures d == Abs(a.x - b.x) || d == Abs(a.y - b.y) || d == Abs(a.z - b.z)
    ensures d >= Abs(a.x - b.x) && d >= Abs(a.y - b.y) && d >= Abs(a.z - b.z)
  {
    Max(Abs(a.x - b.x), Max(Abs(a.y - b.y), Abs(a.z - b.z)))
  }

  function Center(c: Cell): Pos {
    Pos(c.pos.x + c.size / 2, c.pos.y + c.size / 2, c.pos.z + c.size / 2)
  }

  /** How many times its own side a cell must be away from the player to stay whole. */
  function Reach(p: Params): (k: nat)
    ensures k >= 2
  {
    Pow2Monotone(1, 1 + Max(p.qualityPow, p.cellPow) - p.cellPow);
    Pow2(1 + Max(p.qualityPow, p.cellPow) - p.cellPow)
  }

  /** The cell is not split any further. */
  predicate IsTreeCell(p: Params, c: Cell) {
    c.size <= Pow2(p.cellPow) || Distance(p.player, Center(c)) >= c.size * Reach(p)
  }

  function Split(c: Cell): (r: seq<Cell>)
    ensures |r| == 8
  {
    var h := c.size / 2;
    var q := c.pos;
    [Cell(Pos(q.x, q.y, q.z), h), Cell(Pos(q.x + h, q.y, q.z), h),
     Cell(Pos(q.x, q.y, q.z + h), h), Cell(Pos(q.x + h, q.y, q.z + h), h),
     Cell(Pos(q.x, q.y + h, q.z), h), Cell(Pos(q.x + h, q.y + h, q.z), h),
     Cell(Pos(q.x, q.y + h, q.z + h), h), Cell(Pos(q.x + h, q.y + h, q.z + h), h)]
  }

  // ----- results -----

  function TreeResult(p: Params, c: Cell): Result {
    var shift := if p.each then 0 else p.cellPow;
    Result(c.pos, ShiftRight(c.size, shift), RangeToStep(c.size) - shift)
  }

  /** A cell whose side is a power of two, and no smaller than a mesh cell. */
  ghost predicate Regular(p: Params, c: Cell, k: nat) {
    k >= p.cellPow && c.size == Pow2(k)
  }

  ghost predicate AllRegular(p: Params, cells: seq<Cell>, k: nat) {
    |cells| == 8 && forall i :: 0 <= i < 8 ==> Regular(p, cells[i], k)
  }

  lemma SplitRegular(p: Params, c: Cell, k: nat)
    requires Regular(p, c, k) && !IsTreeCell(p, c)
    ensures k > p.cellPow && AllRegular(p, Split(c), k - 1)
    ensures c.size / 2 == Pow2(k - 1) && c.size == 2 * Pow2(k - 1)
  {
    Pow2Monotone(k, p.cellPow);
  }

  /** The side of the stored blocks of a mesh cell. */
  function StorageSize(p: Params, c: Cell): (s: nat) {
    ShiftRight(c.size, p.cellPow)
  }

  lemma StorageOfRegular(p: Params, c: Cell, k: nat)
    requires Regular(p, c, k)
    ensures StorageSize(p, c) == Pow2(k - p.cellPow) && c.size == Pow2(p.cellPow) * StorageSize(p, c)
  {
    ShiftPow2(k, p.cellPow);
    Pow2Sum(p.cellPow, k - p.cellPow);
  }

  /** The stored block of `c` at offset (x, y, z), counted in blocks. */
  function Block(p: Params, c: Cell, x: int, y: int, z: int): Cell {
    var s := StorageSize(p, c);
    Cell(Pos(c.pos.x + x * s, c.pos.y + y * s, c.pos.z + z * s), s)
  }

  /** The result for the position `b` inside the mesh cell `c`. */
  function FindResult(p: Params, c: Cell, b: Pos): Result
    requires StorageSize(p, c) > 0
  {
    if !p.each then TreeResult(p, c) else
    var s := StorageSize(p, c);
    TreeResult(p, Block(p, c, (b.x - c.pos.x) / s, (b.y - c.pos.y) / s, (b.z - c.pos.z) / s))
  }

  // ----- looking a position up -----

  function Find(p: Params, c: Cell, b: Pos, ghost k: nat): (r: Option<Result>)
    requires Regular(p, c, k)
    decreases k, 10
  {
    if !c.Contains(b) then None
    else if IsTreeCell(p, c) then
      StorageOfRegular(p, c, k);
      Some(FindResult(p, c, b))
    else
      SplitRegular(p, c, k);
      FindIn(p, Split(c), 0, b, k - 1)
  }

  /** The first hit among the cells from the `i`-th on. */
  function FindIn(p: Params, cells: seq<Cell>, i: nat, b: Pos, ghost k: nat): (r: Option<Result>)
    requires AllRegular(p, cells, k) && i <= 8
    decreases k, 20 - i
  {
    if i == 8 then None else
    var hit := Find(p, cells[i], b, k);
    if hit.Some? then hit else FindIn(p, cells, i + 1, b, k)
  }

  // ----- enumerating the cells -----

  /** The mesh cells of the tree below `c`, in traversal order. */
  ghost function MeshCells(p: Params, c: Cell, k: nat): (r: seq<Cell>)
    requires Regular(p, c, k)
    decreases k, 10
  {
    if IsTreeCell(p, c) then [c] else
    SplitRegular(p, c, k);
    MeshCellsIn(p, Split(c), 0, k - 1)
  }

  ghost function MeshCellsIn(p: Params, cells: seq<Cell>, i: nat, k: nat): (r: seq<Cell>)
    requires AllRegular(p, cells, k) && i <= 8
    decreases k, 20 - i
  {
    if i >= Children(p) then [] else MeshCells(p, cells[i], k) + MeshCellsIn(p, cells, i + 1, k)
  }

  /** The blocks of row (y, z) from column `x` on, and so outwards. */
  ghost function BlocksX(p: Params, c: Cell, y: nat, z: nat, x: nat): (r: seq<Cell>)
    requires x <= Pow2(p.cellPow)
    decreases Pow2(p.cellPow) - x
  {
    if x == Pow2(p.cellPow) then [] else [Block(p, c, x, y, z)] + BlocksX(p, c, y, z, x + 1)
  }

  ghost function BlocksZ(p: Params, c: Cell, y: nat, z: nat): (r: seq<Cell>)
    requires z <= Pow2(p.cellPow)
    decreases Pow2(p.cellPow) - z
  {
    if z == Pow2(p.cellPow) then [] else BlocksX(p, c, y, z, 0) + BlocksZ(p, c, y, z + 1)
  }

  ghost function LayersOf(p: Params): (n: nat)
    ensures 0 < n <= Pow2(p.cellPow)
  {
    if p.flat then 1 else Pow2(p.cellPow)
  }

  ghost function BlocksY(p: Params, c: Cell, y: nat): (r: seq<Cell>)
    requires y <= LayersOf(p)
    decreases LayersOf(p) - y
  {
    if y == LayersOf(p) then [] else BlocksZ(p, c, y, 0) + BlocksY(p, c, y + 1)
  }

  /** What one mesh cell contributes: itself, or all its stored blocks. */
  ghost function Emitted(p: Params, c: Cell): (r: seq<Cell>) {
    if p.each then BlocksY(p, c, 0) else [c]
  }

  /** All cells reported of the given mesh cells, in order. */
  ghost function Reported(p: Params, cells: seq<Cell>): (r: seq<Cell>) {
    if cells == [] then [] else Emitted(p, cells[0]) + Reported(p, cells[1..])
  }

  // ----- the cells partition the start cube -----

  /** How many of the cells contain `b`. */
  ghost function Count(cells: seq<Cell>, b: Pos): (n: nat) {
    if cells == [] then 0 else (if cells[0].Contains(b) then 1 else 0) + Count(cells[1..], b)
  }

  lemma {:induction false} CountConcat(s: seq<Cell>, t: seq<Cell>, b: Pos)
    ensures Count(s + t, b) == Count(s, b) + Count(t, b)
  {
    if s == [] {
      assert s + t == t;
    } else {
      CountConcat(s[1..], t, b);
      assert (s + t)[1..] == s[1..] + t;
    }
  }

  /** In a flat traversal only the lowest layer of the cell is looked at. */
  ghost predicate InView(p: Params, c: Cell, b: Pos) {
    p.flat ==> b.y == c.pos.y
  }

  /** The number of the child in whose octant `b` lies. */
  ghost function Octant(c: Cell, b: Pos): (o: nat)
    ensures o < 8 && (b.y < c.pos.y + c.size / 2 ==> o < 4)
  {
    (if b.x < c.pos.x + c.size / 2 then 0 else 1) +
    (if b.z < c.pos.z + c.size / 2 then 0 else 2) +
    (if b.y < c.pos.y + c.size / 2 then 0 else 4)
  }

  /** The children partition the cell: only the one of the position's octant can contain it. */
  lemma SplitPartitions(c: Cell, h: nat, b: Pos, j: nat)
    requires c.size == 2 * h && j < 8
    ensures Split(c)[j].Contains(b) <==> c.Contains(b) && j == Octant(c, b)
    ensures j < 4 ==> Split(c)[j].pos.y == c.pos.y
  {
    if j == 0 {} else if j == 1 {} else if j == 2 {} else if j == 3 {} else if j == 4 {} else if j == 5 {} else if j == 6 {} else {}
  }

  ghost function Children(p: Params): nat {
    if p.flat then 4 else 8
  }

  /** Every position of the cube lies in exactly one mesh cell, and no other position in any. */
  lemma {:induction false} MeshCellsPartition(p: Params, c: Cell, k: nat, b: Pos)
    requires Regular(p, c, k) && InView(p, c, b)
    ensures Count(MeshCells(p, c, k), b) == if c.Contains(b) then 1 else 0
    decreases k, 10
  {
    if IsTreeCell(p, c) {
      assert MeshCells(p, c, k) == [c] && [c][1..] == [];
    } else {
      SplitRegular(p, c, k);
      hide IsTreeCell, Split, Octant;
      var o := if c.Contains(b) then Octant(c, b) else 8;
      forall j | 0 <= j < 8
        ensures Split(c)[j].Contains(b) <==> j == o
        ensures j < 4 ==> Split(c)[j].pos.y == c.pos.y
      {
        SplitPartitions(c, c.size / 2, b, j);
      }
      MeshCellsInCount(p, Split(c), 0, k - 1, b, o);
    }
  }

  lemma {:induction false} MeshCellsInCount(p: Params, cells: seq<Cell>, i: nat, k: nat, b: Pos, o: nat)
    requires AllRegular(p, cells, k) && i <= Children(p)
    requires forall j :: 0 <= j < Children(p) ==> InView(p, cells[j], b)
    requires forall j :: 0 <= j < 8 ==> (cells[j].Contains(b) <==> j == o)
    ensures Count(MeshCellsIn(p, cells, i, k), b) == if i <= o < Children(p) then 1 else 0
    decreases k, 20 - i
  {
    if i < Children(p) {
      MeshCellsPartition(p, cells[i], k, b);
      MeshCellsInCount(p, cells, i + 1, k, b, o);
      CountConcat(MeshCells(p, cells[i], k), MeshCellsIn(p, cells, i + 1, k), b);
    }
  }

  // ----- what is known of each mesh cell -----

  /** `d` is one half, in each direction, of the cell `c`. */
  ghost predicate IsHalfOf(d: Cell, c: Cell) {
    && c.size == 2 * d.size
    && (d.pos.x == c.pos.x || d.pos.x == c.pos.x + d.size)
    && (d.pos.y == c.pos.y || d.pos.y == c.pos.y + d.size)
    && (d.pos.z == c.pos.z || d.pos.z == c.pos.z + d.size)
  }

  /** A whole cell of side 2^j whose parent, unless it is the root, was split. */
  ghost predicate Leaf(p: Params, root: Cell, d: Cell, j: nat) {
    && Regular(p, d, j) && IsTreeCell(p, d)
    && (p.flat ==> d.pos.y == root.pos.y)
    && (d == root || exists c :: IsHalfOf(d, c) && !IsTreeCell(p, c))
  }

  ghost predicate IsLeaf(p: Params, root: Cell, d: Cell) {
    exists j: nat :: Leaf(p, root, d, j)
  }

  lemma {:induction false} MeshCellIsLeaf(p: Params, c: Cell, k: nat, i: nat) returns (j: nat)
    requires Regular(p, c, k) && i < |MeshCells(p, c, k)|
    ensures j <= k && Leaf(p, c, MeshCells(p, c, k)[i], j)
    decreases k, 10
  {
    if IsTreeCell(p, c) {
      j := k;
    } else {
      SplitRegular(p, c, k);
      ChildrenAreHalves(p, c);
      j := MeshCellInIsLeaf(p, c, Split(c), 0, k - 1, i);
    }
  }

  lemma ChildrenAreHalves(p: Params, c: Cell)
    requires c.size == 2 * (c.size / 2)
    ensures forall i :: 0 <= i < 8 ==> IsHalfOf(Split(c)[i], c)
    ensures forall i :: 0 <= i < Children(p) && p.flat ==> Split(c)[i].pos.y == c.pos.y
  {
  }

  lemma {:induction false} MeshCellInIsLeaf(p: Params, parent: Cell, cells: seq<Cell>, i: nat, k: nat, m: nat) returns (j: nat)
    requires AllRegular(p, cells, k) && i <= 8
    requires !IsTreeCell(p, parent) && forall l :: 0 <= l < 8 ==> IsHalfOf(cells[l], parent)
    requires forall l :: 0 <= l < Children(p) && p.flat ==> cells[l].pos.y == parent.pos.y
    requires m < |MeshCellsIn(p, cells, i, k)|
    ensures j <= k && Leaf(p, parent, MeshCellsIn(p, cells, i, k)[m], j)
    decreases k, 20 - i
  {
    var own := MeshCells(p, cells[i], k);
    if m < |own| {
      j := MeshCellIsLeaf(p, cells[i], k, m);
    } else {
      j := MeshCellInIsLeaf(p, parent, cells, i + 1, k, m - |own|);
    }
  }

  // ----- the stored blocks partition their mesh cell -----

  /** `b` lies in the bands from the `i`-th up to the `n`-th, of width `s` each, that start at `from`. */
  ghost predicate InBands(from: int, s: nat, i: nat, n: nat, b: int) {
    from + i * s <= b < from + n * s
  }

  lemma NextBand(from: int, s: nat, i: nat, n: nat, b: int)
    requires i < n
    ensures InBands(from, s, i, n, b) <==> InBands(from, s, i, i + 1, b) || InBands(from, s, i + 1, n, b)
    ensures !(InBands(from, s, i, i + 1, b) && InBands(from, s, i + 1, n, b))
  {
    assert (i + 1) * s == i * s + s;
    assert (i + 1) * s <= n * s;
  }

  lemma BlockContains(p: Params, c: Cell, x: nat, y: nat, z: nat, b: Pos)
    ensures var s := StorageSize(p, c);
            Block(p, c, x, y, z).Contains(b) <==>
              InBands(c.pos.x, s, x, x + 1, b.x) && InBands(c.pos.y, s, y, y + 1, b.y) && InBands(c.pos.z, s, z, z + 1, b.z)
  {
    var s := StorageSize(p, c);
    assert (x + 1) * s == x * s + s && (y + 1) * s == y * s + s && (z + 1) * s == z * s + s;
  }

  lemma {:induction false} BlocksXCount(p: Params, c: Cell, y: nat, z: nat, x: nat, b: Pos)
    requires x <= Pow2(p.cellPow)
    ensures var s := StorageSize(p, c);
            Count(BlocksX(p, c, y, z, x), b) ==
            if InBands(c.pos.x, s, x, Pow2(p.cellPow), b.x) && InBands(c.pos.y, s, y, y + 1, b.y) &&
               InBands(c.pos.z, s, z, z + 1, b.z) then 1 else 0
    decreases Pow2(p.cellPow) - x
  {
    var s := StorageSize(p, c);
    if x < Pow2(p.cellPow) {
      BlocksXCount(p, c, y, z, x + 1, b);
      NextBand(c.pos.x, s, x, Pow2(p.cellPow), b.x);
      BlockContains(p, c, x, y, z, b);
      hide InBands, Block, StorageSize;
      assert BlocksX(p, c, y, z, x)[1..] == BlocksX(p, c, y, z, x + 1);
    }
  }

  lemma {:induction false} BlocksZCount(p: Params, c: Cell, y: nat, z: nat, b: Pos)
    requires z <= Pow2(p.cellPow)
    ensures var s := StorageSize(p, c);
            Count(BlocksZ(p, c, y, z), b) ==
            if InBands(c.pos.x, s, 0, Pow2(p.cellPow), b.x) && InBands(c.pos.y, s, y, y + 1, b.y) &&
               InBands(c.pos.z, s, z, Pow2(p.cellPow), b.z) then 1 else 0
    decreases Pow2(p.cellPow) - z
  {
    var s := StorageSize(p, c);
    if z < Pow2(p.cellPow) {
      BlocksZCount(p, c, y, z + 1, b);
      NextBand(c.pos.z, s, z, Pow2(p.cellPow), b.z);
      BlocksXCount(p, c, y, z, 0, b);
      CountConcat(BlocksX(p, c, y, z, 0), BlocksZ(p, c, y, z + 1), b);
      hide InBands, StorageSize;
    }
  }

  lemma {:induction false} BlocksYCount(p: Params, c: Cell, y: nat, b: Pos)
    requires y <= LayersOf(p)
    ensures var s := StorageSize(p, c);
            Count(BlocksY(p, c, y), b) ==
            if InBands(c.pos.x, s, 0, Pow2(p.cellPow), b.x) && InBands(c.pos.y, s, y, LayersOf(p), b.y) &&
               InBands(c.pos.z, s, 0, Pow2(p.cellPow), b.z) then 1 else 0
    decreases LayersOf(p) - y
  {
    var s := StorageSize(p, c);
    if y < LayersOf(p) {
      BlocksYCount(p, c, y + 1, b);
      NextBand(c.pos.y, s, y, LayersOf(p), b.y);
      BlocksZCount(p, c, y, 0, b);
      CountConcat(BlocksZ(p, c, y, 0), BlocksY(p, c, y + 1), b);
      hide InBands, StorageSize;
    }
  }

  /** What a mesh cell contributes covers each of its positions once, and no others. */
  lemma EmittedPartition(p: Params, c: Cell, k: nat, b: Pos)
    requires Regular(p, c, k) && InView(p, c, b)
    ensures Count(Emitted(p, c), b) == if c.Contains(b) then 1 else 0
  {
    if p.each {
      StorageOfRegular(p, c, k);
      BlocksYCount(p, c, 0, b);
    } else {
      assert [c][1..] == [];
    }
  }

  lemma {:induction false} ReportedCount(p: Params, root: Cell, cells: seq<Cell>, b: Pos)
    requires forall i :: 0 <= i < |cells| ==> IsLeaf(p, root, cells[i])
    requires InView(p, root, b)
    ensures Count(Reported(p, cells), b) == Count(cells, b)
  {
    if cells != [] {
      var j: nat :| Leaf(p, root, cells[0], j);
      EmittedPartition(p, cells[0], j, b);
      ReportedCount(p, root, cells[1..], b);
      CountConcat(Emitted(p, cells[0]), Reported(p, cells[1..]), b);
    }
  }

  /** All cells that the traversal from `c` reports, in order. */
  ghost function AllCells(p: Params, c: Cell, k: nat): (r: seq<Cell>)
    requires Regular(p, c, k)
  {
    Reported(p, MeshCells(p, c, k))
  }

  /** The reported cells partition the start cube (in a flat traversal, its lowest layer). */
  lemma CellsPartition(p: Params, c: Cell, k: nat, b: Pos)
    requires Regular(p, c, k) && InView(p, c, b)
    ensures Count(AllCells(p, c, k), b) == if c.Contains(b) then 1 else 0
  {
    forall i | 0 <= i < |MeshCells(p, c, k)|
      ensures IsLeaf(p, c, MeshCells(p, c, k)[i])
    {
      var j := MeshCellIsLeaf(p, c, k, i);
    }
    ReportedCount(p, c, MeshCells(p, c, k), b);
    MeshCellsPartition(p, c, k, b);
  }

  /** Exactly one of the cells contains a position that is counted once. */
  lemma {:induction false} CountedOnce(cells: seq<Cell>, b: Pos, i: nat, j: nat)
    requires i < |cells| && j < |cells| && cells[i].Contains(b) && cells[j].Contains(b)
    requires Count(cells, b) <= 1
    ensures i == j
  {
    if i == 0 && j > 0 {
      CountPositive(cells[1..], b, j - 1);
    } else if j == 0 && i > 0 {
      CountPositive(cells[1..], b, i - 1);
    } else if i > 0 {
      CountedOnce(cells[1..], b, i - 1, j - 1);
    }
  }

  lemma {:induction false} CountPositive(cells: seq<Cell>, b: Pos, i: nat)
    requires i < |cells| && cells[i].Contains(b)
    ensures Count(cells, b) > 0
  {
    if i > 0 {
      CountPositive(cells[1..], b, i - 1);
    }
  }

  // ----- a lookup finds the cell that the enumeration reports -----

  /** What a lookup of `b` in the mesh cell `c` selects: the cell itself or its stored block. */
  ghost function Selected(p: Params, c: Cell, b: Pos): Cell
    requires StorageSize(p, c) > 0
  {
    if !p.each then c else
    var s := StorageSize(p, c);
    Block(p, c, (b.x - c.pos.x) / s, (b.y - c.pos.y) / s, (b.z - c.pos.z) / s)
  }

  lemma DivBand(from: int, s: nat, n: nat, b: int)
    requires s > 0 && from <= b < from + n * s
    ensures var i := (b - from) / s;
            0 <= i < n && InBands(from, s, i, i + 1, b)
  {
    var d := b - from;
    var i := d / s;
    assert d == i * s + d % s;
    assert (i + 1) * s == i * s + s;
    Arithmetic.ProductOrder(n, i, s);
  }

  /** The selected cell contains the position, and the mesh cell contributes it. */
  lemma SelectedIsEmitted(p: Params, c: Cell, k: nat, b: Pos)
    requires Regular(p, c, k) && c.Contains(b) && InView(p, c, b)
    ensures StorageSize(p, c) > 0
    ensures Selected(p, c, b).Contains(b) && Selected(p, c, b) in Emitted(p, c)
  {
    hide StorageSize, Pow2, InBands, BlocksY;
    StorageOfRegular(p, c, k);
    if p.each {
      var s, n := StorageSize(p, c), Pow2(p.cellPow);
      DivBand(c.pos.x, s, n, b.x);
      DivBand(c.pos.y, s, n, b.y);
      DivBand(c.pos.z, s, n, b.z);
      var x, y, z := (b.x - c.pos.x) / s, (b.y - c.pos.y) / s, (b.z - c.pos.z) / s;
      assert p.flat ==> y == 0;
      assert Selected(p, c, b) == Block(p, c, x, y, z) && Emitted(p, c) == BlocksY(p, c, 0);
      hide Selected, Emitted, Block;
      BlockContains(p, c, x, y, z, b);
      BlockIsListed(p, c, x, y, z);
    }
  }

  lemma BlockIsListed(p: Params, c: Cell, x: nat, y: nat, z: nat)
    requires x < Pow2(p.cellPow) && y < LayersOf(p) && z < Pow2(p.cellPow)
    ensures Block(p, c, x, y, z) in BlocksY(p, c, 0)
  {
    ListedInX(p, c, y, z, x, 0);
    ListedInZ(p, c, y, z, 0, Block(p, c, x, y, z));
    ListedInY(p, c, y, 0, Block(p, c, x, y, z));
  }

  lemma {:induction false} ListedInX(p: Params, c: Cell, y: nat, z: nat, x: nat, from: nat)
    requires from <= x < Pow2(p.cellPow)
    ensures Block(p, c, x, y, z) in BlocksX(p, c, y, z, from)
    decreases x - from
  {
    if from < x {
      ListedInX(p, c, y, z, x, from + 1);
    }
  }

  lemma {:induction false} ListedInZ(p: Params, c: Cell, y: nat, z: nat, from: nat, d: Cell)
    requires from <= z < Pow2(p.cellPow) && d in BlocksX(p, c, y, z, 0)
    ensures d in BlocksZ(p, c, y, from)
    decreases z - from
  {
    hide BlocksX, Block;
    if from < z {
      ListedInZ(p, c, y, z, from + 1, d);
    }
  }

  lemma {:induction false} ListedInY(p: Params, c: Cell, y: nat, from: nat, d: Cell)
    requires from <= y < LayersOf(p) && d in BlocksZ(p, c, y, 0)
    ensures d in BlocksY(p, c, from)
    decreases y - from
  {
    hide BlocksZ, BlocksX, Block;
    if from < y {
      ListedInY(p, c, y, from + 1, d);
    }
  }

  /** A lookup inside the cube succeeds, in the one mesh cell that contains the position. */
  lemma {:induction false} FindsMeshCell(p: Params, c: Cell, b: Pos, k: nat) returns (i: nat)
    requires Regular(p, c, k) && c.Contains(b) && InView(p, c, b)
    ensures i < |MeshCells(p, c, k)| && MeshCells(p, c, k)[i].Contains(b)
    ensures StorageSize(p, MeshCells(p, c, k)[i]) > 0
    ensures Find(p, c, b, k) == Some(FindResult(p, MeshCells(p, c, k)[i], b))
    decreases k, 10
  {
    if IsTreeCell(p, c) {
      StorageOfRegular(p, c, k);
      i := 0;
    } else {
      SplitRegular(p, c, k);
      hide IsTreeCell, Split, Octant;
      var o := Octant(c, b);
      forall j | 0 <= j < 8
        ensures Split(c)[j].Contains(b) <==> j == o
        ensures j < 4 ==> Split(c)[j].pos.y == c.pos.y
      {
        SplitPartitions(c, c.size / 2, b, j);
      }
      if p.flat { FlatOctant(c, b); }
      i := FindsInChildren(p, Split(c), 0, b, k - 1, o);
    }
  }

  lemma FlatOctant(c: Cell, b: Pos)
    requires b.y == c.pos.y && c.size > 1
    ensures Octant(c, b) < 4
  {
  }

  lemma {:induction false} FindsInChildren(p: Params, cells: seq<Cell>, i: nat, b: Pos, k: nat, o: nat) returns (m: nat)
    requires AllRegular(p, cells, k) && i <= o < Children(p)
    requires forall j :: 0 <= j < Children(p) ==> InView(p, cells[j], b)
    requires forall j :: 0 <= j < 8 ==> (cells[j].Contains(b) <==> j == o)
    ensures m < |MeshCellsIn(p, cells, i, k)| && MeshCellsIn(p, cells, i, k)[m].Contains(b)
    ensures StorageSize(p, MeshCellsIn(p, cells, i, k)[m]) > 0
    ensures FindIn(p, cells, i, b, k) == Some(FindResult(p, MeshCellsIn(p, cells, i, k)[m], b))
    decreases k, 20 - i
  {
    if i == o {
      m := FindsMeshCell(p, cells[i], b, k);
    } else {
      m := FindsInChildren(p, cells, i + 1, b, k, o);
      m := m + |MeshCells(p, cells[i], k)|;
    }
  }

  lemma {:induction false} EmittedIsReported(p: Params, cells: seq<Cell>, i: nat, d: Cell)
    requires i < |cells| && d in Emitted(p, cells[i])
    ensures d in Reported(p, cells)
  {
    if i > 0 {
      EmittedIsReported(p, cells[1..], i - 1, d);
    }
  }

  /** A lookup succeeds exactly inside the start cube, and then returns the result of the one
      reported cell that contains the position. */
  lemma FindAgreesWithCells(p: Params, c: Cell, b: Pos, k: nat)
    requires Regular(p, c, k) && InView(p, c, b)
    ensures Find(p, c, b, k).Some? <==> c.Contains(b)
    ensures forall i :: 0 <= i < |AllCells(p, c, k)| && AllCells(p, c, k)[i].Contains(b) ==>
              Find(p, c, b, k) == Some(TreeResult(p, AllCells(p, c, k)[i]))
    ensures c.Contains(b) ==> exists i :: 0 <= i < |AllCells(p, c, k)| && AllCells(p, c, k)[i].Contains(b)
  {
    hide Find, FindResult, TreeResult, Selected, Emitted, Reported, MeshCells, IsTreeCell, Count, StorageSize, ShiftRight, Pow2, c.Contains;
    var all := AllCells(p, c, k);
    CellsPartition(p, c, k, b);
    if c.Contains(b) {
      var m := FindsMeshCell(p, c, b, k);
      var mesh := MeshCells(p, c, k)[m];
      var j := MeshCellIsLeaf(p, c, k, m);
      SelectedIsEmitted(p, mesh, j, b);
      EmittedIsReported(p, MeshCells(p, c, k), m, Selected(p, mesh, b));
      var s :| 0 <= s < |all| && all[s] == Selected(p, mesh, b);
      forall i | 0 <= i < |all| && all[i].Contains(b)
        ensures i == s
      {
        CountedOnce(all, b, i, s);
      }
      SelectedIsFound(p, mesh, b);
    } else {
      forall i | 0 <= i < |all|
        ensures !all[i].Contains(b)
      {
        if all[i].Contains(b) { CountPositive(all, b, i); }
      }
      FindsNothing(p, c, b, k);
    }
  }

  lemma SelectedIsFound(p: Params, c: Cell, b: Pos)
    requires StorageSize(p, c) > 0
    ensures FindResult(p, c, b) == TreeResult(p, Selected(p, c, b))
  {
  }

  lemma FindsNothing(p: Params, c: Cell, b: Pos, k: nat)
    requires Regular(p, c, k) && !c.Contains(b)
    ensures Find(p, c, b, k) == None
  {
  }

  // ----- the traversal with its callback -----

  /** What a callback that may stop the traversal sees of a list of results: they are appended to
      its log one by one until it asks to stop. */
  ghost function Visit(stops: seq<Result> -> bool, log: seq<Result>, list: seq<Result>): (r: (seq<Result>, bool))
    decreases |list|
  {
    if list == [] then (log, false)
    else if stops(log + [list[0]]) then (log + [list[0]], true)
    else Visit(stops, log + [list[0]], list[1..])
  }

  lemma {:induction false} VisitConcat(stops: seq<Result> -> bool, log: seq<Result>, s: seq<Result>, t: seq<Result>)
    ensures var v := Visit(stops, log, s);
            Visit(stops, log, s + t) == if v.1 then v else Visit(stops, v.0, t)
    decreases |s|
  {
    if s == [] {
      assert s + t == t;
    } else {
      VisitConcat(stops, log + [s[0]], s[1..], t);
      assert (s + t)[1..] == s[1..] + t;
    }
  }

  /** A callback that never stops sees the whole list. */
  lemma {:induction false} VisitAll(stops: seq<Result> -> bool, log: seq<Result>, list: seq<Result>)
    requires forall l :: !stops(l)
    ensures Visit(stops, log, list) == (log + list, false)
    decreases |list|
  {
    if list == [] {
      assert log + list == log;
    } else {
      assert log + [list[0]] + list[1..] == log + list;
      VisitAll(stops, log + [list[0]], list[1..]);
    }
  }

  ghost function Results(p: Params, cells: seq<Cell>): (r: seq<Result>)
    ensures |r| == |cells| && forall i :: 0 <= i < |cells| ==> r[i] == TreeResult(p, cells[i])
  {
    seq(|cells|, i requires 0 <= i < |cells| => TreeResult(p, cells[i]))
  }

  lemma ResultsConcat(p: Params, s: seq<Cell>, t: seq<Cell>)
    ensures Results(p, s + t) == Results(p, s) + Results(p, t)
  {
  }

  lemma {:induction false} ReportedConcat(p: Params, s: seq<Cell>, t: seq<Cell>)
    ensures Reported(p, s + t) == Reported(p, s) + Reported(p, t)
  {
    if s == [] {
      assert s + t == t;
    } else {
      ReportedConcat(p, s[1..], t);
      assert (s + t)[1..] == s[1..] + t && (s + t)[0] == s[0];
      assert Emitted(p, s[0]) + (Reported(p, s[1..]) + Reported(p, t)) == Emitted(p, s[0]) + Reported(p, s[1..]) + Reported(p, t);
    }
  }

  class Visitor {
    const stops: seq<Result> -> bool
    var log: seq<Result>

    constructor (stops: seq<Result> -> bool)
      ensures this.stops == stops && log == []
    {
      this.stops := stops;
      log := [];
    }

    method Call(r: Result) returns (stop: bool)
      modifies this
      ensures log == old(log) + [r] && stop == stops(log)
    {
      log := log + [r];
      stop := stops(log);
    }

    ghost function Rest(p: Params, cells: seq<Cell>): (r: (seq<Result>, bool))
      reads this
    {
      Visit(stops, log, Results(p, cells))
    }

    /** Reports one mesh cell, or its stored blocks layer by layer and row by row. */
    method EmitTreeCell(p: Params, c: Cell) returns (stop: bool)
      modifies this
      ensures (log, stop) == old(Rest(p, Emitted(p, c)))
    {
      if !p.each {
        VisitStep(p, stops, log, c, []);
        assert [c] + [] == [c];
        stop := Call(TreeResult(p, c));
        return;
      }
      hide Visit, Results, BlocksX, BlocksY, BlocksZ;
      for y := 0 to if p.flat then 1 else Pow2(p.cellPow)
        invariant old(Rest(p, BlocksY(p, c, 0))) == Rest(p, BlocksY(p, c, y))
      {
        NextLayer(p, c, y);
        RestConcat(p, stops, log, BlocksZ(p, c, y, 0), BlocksY(p, c, y + 1));
        stop := EmitLayer(p, c, y);
        if stop {
          return;
        }
      }
      VisitNone(p, stops, log);
      stop := false;
    }

    method EmitLayer(p: Params, c: Cell, y: nat) returns (stop: bool)
      modifies this
      ensures (log, stop) == old(Rest(p, BlocksZ(p, c, y, 0)))
    {
      var n := Pow2(p.cellPow);
      for z := 0 to n
        invariant old(Rest(p, BlocksZ(p, c, y, 0))) == Rest(p, BlocksZ(p, c, y, z))
      {
        hide Visit, Results, Block;
        RestConcat(p, stops, log, BlocksX(p, c, y, z, 0), BlocksZ(p, c, y, z + 1));
        stop := EmitRow(p, c, y, z);
        if stop {
          return;
        }
      }
      VisitNone(p, stops, log);
      stop := false;
    }

    method EmitRow(p: Params, c: Cell, y: nat, z: nat) returns (stop: bool)
      modifies this
      ensures (log, stop) == old(Rest(p, BlocksX(p, c, y, z, 0)))
    {
      var n := Pow2(p.cellPow);
      for x := 0 to n
        invariant old(Rest(p, BlocksX(p, c, y, z, 0))) == Rest(p, BlocksX(p, c, y, z, x))
      {
        hide Visit, Results, Block;
        VisitStep(p, stops, log, Block(p, c, x, y, z), BlocksX(p, c, y, z, x + 1));
        stop := Call(TreeResult(p, Block(p, c, x, y, z)));
        if stop {
          return;
        }
      }
      VisitNone(p, stops, log);
      stop := false;
    }

    /** Traverses the tree below `c` until the callback asks to stop. */
    method Each(p: Params, c: Cell, ghost k: nat) returns (stop: bool)
      requires Regular(p, c, k)
      modifies this
      ensures (log, stop) == old(Rest(p, AllCells(p, c, k)))
      decreases k, 0
    {
      CellsBelow(p, c, k);
      if IsTreeCell(p, c) {
        hide *;
        stop := EmitTreeCell(p, c);
        return;
      }
      hide *;
      stop := EachOf(p, Split(c), k - 1);
    }

    method EachOf(p: Params, children: seq<Cell>, ghost k: nat) returns (stop: bool)
      requires AllRegular(p, children, k)
      modifies this
      ensures (log, stop) == old(Rest(p, Reported(p, MeshCellsIn(p, children, 0, k))))
      decreases k, 1
    {
      var count := if p.flat then 4 else 8;
      for i := 0 to count
        invariant old(Rest(p, Reported(p, MeshCellsIn(p, children, 0, k)))) == Rest(p, Reported(p, MeshCellsIn(p, children, i, k)))
      {
        hide Visit, Results, Reported, MeshCells, MeshCellsIn, AllCells, Regular;
        NextChild(p, children, i, k);
        RestConcat(p, stops, log, AllCells(p, children[i], k), Reported(p, MeshCellsIn(p, children, i + 1, k)));
        stop := Each(p, children[i], k);
        if stop {
          return;
        }
      }
      VisitNone(p, stops, log);
      stop := false;
    }
  }

  lemma CellsBelow(p: Params, c: Cell, k: nat)
    requires Regular(p, c, k)
    ensures IsTreeCell(p, c) ==> AllCells(p, c, k) == Emitted(p, c)
    ensures !IsTreeCell(p, c) ==>
              k > 0 && AllRegular(p, Split(c), k - 1) &&
              AllCells(p, c, k) == Reported(p, MeshCellsIn(p, Split(c), 0, k - 1))
  {
    if IsTreeCell(p, c) {
      assert Reported(p, [c]) == Emitted(p, c) + Reported(p, [c][1..]) == Emitted(p, c);
    } else {
      SplitRegular(p, c, k);
    }
  }

  lemma NextLayer(p: Params, c: Cell, y: nat)
    requires y < LayersOf(p)
    ensures BlocksY(p, c, y) == BlocksZ(p, c, y, 0) + BlocksY(p, c, y + 1)
    ensures BlocksY(p, c, LayersOf(p)) == []
  {
  }

  lemma NextChild(p: Params, cells: seq<Cell>, i: nat, k: nat)
    requires AllRegular(p, cells, k) && i < Children(p)
    ensures Reported(p, MeshCellsIn(p, cells, i, k)) == AllCells(p, cells[i], k) + Reported(p, MeshCellsIn(p, cells, i + 1, k))
    ensures Reported(p, MeshCellsIn(p, cells, Children(p), k)) == []
  {
    ReportedConcat(p, MeshCells(p, cells[i], k), MeshCellsIn(p, cells, i + 1, k));
  }

  lemma VisitStep(p: Params, stops: seq<Result> -> bool, log: seq<Result>, d: Cell, left: seq<Cell>)
    ensures var log' := log + [TreeResult(p, d)];
            Visit(stops, log, Results(p, [d] + left)) ==
            if stops(log') then (log', true) else Visit(stops, log', Results(p, left))
  {
    assert Results(p, [d] + left)[1..] == Results(p, left);
  }

  lemma VisitNone(p: Params, stops: seq<Result> -> bool, log: seq<Result>)
    ensures Visit(stops, log, Results(p, [])) == (log, false)
  {
  }

  lemma RestConcat(p: Params, stops: seq<Result> -> bool, log: seq<Result>, s: seq<Cell>, t: seq<Cell>)
    ensures var v := Visit(stops, log, Results(p, s));
            Visit(stops, log, Results(p, s + t)) == if v.1 then v else Visit(stops, v.0, Results(p, t))
  {
    ResultsConcat(p, s, t);
    VisitConcat(stops, log, Results(p, s), Results(p, t));
  }
}
