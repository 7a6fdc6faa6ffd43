/** Shaped recipes: the input items must be arranged like the recipe, anywhere in the grid. */
module Shaped {
  import Arithmetic
  import opened CraftItems

  /** A matrix of item names, row by row. */
  datatype Grid = Grid(names: seq<Name>, width: nat)

  datatype Box = Box(minX: int, maxX: int, minY: int, maxY: int) {
    predicate Contains(x: int, y: int) {
      minX <= x <= maxX && minY <= y <= maxY
    }

    function Shift(dx: int, dy: int): Box {
      Box(minX + dx, maxX + dx, minY + dy, maxY + dy)
    }
  }

  /** The name at a point of the infinite plane on which the grid lies; "" outside the grid. */
  ghost function Cell(g: Grid, x: int, y: int): Name {
    if 0 <= x < g.width && 0 <= y && y * g.width + x < |g.names| then
      assert y * g.width >= 0;
      g.names[y * g.width + x]
    else ""
  }

  // ----- what the recipe asks for -----

  /** Laid on the plane at distance (dx, dy), the recipe matches the input cell by cell. */
  ghost predicate MatchesAt(defs: ItemDefs, input: Grid, recipe: Grid, dx: int, dy: int) {
    forall x, y :: Matches(defs, Cell(input, x + dx, y + dy), Cell(recipe, x, y))
  }

  ghost predicate Arranged(defs: ItemDefs, input: Grid, recipe: Grid) {
    exists dx, dy :: MatchesAt(defs, input, recipe, dx, dy)
  }

  // ----- what the check compares -----

  ghost predicate ColumnUsed(g: Grid, x: int) {
    exists y :: Cell(g, x, y) != ""
  }

  ghost predicate RowUsed(g: Grid, y: int) {
    exists x :: Cell(g, x, y) != ""
  }

  /** `b` is the bounding rectangle of the items of `g`. */
  ghost predicate IsBox(g: Grid, b: Box) {
    && (forall x, y :: Cell(g, x, y) != "" ==> b.Contains(x, y))
    && ColumnUsed(g, b.minX) && ColumnUsed(g, b.maxX) && RowUsed(g, b.minY) && RowUsed(g, b.maxY)
  }

  predicate SameSize(b: Box, c: Box) {
    b.maxX - b.minX == c.maxX - c.minX && b.maxY - b.minY == c.maxY - c.minY
  }

  /** Inside the rectangle `br` of the recipe, each slot is matched by the input cell at the same
      place of the rectangle `bi`. */
  ghost predicate MatchInside(defs: ItemDefs, input: Grid, recipe: Grid, bi: Box, br: Box) {
    forall x, y :: br.Contains(x, y) ==>
      Matches(defs, Cell(input, x + (bi.minX - br.minX), y + (bi.minY - br.minY)), Cell(recipe, x, y))
  }

  ghost predicate BoxesMatch(defs: ItemDefs, input: Grid, recipe: Grid, bi: Box, br: Box) {
    IsBox(input, bi) && IsBox(recipe, br) && SameSize(bi, br) && MatchInside(defs, input, recipe, bi, br)
  }

  ghost predicate SameShape(defs: ItemDefs, input: Grid, recipe: Grid) {
    exists bi, br :: BoxesMatch(defs, input, recipe, bi, br)
  }

  /** A slot that an empty stack does not match. */
  ghost predicate Rigid(defs: ItemDefs, slot: Name) {
    !Matches(defs, "", slot)
  }

  ghost predicate ColumnRigid(defs: ItemDefs, g: Grid, x: int) {
    exists y :: Rigid(defs, Cell(g, x, y))
  }

  ghost predicate RowRigid(defs: ItemDefs, g: Grid, y: int) {
    exists x :: Rigid(defs, Cell(g, x, y))
  }

  /** On every side of the recipe's bounding rectangle lies a slot that must not stay empty. */
  ghost predicate RigidSides(defs: ItemDefs, recipe: Grid) {
    exists b :: IsBox(recipe, b)
      && ColumnRigid(defs, recipe, b.minX) && ColumnRigid(defs, recipe, b.maxX)
      && RowRigid(defs, recipe, b.minY) && RowRigid(defs, recipe, b.maxY)
  }

  lemma BoxIsUnique(g: Grid, b: Box, c: Box)
    requires IsBox(g, b) && IsBox(g, c)
    ensures b == c
  {
  }

  lemma EmptySlotStaysEmpty(defs: ItemDefs)
    ensures forall name :: Matches(defs, name, "") <==> name == ""
  {
  }

  /** Whatever the check accepts is arranged like the recipe. */
  lemma SameShapeIsArranged(defs: ItemDefs, input: Grid, recipe: Grid)
    requires SameShape(defs, input, recipe)
    ensures Arranged(defs, input, recipe)
  {
    EmptySlotStaysEmpty(defs);
    hide Cell, Matches;
    var bi, br :| BoxesMatch(defs, input, recipe, bi, br);
    var dx, dy := bi.minX - br.minX, bi.minY - br.minY;
    forall x, y
      ensures Matches(defs, Cell(input, x + dx, y + dy), Cell(recipe, x, y))
    {
      if br.Contains(x, y) {
        assert Matches(defs, Cell(input, x + dx, y + dy), Cell(recipe, x, y));
      } else {
        assert Cell(recipe, x, y) == "" && Cell(input, x + dx, y + dy) == "";
      }
    }
    assert MatchesAt(defs, input, recipe, dx, dy);
  }

  lemma FilledSlot(defs: ItemDefs, input: Grid, recipe: Grid, dx: int, dy: int, x: int, y: int)
    requires MatchesAt(defs, input, recipe, dx, dy)
    ensures Cell(input, x, y) != "" ==> Cell(recipe, x - dx, y - dy) != ""
  {
    EmptySlotStaysEmpty(defs);
    hide Cell, Matches;
    assert Matches(defs, Cell(input, x - dx + dx, y - dy + dy), Cell(recipe, x - dx, y - dy));
    assert x - dx + dx == x && y - dy + dy == y;
  }

  lemma RigidColumnUsed(defs: ItemDefs, input: Grid, recipe: Grid, dx: int, dy: int, x: int)
    requires MatchesAt(defs, input, recipe, dx, dy) && ColumnRigid(defs, recipe, x)
    ensures ColumnUsed(input, x + dx)
  {
    hide Cell, Matches;
    var y :| Rigid(defs, Cell(recipe, x, y));
    assert Matches(defs, Cell(input, x + dx, y + dy), Cell(recipe, x, y));
  }

  lemma RigidRowUsed(defs: ItemDefs, input: Grid, recipe: Grid, dx: int, dy: int, y: int)
    requires MatchesAt(defs, input, recipe, dx, dy) && RowRigid(defs, recipe, y)
    ensures RowUsed(input, y + dy)
  {
    hide Cell, Matches;
    var x :| Rigid(defs, Cell(recipe, x, y));
    assert Matches(defs, Cell(input, x + dx, y + dy), Cell(recipe, x, y));
  }

  /** An arranged input is accepted when no side of the recipe may stay empty. */
  lemma ArrangedIsSameShape(defs: ItemDefs, input: Grid, recipe: Grid)
    requires RigidSides(defs, recipe) && Arranged(defs, input, recipe)
    ensures SameShape(defs, input, recipe)
  {
    hide Cell, Matches, ColumnUsed, RowUsed, ColumnRigid, RowRigid;
    var dx, dy :| MatchesAt(defs, input, recipe, dx, dy);
    var b :| IsBox(recipe, b)
      && ColumnRigid(defs, recipe, b.minX) && ColumnRigid(defs, recipe, b.maxX)
      && RowRigid(defs, recipe, b.minY) && RowRigid(defs, recipe, b.maxY);
    RigidColumnUsed(defs, input, recipe, dx, dy, b.minX);
    RigidColumnUsed(defs, input, recipe, dx, dy, b.maxX);
    RigidRowUsed(defs, input, recipe, dx, dy, b.minY);
    RigidRowUsed(defs, input, recipe, dx, dy, b.maxY);
    var bi := b.Shift(dx, dy);
    forall x, y | Cell(input, x, y) != ""
      ensures bi.Contains(x, y)
    {
      FilledSlot(defs, input, recipe, dx, dy, x, y);
    }
    forall x, y | b.Contains(x, y)
      ensures Matches(defs, Cell(input, x + (bi.minX - b.minX), y + (bi.minY - b.minY)), Cell(recipe, x, y))
    {
      assert Matches(defs, Cell(input, x + dx, y + dy), Cell(recipe, x, y));
    }
    assert BoxesMatch(defs, input, recipe, bi, b);
  }

  /** The recipe with every slot removed that an empty stack matches. */
  ghost function RigidPart(defs: ItemDefs, recipe: Grid): (g: Grid)
    ensures forall x, y :: Cell(g, x, y) == if Rigid(defs, Cell(recipe, x, y)) then Cell(recipe, x, y) else ""
  {
    var g := Grid(seq(|recipe.names|, i requires 0 <= i < |recipe.names| =>
                  if Rigid(defs, recipe.names[i]) then recipe.names[i] else ""), recipe.width);
    assert forall x, y :: Cell(g, x, y) == if Rigid(defs, Cell(recipe, x, y)) then Cell(recipe, x, y) else "";
    g
  }

  lemma RigidPartSides(defs: ItemDefs, recipe: Grid, z: int)
    ensures ColumnUsed(RigidPart(defs, recipe), z) ==> ColumnRigid(defs, recipe, z)
    ensures RowUsed(RigidPart(defs, recipe), z) ==> RowRigid(defs, recipe, z)
  {
    hide Cell, Rigid;
    var input := RigidPart(defs, recipe);
    if y :| Cell(input, z, y) != "" {
      assert Rigid(defs, Cell(recipe, z, y));
    }
    if x :| Cell(input, x, z) != "" {
      assert Rigid(defs, Cell(recipe, x, z));
    }
  }

  lemma RigidPartArranged(defs: ItemDefs, recipe: Grid)
    ensures Arranged(defs, RigidPart(defs, recipe), recipe)
  {
    assert forall name :: Matches(defs, name, name);
    hide Cell, Matches;
    assert MatchesAt(defs, RigidPart(defs, recipe), recipe, 0, 0);
  }

  /** When some side may stay empty, leaving it empty is arranged like the recipe but refused. */
  lemma SoftSideIsRefused(defs: ItemDefs, recipe: Grid)
    requires !RigidSides(defs, recipe)
    ensures Arranged(defs, RigidPart(defs, recipe), recipe) && !SameShape(defs, RigidPart(defs, recipe), recipe)
  {
    RigidPartArranged(defs, recipe);
    hide Cell, Matches, MatchInside, Arranged, ColumnUsed, RowUsed, ColumnRigid, RowRigid;
    var input := RigidPart(defs, recipe);
    if bi, br :| BoxesMatch(defs, input, recipe, bi, br) {
      assert forall x, y :: Cell(input, x, y) != "" ==> br.Contains(x, y);
      UsedSidesInside(input, bi, br);
      RigidPartSides(defs, recipe, br.minX);
      RigidPartSides(defs, recipe, br.maxX);
      RigidPartSides(defs, recipe, br.minY);
      RigidPartSides(defs, recipe, br.maxY);
    }
  }

  lemma UsedSidesInside(g: Grid, b: Box, c: Box)
    requires IsBox(g, b) && forall x, y :: Cell(g, x, y) != "" ==> c.Contains(x, y)
    ensures c.minX <= b.minX <= b.maxX <= c.maxX && c.minY <= b.minY <= b.maxY <= c.maxY
  {
    hide Cell;
  }

  /** The check agrees with the arrangement on all inputs exactly when no side of the recipe's
      bounding rectangle may stay empty. */
  lemma ShapeIsExact(defs: ItemDefs, recipe: Grid)
    ensures RigidSides(defs, recipe) <==>
              forall input: Grid :: SameShape(defs, input, recipe) <==> Arranged(defs, input, recipe)
  {
    if RigidSides(defs, recipe) {
      forall input: Grid
        ensures SameShape(defs, input, recipe) <==> Arranged(defs, input, recipe)
      {
        if SameShape(defs, input, recipe) { SameShapeIsArranged(defs, input, recipe); }
        if Arranged(defs, input, recipe) { ArrangedIsSameShape(defs, input, recipe); }
      }
    } else {
      SoftSideIsRefused(defs, recipe);
    }
  }

  // ----- the check -----

  lemma SameIndex(w: int, x: int, y: int, u: int, v: int)
    requires 0 <= x < w && 0 <= u < w && y * w + x == v * w + u
    ensures x == u && y == v
  {
    Arithmetic.DivisionUnique(y * w + x, y, w, x);
    Arithmetic.DivisionUnique(v * w + u, v, w, u);
  }

  /** Cell (x, y) of a grid of width `w` is the `i`-th name. */
  ghost predicate At(i: int, w: int, x: int, y: int) {
    0 <= x < w && 0 <= y && i == y * w + x
  }

  lemma NextColumn(i: nat, w: nat, x: int, y: int)
    requires At(i, w, x, y)
    ensures if x + 1 == w then At(i + 1, w, 0, y + 1) else At(i + 1, w, x + 1, y)
  {
  }

  ghost predicate SameCells(g: Grid, g': Grid) {
    forall x, y :: Cell(g', x, y) == Cell(g, x, y)
  }

  /** `g'` is `g` with the cell (x, y) set to `name`. */
  ghost predicate CellSet(g: Grid, g': Grid, x: int, y: int, name: Name) {
    forall u, v :: Cell(g', u, v) == if u == x && v == y then name else Cell(g, u, v)
  }

  /** Appending one name to the rows fills the next cell and leaves all others. */
  lemma AppendCell(names: seq<Name>, name: Name, w: nat, x: int, y: int)
    requires At(|names|, w, x, y)
    ensures CellSet(Grid(names, w), Grid(names + [name], w), x, y, name)
    ensures Cell(Grid(names, w), x, y) == ""
  {
    forall u, v
      ensures Cell(Grid(names + [name], w), u, v) == if u == x && v == y then name else Cell(Grid(names, w), u, v)
    {
      if 0 <= u < w && 0 <= v {
        assert v * w >= 0;
        if v * w + u == |names| {
          SameIndex(w, x, y, u, v);
        }
      }
    }
  }

  lemma PadStep(names: seq<Name>, w: nat)
    requires w > 0 && |names| % w != 0
    ensures SameCells(Grid(names, w), Grid(names + [""], w))
    ensures |names + [""]| % w == 0 || |names + [""]| % w == |names| % w + 1
  {
    var x, y := |names| % w, |names| / w;
    assert At(|names|, w, x, y);
    AppendCell(names, "", w, x, y);
    NextColumn(|names|, w, x, y);
    var m := |names| + 1;
    assert m == (m / w) * w + m % w;
    if x + 1 == w {
      assert m == (y + 1) * w + 0;
      SameIndex(w, m % w, m / w, 0, y + 1);
    } else {
      SameIndex(w, m % w, m / w, x + 1, y);
    }
  }

  /** Fills the last row up with empty names. */
  method Pad(names: seq<Name>, width: nat) returns (padded: seq<Name>)
    requires width > 0
    ensures |padded| % width == 0
    ensures SameCells(Grid(names, width), Grid(padded, width))
    ensures NonEmpty(padded) == NonEmpty(names)
  {
    hide Cell;
    padded := names;
    while |padded| % width != 0
      invariant SameCells(Grid(names, width), Grid(padded, width))
      invariant NonEmpty(padded) == NonEmpty(names)
      decreases if |padded| % width == 0 then 0 else width - |padded| % width
    {
      PadStep(padded, width);
      NonEmptyAppend(padded, "");
      padded := padded + [""];
    }
  }

  function Grow(b: Box, x: int, y: int): Box {
    Box(if x < b.minX then x else b.minX, if x > b.maxX then x else b.maxX,
        if y < b.minY then y else b.minY, if y > b.maxY then y else b.maxY)
  }

  /** How an item at (x, y) changes the bounding rectangle of the items seen so far. */
  ghost predicate BoundsSoFar(g: Grid, success: bool, b: Box) {
    if success then IsBox(g, b) else AllEmpty(g)
  }

  lemma SeeItem(g: Grid, g': Grid, x: int, y: int, name: Name, success: bool, b: Box)
    requires CellSet(g, g', x, y, name) && Cell(g, x, y) == "" && BoundsSoFar(g, success, b)
    ensures name == "" ==> BoundsSoFar(g', success, b)
    ensures name != "" ==> BoundsSoFar(g', true, if success then Grow(b, x, y) else Box(x, x, y, y))
  {
    hide Cell;
    if name == "" {
      if success { BoxKept(g, g', b, b); }
    } else {
      assert Cell(g', x, y) != "";
      if success { BoxKept(g, g', b, Grow(b, x, y)); }
    }
  }

  lemma BoxKept(g: Grid, g': Grid, b: Box, b': Box)
    requires forall x, y :: Cell(g, x, y) != "" ==> Cell(g', x, y) != ""
    requires IsBox(g, b)
    ensures ColumnUsed(g', b.minX) && ColumnUsed(g', b.maxX) && RowUsed(g', b.minY) && RowUsed(g', b.maxY)
  {
    hide Cell;
    var y0 :| Cell(g, b.minX, y0) != "";
    var y1 :| Cell(g, b.maxX, y1) != "";
    var x0 :| Cell(g, x0, b.minY) != "";
    var x1 :| Cell(g, x1, b.maxY) != "";
    assert Cell(g', b.minX, y0) != "" && Cell(g', b.maxX, y1) != "";
    assert Cell(g', x0, b.minY) != "" && Cell(g', x1, b.maxY) != "";
  }

  ghost predicate AllEmpty(g: Grid) {
    forall x, y :: Cell(g, x, y) == ""
  }

  /** Computes the bounding rectangle by stepping through the cells; false when there is no item. */
  method GetBounds(names: seq<Name>, width: nat) returns (success: bool, b: Box)
    requires width > 0
    ensures BoundsSoFar(Grid(names, width), success, b)
  {
    success := false;
    var x, y := 0, 0;
    b := Box(0, 0, 0, 0);
    hide At, BoundsSoFar, Cell;
    StartBounds(width);
    for i := 0 to |names|
      invariant At(i, width, x, y)
      invariant BoundsSoFar(Grid(names[..i], width), success, b)
    {
      AppendCell(names[..i], names[i], width, x, y);
      SeeItem(Grid(names[..i], width), Grid(names[..i] + [names[i]], width), x, y, names[i], success, b);
      NextColumn(i, width, x, y);
      assert names[..i + 1] == names[..i] + [names[i]];
      if names[i] != "" {
        if !success {
          b := Box(x, x, y, y);
          success := true;
        } else {
          b := Grow(b, x, y);
        }
      }
      x := x + 1;
      if x == width {
        x := 0;
        y := y + 1;
      }
    }
    assert names[..|names|] == names;
  }

  lemma StartBounds(width: nat)
    requires width > 0
    ensures At(0, width, 0, 0) && BoundsSoFar(Grid([], width), false, Box(0, 0, 0, 0))
  {
  }

  // ----- comparing the two rectangles -----

  lemma UsedCell(g: Grid, x: int, y: int)
    requires g.width > 0 && |g.names| % g.width == 0 && Cell(g, x, y) != ""
    ensures 0 <= x < g.width && 0 <= y < |g.names| / g.width
  {
    var rows := |g.names| / g.width;
    assert |g.names| == rows * g.width;
    LastRow(g.width, y, x, rows);
  }

  lemma StoredCell(g: Grid, x: int, y: int)
    requires g.width > 0 && 0 <= x < g.width && 0 <= y < |g.names| / g.width
    ensures 0 <= y * g.width + x < |g.names|
    ensures Cell(g, x, y) == g.names[y * g.width + x]
  {
    var rows := |g.names| / g.width;
    assert rows * g.width + |g.names| % g.width == |g.names|;
    Arithmetic.ProductOrder(y, rows, g.width);
    Arithmetic.ProductOrder(0, y, g.width);
  }

  /** Every cell of the bounding rectangle of a padded grid is stored. */
  lemma BoxIsStored(g: Grid, b: Box, x: int, y: int)
    requires g.width > 0 && |g.names| % g.width == 0
    requires IsBox(g, b) && b.Contains(x, y)
    ensures 0 <= y * g.width + x < |g.names|
    ensures Cell(g, x, y) == g.names[y * g.width + x]
  {
    BoxWithin(g, b);
    StoredCell(g, x, y);
  }

  lemma LastRow(w: int, y: int, x: int, rows: int)
    requires w > 0 && 0 <= x && y * w + x < rows * w
    ensures y < rows
  {
    Arithmetic.ProductOrder(rows, y, w);
  }

  lemma ShapeByBoxes(defs: ItemDefs, input: Grid, recipe: Grid, bi: Box, br: Box)
    requires IsBox(input, bi) && IsBox(recipe, br)
    ensures SameShape(defs, input, recipe) <==> SameSize(bi, br) && MatchInside(defs, input, recipe, bi, br)
  {
    hide Cell, Matches;
    if ci, cr :| BoxesMatch(defs, input, recipe, ci, cr) {
      BoxIsUnique(input, bi, ci);
      BoxIsUnique(recipe, br, cr);
    }
    if SameSize(bi, br) && MatchInside(defs, input, recipe, bi, br) {
      assert BoxesMatch(defs, input, recipe, bi, br);
    }
  }

  /** The check sees a grid only through its cells, so filling up the last row changes nothing. */
  lemma ShapeOfCells(defs: ItemDefs, input: Grid, input': Grid, recipe: Grid, recipe': Grid)
    requires SameCells(input, input') && SameCells(recipe, recipe')
    ensures SameShape(defs, input, recipe) ==> SameShape(defs, input', recipe')
    ensures AllEmpty(input) || AllEmpty(recipe) ==> !SameShape(defs, input', recipe')
  {
    hide Cell, Matches;
    if bi, br :| BoxesMatch(defs, input, recipe, bi, br) {
      BoxOfCells(input, input', bi);
      BoxOfCells(recipe, recipe', br);
      assert BoxesMatch(defs, input', recipe', bi, br);
    }
    if bi, br :| BoxesMatch(defs, input', recipe', bi, br) {
      BoxedCellsNotEmpty(input, input', bi);
      BoxedCellsNotEmpty(recipe, recipe', br);
    }
  }

  lemma BoxedCellsNotEmpty(g: Grid, g': Grid, b: Box)
    requires SameCells(g, g') && IsBox(g', b)
    ensures !AllEmpty(g)
  {
    var y :| Cell(g', b.minX, y) != "";
    assert Cell(g, b.minX, y) != "";
  }

  lemma BoxOfCells(g: Grid, g': Grid, b: Box)
    requires SameCells(g, g') && IsBox(g, b)
    ensures IsBox(g', b)
  {
    hide Cell;
    BoxKept(g, g', b, b);
  }

  /** The name at offset (x, y) inside the bounding rectangle. */
  method CellInBox(g: Grid, b: Box, x: int, y: int) returns (name: Name)
    requires g.width > 0 && |g.names| % g.width == 0 && IsBox(g, b)
    requires b.Contains(b.minX + x, b.minY + y)
    ensures name == Cell(g, b.minX + x, b.minY + y)
  {
    BoxIsStored(g, b, b.minX + x, b.minY + y);
    name := g.names[(b.minY + y) * g.width + (b.minX + x)];
  }

  /** Compares the two bounding rectangles cell by cell. */
  method Compare(defs: ItemDefs, input: Grid, bi: Box, recipe: Grid, br: Box) returns (ok: bool)
    requires input.width > 0 && |input.names| % input.width == 0 && IsBox(input, bi)
    requires recipe.width > 0 && |recipe.names| % recipe.width == 0 && IsBox(recipe, br)
    ensures ok <==> SameSize(bi, br) && MatchInside(defs, input, recipe, bi, br)
  {
    if bi.maxX - bi.minX != br.maxX - br.minX || bi.maxY - bi.minY != br.maxY - br.minY {
      return false;
    }
    var w, h := bi.maxX - bi.minX + 1, bi.maxY - bi.minY + 1;
    hide Cell, Matches, IsBox;
    BoxNotEmpty(input, bi);
    for y := 0 to h
      invariant forall u, v :: 0 <= u < w && 0 <= v < y ==> CellMatches(defs, input, recipe, bi, br, u, v)
    {
      for x := 0 to w
        invariant forall u :: 0 <= u < x ==> CellMatches(defs, input, recipe, bi, br, u, y)
      {
        var given := CellInBox(input, bi, x, y);
        var asked := CellInBox(recipe, br, x, y);
        if !Matches(defs, given, asked) {
          assert !CellMatches(defs, input, recipe, bi, br, x, y);
          InsideByOffset(defs, input, recipe, bi, br);
          return false;
        }
      }
    }
    InsideByOffset(defs, input, recipe, bi, br);
    return true;
  }

  ghost predicate CellMatches(defs: ItemDefs, input: Grid, recipe: Grid, bi: Box, br: Box, u: int, v: int) {
    Matches(defs, Cell(input, bi.minX + u, bi.minY + v), Cell(recipe, br.minX + u, br.minY + v))
  }

  lemma InsideByOffset(defs: ItemDefs, input: Grid, recipe: Grid, bi: Box, br: Box)
    ensures MatchInside(defs, input, recipe, bi, br) <==>
              forall u, v :: 0 <= u <= br.maxX - br.minX && 0 <= v <= br.maxY - br.minY ==>
                CellMatches(defs, input, recipe, bi, br, u, v)
  {
    hide Cell, Matches;
    if MatchInside(defs, input, recipe, bi, br) {
      forall u, v | 0 <= u <= br.maxX - br.minX && 0 <= v <= br.maxY - br.minY
        ensures CellMatches(defs, input, recipe, bi, br, u, v)
      {
        var x, y := br.minX + u, br.minY + v;
        assert Matches(defs, Cell(input, x + (bi.minX - br.minX), y + (bi.minY - br.minY)), Cell(recipe, x, y));
        assert x + (bi.minX - br.minX) == bi.minX + u && y + (bi.minY - br.minY) == bi.minY + v;
      }
    }
    if forall u, v :: 0 <= u <= br.maxX - br.minX && 0 <= v <= br.maxY - br.minY ==>
         CellMatches(defs, input, recipe, bi, br, u, v) {
      forall x, y | br.Contains(x, y)
        ensures Matches(defs, Cell(input, x + (bi.minX - br.minX), y + (bi.minY - br.minY)), Cell(recipe, x, y))
      {
        assert CellMatches(defs, input, recipe, bi, br, x - br.minX, y - br.minY);
        assert x + (bi.minX - br.minX) == bi.minX + (x - br.minX) && y + (bi.minY - br.minY) == bi.minY + (y - br.minY);
        assert br.minX + (x - br.minX) == x && br.minY + (y - br.minY) == y;
      }
    }
  }

  lemma BoxNotEmpty(g: Grid, b: Box)
    requires IsBox(g, b)
    ensures b.minX <= b.maxX && b.minY <= b.maxY
  {
    hide Cell;
  }

  /** Accepts exactly the inputs whose items fill a rectangle that matches the recipe's. */
  method Check(defs: ItemDefs, recipe: Grid, input: CraftInput) returns (ok: bool)
    ensures ok <==> && input.craft.Normal? && input.width > 0 && recipe.width > 0
                    && SameShape(defs, Grid(Names(input.items), input.width), recipe)
  {
    if !input.craft.Normal? || input.width == 0 {
      return false;
    }
    hide Cell, Matches, SameShape, SameCells, AllEmpty, IsBox, MatchInside;
    ghost var given := Grid(Names(input.items), input.width);
    var inputNames := Pad(Names(input.items), input.width);
    var padded := Grid(inputNames, input.width);
    var inputFound, bi := GetBounds(inputNames, input.width);
    CellsOf(given);
    CellsOf(recipe);
    CellsBack(given, padded);
    if !inputFound {
      ShapeOfCells(defs, padded, given, recipe, recipe);
      return false;
    }
    if recipe.width == 0 {
      return false;
    }
    var recipeNames := Pad(recipe.names, recipe.width);
    var paddedRecipe := Grid(recipeNames, recipe.width);
    var recipeFound, br := GetBounds(recipeNames, recipe.width);
    CellsBack(recipe, paddedRecipe);
    ShapeOfCells(defs, padded, given, paddedRecipe, recipe);
    if !recipeFound {
      return false;
    }
    ShapeOfCells(defs, given, padded, recipe, paddedRecipe);
    ShapeByBoxes(defs, padded, paddedRecipe, bi, br);
    ok := Compare(defs, padded, bi, paddedRecipe, br);
  }

  lemma CellsOf(g: Grid)
    ensures SameCells(g, g)
  {
  }

  lemma CellsBack(g: Grid, g': Grid)
    requires SameCells(g, g')
    ensures SameCells(g', g)
  {
    hide Cell;
  }

  // ----- the items of an accepted input, in reading order -----

  ghost function RowCells(g: Grid, minX: int, maxX: int, y: int): (r: seq<Name>)
    requires minX <= maxX + 1
    ensures |r| == maxX + 1 - minX && forall k :: 0 <= k < |r| ==> r[k] == Cell(g, minX + k, y)
  {
    seq(maxX + 1 - minX, k requires 0 <= k < maxX + 1 - minX => Cell(g, minX + k, y))
  }

  /** The items of the rows from `y` on, in reading order. */
  ghost function ItemsFrom(g: Grid, b: Box, y: int): (r: seq<Name>)
    requires b.minX <= b.maxX + 1
    decreases b.maxY + 1 - y
  {
    if y > b.maxY then [] else NonEmpty(RowCells(g, b.minX, b.maxX, y)) + ItemsFrom(g, b, y + 1)
  }

  /** A row holds no items outside the bounding rectangle. */
  lemma RowItems(g: Grid, b: Box, y: int)
    requires g.width > 0 && IsBox(g, b) && b.minX <= b.maxX && 0 <= b.minX && b.maxX < g.width
    ensures NonEmpty(RowCells(g, 0, g.width - 1, y)) ==
            if b.minY <= y <= b.maxY then NonEmpty(RowCells(g, b.minX, b.maxX, y)) else []
  {
    hide Cell, NonEmpty, ColumnUsed, RowUsed;
    var row := RowCells(g, 0, g.width - 1, y);
    if b.minY <= y <= b.maxY {
      var left, mid, right := RowCells(g, 0, b.minX - 1, y), RowCells(g, b.minX, b.maxX, y), RowCells(g, b.maxX + 1, g.width - 1, y);
      assert row == left + mid + right;
      AllBlank(left);
      AllBlank(right);
      NonEmptyConcat(left, mid);
      NonEmptyConcat(left + mid, right);
    } else {
      AllBlank(row);
    }
  }

  /** The names of the rows from `y` on. */
  ghost function RowsFrom(g: Grid, y: int): (r: seq<Name>)
    requires g.width > 0 && 0 <= y <= |g.names| / g.width
  {
    assert 0 <= y * g.width <= |g.names| by {
      assert y * g.width <= (|g.names| / g.width) * g.width;
    }
    g.names[y * g.width..]
  }

  lemma RowsEnds(g: Grid)
    requires g.width > 0 && |g.names| % g.width == 0
    ensures RowsFrom(g, 0) == g.names && RowsFrom(g, |g.names| / g.width) == []
  {
  }

  lemma StoredRow(g: Grid, y: int)
    requires g.width > 0 && 0 <= y < |g.names| / g.width
    ensures RowsFrom(g, y) == RowCells(g, 0, g.width - 1, y) + RowsFrom(g, y + 1)
  {
    var w := g.width;
    StoredCell(g, 0, y);
    StoredCell(g, w - 1, y);
    assert (y + 1) * w == y * w + w;
    forall k | 0 <= k < w
      ensures Cell(g, 0 + k, y) == g.names[y * w..][k]
    {
      StoredCell(g, k, y);
    }
  }

  /** The items of a padded grid, in reading order, are those of its bounding rectangle. */
  lemma {:induction false} ItemsInReadingOrder(g: Grid, b: Box, y: int)
    requires g.width > 0 && |g.names| % g.width == 0
    requires IsBox(g, b) && b.minX <= b.maxX && 0 <= b.minX && b.maxX < g.width
    requires b.maxY < |g.names| / g.width && 0 <= y <= |g.names| / g.width
    ensures NonEmpty(RowsFrom(g, y)) == ItemsFrom(g, b, if y < b.minY then b.minY else y)
    decreases |g.names| / g.width - y
  {
    BoxRows(g, b);
    hide IsBox, RowCells, Cell;
    if y < |g.names| / g.width {
      StoredRow(g, y);
      hide RowsFrom, ItemsFrom, NonEmpty;
      ItemsInReadingOrder(g, b, y + 1);
      RowItems(g, b, y);
      NonEmptyConcat(RowCells(g, 0, g.width - 1, y), RowsFrom(g, y + 1));
      ItemsStep(g, b, y);
    } else {
      RowsEnds(g);
    }
  }

  lemma BoxRows(g: Grid, b: Box)
    requires IsBox(g, b)
    ensures b.minY <= b.maxY
  {
  }

  lemma ItemsStep(g: Grid, b: Box, y: int)
    requires b.minX <= b.maxX + 1 && b.minY <= b.maxY
    ensures var row := if b.minY <= y <= b.maxY then NonEmpty(RowCells(g, b.minX, b.maxX, y)) else [];
            ItemsFrom(g, b, if y < b.minY then b.minY else y) == row + ItemsFrom(g, b, if y + 1 < b.minY then b.minY else y + 1)
  {
    hide RowCells, NonEmpty;
    if y < b.minY {
      assert [] + ItemsFrom(g, b, b.minY) == ItemsFrom(g, b, b.minY);
    } else if y > b.maxY {
      assert ItemsFrom(g, b, y) == [] && ItemsFrom(g, b, y + 1) == [];
    }
  }

  // ----- matched lists -----

  /** Slot by slot, the names match, and only empty names lie on empty slots. */
  ghost predicate MatchedList(defs: ItemDefs, a: seq<Name>, b: seq<Name>) {
    && |a| == |b|
    && forall i :: 0 <= i < |a| ==> Matches(defs, a[i], b[i]) && (a[i] == "" <==> b[i] == "")
  }

  lemma {:induction false} MatchedNonEmpty(defs: ItemDefs, a: seq<Name>, b: seq<Name>)
    requires MatchedList(defs, a, b)
    ensures MatchedList(defs, NonEmpty(a), NonEmpty(b))
  {
    hide Matches;
    if a != [] {
      MatchedNonEmpty(defs, a[1..], b[1..]);
    }
  }

  lemma {:induction false} MatchedItems(defs: ItemDefs, input: Grid, recipe: Grid, bi: Box, br: Box, y: int)
    requires BoxesMatch(defs, input, recipe, bi, br) && bi.minX <= bi.maxX
    requires forall x, y :: Cell(recipe, x, y) != "" ==> Rigid(defs, Cell(recipe, x, y))
    requires br.minY <= y <= br.maxY + 1
    ensures MatchedList(defs, ItemsFrom(input, bi, y + (bi.minY - br.minY)), ItemsFrom(recipe, br, y))
    decreases br.maxY + 1 - y
  {
    hide Cell, Matches, IsBox, NonEmpty;
    if y <= br.maxY {
      MatchedItems(defs, input, recipe, bi, br, y + 1);
      var a, b := RowCells(input, bi.minX, bi.maxX, y + (bi.minY - br.minY)), RowCells(recipe, br.minX, br.maxX, y);
      forall k | 0 <= k < |a|
        ensures Matches(defs, a[k], b[k]) && (a[k] == "" <==> b[k] == "")
      {
        RigidCellMatched(defs, input, recipe, bi, br, br.minX + k, y);
      }
      MatchedNonEmpty(defs, a, b);
    }
  }

  lemma RigidCellMatched(defs: ItemDefs, input: Grid, recipe: Grid, bi: Box, br: Box, x: int, y: int)
    requires MatchInside(defs, input, recipe, bi, br) && br.Contains(x, y)
    requires Cell(recipe, x, y) != "" ==> Rigid(defs, Cell(recipe, x, y))
    ensures var a, b := Cell(input, x + (bi.minX - br.minX), y + (bi.minY - br.minY)), Cell(recipe, x, y);
            Matches(defs, a, b) && (a == "" <==> b == "")
  {
    EmptySlotStaysEmpty(defs);
  }

  lemma {:induction false} PaddedVersion(names: seq<Name>, w: nat) returns (padded: seq<Name>)
    requires w > 0
    ensures |padded| % w == 0 && NonEmpty(padded) == NonEmpty(names)
    ensures SameCells(Grid(names, w), Grid(padded, w)) && SameCells(Grid(padded, w), Grid(names, w))
    decreases if |names| % w == 0 then 0 else w - |names| % w
  {
    padded := names;
    if |names| % w != 0 {
      PadStep(names, w);
      NonEmptyAppend(names, "");
      hide Cell;
      padded := PaddedVersion(names + [""], w);
    }
  }

  lemma AcceptedPaddedItems(defs: ItemDefs, input: Grid, recipe: Grid)
    requires input.width > 0 && recipe.width > 0
    requires |input.names| % input.width == 0 && |recipe.names| % recipe.width == 0
    requires SameShape(defs, input, recipe)
    requires forall x, y :: Cell(recipe, x, y) != "" ==> Rigid(defs, Cell(recipe, x, y))
    ensures MatchedList(defs, NonEmpty(input.names), NonEmpty(recipe.names))
  {
    hide Cell, Matches, MatchInside, NonEmpty, ItemsFrom, RowsFrom, MatchedList;
    var bi, br :| BoxesMatch(defs, input, recipe, bi, br);
    BoxWithin(input, bi);
    BoxWithin(recipe, br);
    RowsEnds(input);
    RowsEnds(recipe);
    ItemsInReadingOrder(input, bi, 0);
    ItemsInReadingOrder(recipe, br, 0);
    MatchedItems(defs, input, recipe, bi, br, br.minY);
  }

  /** When no slot of the recipe may stay empty, an accepted input holds, in reading order, one
      matching item for each slot that is not empty. */
  lemma AcceptedItems(defs: ItemDefs, input: Grid, recipe: Grid)
    requires input.width > 0 && recipe.width > 0
    requires SameShape(defs, input, recipe)
    requires forall i :: 0 <= i < |recipe.names| && recipe.names[i] != "" ==> Rigid(defs, recipe.names[i])
    ensures MatchedList(defs, NonEmpty(input.names), NonEmpty(recipe.names))
  {
    var inputNames := PaddedVersion(input.names, input.width);
    var recipeNames := PaddedVersion(recipe.names, recipe.width);
    var input', recipe' := Grid(inputNames, input.width), Grid(recipeNames, recipe.width);
    RigidCells(defs, recipe);
    hide Cell, Rigid, SameShape, MatchedList, Matches;
    ShapeOfCells(defs, input, input', recipe, recipe');
    AcceptedPaddedItems(defs, input', recipe');
  }

  lemma RigidCells(defs: ItemDefs, g: Grid)
    requires forall i :: 0 <= i < |g.names| && g.names[i] != "" ==> Rigid(defs, g.names[i])
    ensures forall x, y :: Cell(g, x, y) != "" ==> Rigid(defs, Cell(g, x, y))
  {
    hide Matches, Rigid;
  }

  lemma BoxWithin(g: Grid, b: Box)
    requires g.width > 0 && |g.names| % g.width == 0 && IsBox(g, b)
    ensures 0 <= b.minX <= b.maxX < g.width && 0 <= b.minY <= b.maxY < |g.names| / g.width
  {
    hide Cell;
    var y0 :| Cell(g, b.minX, y0) != "";
    var y1 :| Cell(g, b.maxX, y1) != "";
    var x0 :| Cell(g, x0, b.minY) != "";
    var x1 :| Cell(g, x1, b.maxY) != "";
    UsedCell(g, b.minX, y0);
    UsedCell(g, b.maxX, y1);
    UsedCell(g, x0, b.minY);
    UsedCell(g, x1, b.maxY);
  }
}
