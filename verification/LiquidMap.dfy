/** The map that the liquids flow through, and the ledger of their volumes over whole runs. */
module LiquidMap {
  import opened Liquid
  import opened LiquidLaws
  import opened LiquidSteps
  import opened Wrappers

  datatype Position = Position(x: int, y: int, z: int)

  /** A loaded node. A solid may be washed away by liquid at every `drop`-th look (never when 0);
      `mark` is the bit of it that a liquid reads as "endless". */
  datatype Node = Air | Solid(drop: nat, mark: bool) | Fluid(kind: nat, level: nat, endless: bool)

  /** The nodes that are loaded. */
  type Nodes = map<Position, Node>

  /** Which cell of the seven is explored when: the node itself, below, above, the sides. */
  const EXPLORE: seq<nat> := [1, 0, 6, 2, 3, 4, 5]

  /** Cell `i` of the seven around a position. */
  function Cell(p: Position, i: nat): Position
    requires i < 7
  {
    if i == 0 then p.(y := p.y - 1)
    else if i == 1 then p
    else if i == 2 then p.(z := p.z + 1)
    else if i == 3 then p.(z := p.z - 1)
    else if i == 4 then p.(x := p.x + 1)
    else if i == 5 then p.(x := p.x - 1)
    else p.(y := p.y + 1)
  }

  // ----- volumes -----

  function Held(n: Node, kind: nat): nat {
    if n.Fluid? && n.kind == kind then n.level else 0
  }

  /** The volume of one kind of liquid in all loaded nodes. */
  ghost function Volume(m: Nodes, kind: nat): nat
    decreases |m|
  {
    if m == map[] then 0 else
      var p :| p in m;
      Held(m[p], kind) + Volume(m - {p}, kind)
  }

  lemma {:induction false} VolumeWithout(m: Nodes, p: Position, kind: nat)
    requires p in m
    ensures Volume(m, kind) == Held(m[p], kind) + Volume(m - {p}, kind)
    decreases |m|
  {
    var q :| q in m && Volume(m, kind) == Held(m[q], kind) + Volume(m - {q}, kind);
    if q != p {
      VolumeWithout(m - {q}, p, kind);
      VolumeWithout(m - {p}, q, kind);
      assert m - {q} - {p} == m - {p} - {q};
    }
  }

  /** How much of the liquid there is in the i-th cell around a node. */
  ghost function HeldAt(m: Nodes, p: Position, kind: nat, i: nat): nat
    requires i < 7
  {
    if Cell(p, i) in m then Held(m[Cell(p, i)], kind) else 0
  }

  /** The volume in the first `n` of the seven cells. */
  ghost function HeldAround(m: Nodes, p: Position, kind: nat, n: nat): nat
    requires n <= 7
  {
    if n == 0 then 0
    else HeldAround(m, p, kind, n - 1) + HeldAt(m, p, kind, n - 1)
  }

  ghost function Cells(p: Position, n: nat): set<Position>
    requires n <= 7
  {
    set i: nat | i < n :: Cell(p, i)
  }

  lemma CellsGrow(p: Position, n: nat)
    requires n < 7
    ensures Cells(p, n + 1) == Cells(p, n) + {Cell(p, n)} && Cell(p, n) !in Cells(p, n)
  {
    forall i: nat | i < n
      ensures Cell(p, i) != Cell(p, n)
    {
    }
    hide Cell;
    forall q | q in Cells(p, n + 1)
      ensures q in Cells(p, n) + {Cell(p, n)}
    {
      var i: nat :| i < n + 1 && q == Cell(p, i);
      assert i < n ==> Cell(p, i) in Cells(p, n);
    }
  }

  lemma {:induction false} VolumeAround(m: Nodes, p: Position, kind: nat, n: nat)
    requires n <= 7
    ensures Volume(m, kind) == HeldAround(m, p, kind, n) + Volume(m - Cells(p, n), kind)
  {
    if n == 0 {
      assert m - Cells(p, 0) == m;
    } else {
      VolumeAround(m, p, kind, n - 1);
      CellsGrow(p, n - 1);
      hide Cell, Cells, Held, Volume;
      var rest, c := m - Cells(p, n - 1), Cell(p, n - 1);
      assert rest - {c} == m - Cells(p, n);
      if c in m {
        assert c in rest;
        VolumeWithout(rest, c, kind);
      } else {
        assert rest - {c} == rest;
      }
    }
  }

  /** Maps that differ only in the seven cells differ in volume by what those cells hold. */
  lemma VolumeChange(m: Nodes, m': Nodes, p: Position, kind: nat)
    requires m.Keys == m'.Keys && forall q :: q in m && q !in Cells(p, 7) ==> m'[q] == m[q]
    ensures Volume(m', kind) - Volume(m, kind) == HeldAround(m', p, kind, 7) - HeldAround(m, p, kind, 7)
  {
    VolumeAround(m, p, kind, 7);
    VolumeAround(m', p, kind, 7);
    assert m - Cells(p, 7) == m' - Cells(p, 7);
  }

  /** Exchanging two nodes keeps every volume. */
  lemma SwapKeepsVolume(m: Nodes, p: Position, q: Position, kind: nat)
    requires p in m && q in m && p != q
    ensures Volume(m[p := m[q]][q := m[p]], kind) == Volume(m, kind)
  {
    var m' := m[p := m[q]][q := m[p]];
    VolumeWithout(m, p, kind);
    VolumeWithout(m - {p}, q, kind);
    VolumeWithout(m', p, kind);
    VolumeWithout(m' - {p}, q, kind);
    assert m - {p} - {q} == m' - {p} - {q};
  }

  // ----- looking around -----

  function Seen(m: Nodes, p: Position): Option<Node> {
    if p in m then Some(m[p]) else None
  }

  predicate IsFluid(n: Option<Node>) {
    n.Some? && n.value.Fluid?
  }

  /** The kind of the first liquid met among the first `n` cells explored. */
  function FirstKind(m: Nodes, p: Position, n: nat): Option<nat>
    requires n <= 7
  {
    if n == 0 then None else KindNext(FirstKind(m, p, n - 1), Seen(m, Cell(p, EXPLORE[n - 1])))
  }

  function KindNext(kind: Option<nat>, n: Option<Node>): Option<nat> {
    if kind.None? && IsFluid(n) then Some(n.value.kind) else kind
  }

  /** The liquid can be in the node. */
  predicate Enters(n: Option<Node>, kind: Option<nat>, loopcount: nat) {
    n.Some? && match n.value
               case Air => true
               case Solid(drop, _) => drop > 0 && loopcount % drop == 0
               case Fluid(k, _, _) => kind == Some(k)
  }

  function LevelAt(n: Option<Node>, kind: Option<nat>, loopcount: nat): int {
    if !Enters(n, kind, loopcount) then -1 else if n.value.Fluid? then n.value.level else 0
  }

  predicate EndlessAt(n: Option<Node>, kind: Option<nat>, loopcount: nat) {
    Enters(n, kind, loopcount) && n.value.Fluid? && n.value.endless
  }

  /** The cell is shown in the three lists as what `n` is for the liquid. */
  predicate Shown(v: View, i: nat, n: Option<Node>, kind: Option<nat>, loopcount: nat)
    requires i < 7 && |v.liquid| == |v.level| == |v.endless| == 7
  {
    v.liquid[i] == Enters(n, kind, loopcount) && v.level[i] == LevelAt(n, kind, loopcount) &&
    v.endless[i] == EndlessAt(n, kind, loopcount)
  }

  /** What the liquid of the given kind sees around a position. */
  ghost predicate Sees(m: Nodes, p: Position, kind: Option<nat>, loopcount: nat, v: View) {
    && |v.liquid| == |v.level| == |v.endless| == 7 && v.bottomLoaded == (Cell(p, BOTTOM) in m)
    && forall i: nat :: i < 7 ==> Shown(v, i, Seen(m, Cell(p, i)), kind, loopcount)
  }

  /** The first `e` explored cells are shown, the others not yet. */
  ghost predicate Explored(m: Nodes, p: Position, kind: Option<nat>, loopcount: nat, v: View, e: nat)
    requires e <= 7
  {
    && |v.liquid| == |v.level| == |v.endless| == 7 && v.bottomLoaded == (Cell(p, BOTTOM) in m)
    && (forall d: nat :: d < e ==> Shown(v, EXPLORE[d], Seen(m, Cell(p, EXPLORE[d])), kind, loopcount))
    && (forall d: nat :: e <= d < 7 ==> v.level[EXPLORE[d]] == -1)
  }

  lemma {:induction false} NoFluidYet(m: Nodes, p: Position, n: nat, d: nat)
    requires d < n <= 7 && FirstKind(m, p, n).None?
    ensures !IsFluid(Seen(m, Cell(p, EXPLORE[d])))
  {
    if d < n - 1 {
      NoFluidYet(m, p, n - 1, d);
    }
  }

  function Show(v: View, i: nat, n: Option<Node>, kind: Option<nat>, loopcount: nat): View
    requires i < 7 && |v.liquid| == |v.level| == |v.endless| == 7
  {
    v.(liquid := v.liquid[i := Enters(n, kind, loopcount)], level := v.level[i := LevelAt(n, kind, loopcount)],
       endless := v.endless[i := EndlessAt(n, kind, loopcount)])
  }

  /** The volume seen grows by the level of the cell. */
  lemma SumNext(v: View, e: nat, n: Option<Node>, kind: Option<nat>, loopcount: nat)
    requires e < 7 && |v.liquid| == |v.level| == |v.endless| == 7 && forall d :: e <= d < 7 ==> v.level[EXPLORE[d]] == -1
    ensures var v' := Show(v, EXPLORE[e], n, kind, loopcount);
            && |v'.liquid| == |v'.level| == |v'.endless| == 7 && Sum(v'.level) == Sum(v.level) + Pos(LevelAt(n, kind, loopcount))
            && forall d :: e < d < 7 ==> v'.level[EXPLORE[d]] == -1
  {
    SumUpdate(v.level, EXPLORE[e], LevelAt(n, kind, loopcount));
    hide Sum, LevelAt, Enters, EndlessAt;
  }

  lemma ExploreNext(m: Nodes, p: Position, loopcount: nat, v: View, e: nat)
    requires e < 7 && Explored(m, p, FirstKind(m, p, e), loopcount, v, e)
    ensures var kind := FirstKind(m, p, e + 1);
            Explored(m, p, kind, loopcount, Show(v, EXPLORE[e], Seen(m, Cell(p, EXPLORE[e])), kind, loopcount), e + 1)
  {
    var kind := FirstKind(m, p, e + 1);
    var v' := Show(v, EXPLORE[e], Seen(m, Cell(p, EXPLORE[e])), kind, loopcount);
    forall d: nat | d < e
      ensures EXPLORE[d] != EXPLORE[e] && Shown(v', EXPLORE[d], Seen(m, Cell(p, EXPLORE[d])), kind, loopcount)
    {
      if FirstKind(m, p, e).None? {
        NoFluidYet(m, p, e, d);
      }
    }
  }

  lemma AllExplored(m: Nodes, p: Position, kind: Option<nat>, loopcount: nat, v: View)
    requires Explored(m, p, kind, loopcount, v, 7)
    ensures Sees(m, p, kind, loopcount, v)
  {
    forall i: nat | i < 7
      ensures Shown(v, i, Seen(m, Cell(p, i)), kind, loopcount)
    {
      assert i in EXPLORE;
    }
  }

  /** The first `e` cells have been looked at. */
  ghost predicate Walked(m: Nodes, p: Position, kind: Option<nat>, loopcount: nat, v: View, total: nat, e: nat)
    requires e <= 7
  {
    kind == FirstKind(m, p, e) && Explored(m, p, kind, loopcount, v, e) && total == Sum(v.level)
  }

  lemma WalkBegins(m: Nodes, p: Position, loopcount: nat, v: View)
    requires |v.liquid| == |v.level| == |v.endless| == 7 && v.bottomLoaded == (Cell(p, BOTTOM) in m)
    requires forall i: nat :: i < 7 ==> v.level[i] == -1
    ensures Walked(m, p, None, loopcount, v, 0, 0)
  {
    hide Cell, Shown;
  }

  lemma WalkNext(m: Nodes, p: Position, kind: Option<nat>, loopcount: nat, v: View, total: nat, e: nat)
    requires e < 7 && Walked(m, p, kind, loopcount, v, total, e)
    ensures |v.liquid| == |v.level| == |v.endless| == 7
    ensures var n := Seen(m, Cell(p, EXPLORE[e]));
            var kind' := KindNext(kind, n);
            var v' := Show(v, EXPLORE[e], n, kind', loopcount);
            && |v'.liquid| == |v'.level| == |v'.endless| == 7
            && Walked(m, p, kind', loopcount, v', total + Pos(LevelAt(n, kind', loopcount)), e + 1)
  {
    var n := Seen(m, Cell(p, EXPLORE[e]));
    ExploreNext(m, p, loopcount, v, e);
    SumNext(v, e, n, KindNext(kind, n), loopcount);
    assert FirstKind(m, p, e + 1) == KindNext(kind, n);
    hide FirstKind, Explored, Sum, Show, LevelAt, Cell, Seen, KindNext;
  }

  lemma WalkEnds(m: Nodes, p: Position, kind: Option<nat>, loopcount: nat, v: View, total: nat)
    requires Walked(m, p, kind, loopcount, v, total, 7)
    ensures kind == FirstKind(m, p, 7) && Sees(m, p, kind, loopcount, v) && total == Sum(v.level)
  {
    AllExplored(m, p, kind, loopcount, v);
    hide Explored, Sees, Sum, FirstKind;
  }

  function Weight(kinds: seq<Kind>, n: Option<Node>): nat
    requires IsFluid(n) ==> n.value.kind < |kinds|
  {
    if IsFluid(n) then kinds[n.value.kind].weight else 0
  }

  /** The liquid explored at step `e` changes places with the node: it is lighter and below, or
      heavier and above. */
  predicate SwapsAt(kinds: seq<Kind>, m: Nodes, p: Position, e: nat)
    requires KindsKnown(kinds, m) && e < 7
  {
    var self, there := Weight(kinds, Seen(m, p)), Weight(kinds, Seen(m, Cell(p, EXPLORE[e])));
    (e == 1 && there > 0 && self > there) || (e == 2 && self > 0 && there > self)
  }

  function SwapOf(kinds: seq<Kind>, m: Nodes, p: Position): Option<nat>
    requires KindsKnown(kinds, m)
  {
    if SwapsAt(kinds, m, p, 1) then Some(BOTTOM) else if SwapsAt(kinds, m, p, 2) then Some(TOP) else None
  }

  predicate KindsKnown(kinds: seq<Kind>, m: Nodes) {
    forall p :: p in m && m[p].Fluid? ==> m[p].kind < |kinds|
  }

  lemma SwapFound(kinds: seq<Kind>, m: Nodes, p: Position, e: nat)
    requires KindsKnown(kinds, m) && e < 7 && SwapsAt(kinds, m, p, e) && forall d :: 0 <= d < e ==> !SwapsAt(kinds, m, p, d)
    ensures SwapOf(kinds, m, p) == Some(EXPLORE[e])
  {
    hide Weight, Seen;
  }

  lemma SwapNone(kinds: seq<Kind>, m: Nodes, p: Position)
    requires KindsKnown(kinds, m) && forall d :: 0 <= d < 7 ==> !SwapsAt(kinds, m, p, d)
    ensures SwapOf(kinds, m, p) == None
  {
    hide SwapsAt;
  }

  /** No liquid node is empty or holds more than its kind allows. */
  ghost predicate ValidNodes(kinds: seq<Kind>, m: Nodes) {
    && KindsKnown(kinds, m)
    && forall p :: p in m && m[p].Fluid? ==> 1 <= m[p].level <= kinds[m[p].kind].Cap()
  }

  lemma SeenIsValid(kinds: seq<Kind>, m: Nodes, p: Position, kind: nat, loopcount: nat, v: View)
    requires ValidNodes(kinds, m) && kind < |kinds| && Sees(m, p, Some(kind), loopcount, v) && v.liquid[SELF]
    ensures v.Valid(kinds[kind].Cap())
  {
    forall i: nat | i < 7
      ensures if v.liquid[i] then 0 <= v.level[i] <= kinds[kind].Cap() else v.level[i] == -1 && !v.endless[i]
    {
      assert Shown(v, i, Seen(m, Cell(p, i)), Some(kind), loopcount);
    }
    assert Shown(v, BOTTOM, Seen(m, Cell(p, BOTTOM)), Some(kind), loopcount);
  }

  // ----- writing back -----

  /** A node once its level has been set: nothing is left of a liquid without level. */
  function Written(n: Node, kind: nat, level: nat): Node {
    if level == 0 then Air
    else Fluid(kind, level, match n case Air => false case Solid(_, mark) => mark case Fluid(_, _, endless) => endless)
  }

  /** The node of a cell after the targets have been written. */
  function After(v: View, n: Node, kind: nat, i: nat, want: int): Node
    requires i < 7 && |v.liquid| == |v.level| == 7
  {
    if want >= 0 && v.liquid[i] && v.level[i] != want then Written(n, kind, want) else n
  }

  /** The nodes around `p` are those of `m` with the targets written. */
  ghost predicate Spread(m: Nodes, m': Nodes, p: Position, v: View, kind: nat, want: seq<int>) {
    && |v.liquid| == |v.level| == |want| == 7 && m'.Keys == m.Keys
    && (forall i: nat :: i < 7 && Cell(p, i) in m ==> m'[Cell(p, i)] == After(v, m[Cell(p, i)], kind, i, want[i]))
    && (forall q :: q in m && q !in Cells(p, 7) ==> m'[q] == m[q])
  }

  lemma HeldBefore(m: Nodes, p: Position, v: View, kind: nat, loopcount: nat, i: nat)
    requires Sees(m, p, Some(kind), loopcount, v) && i < 7
    ensures HeldAt(m, p, kind, i) == Pos(v.level[i])
    ensures v.liquid[i] ==> Cell(p, i) in m && forall other: nat :: other != kind ==> Held(m[Cell(p, i)], other) == 0
  {
    assert Shown(v, i, Seen(m, Cell(p, i)), Some(kind), loopcount);
  }

  lemma HeldAfter(m: Nodes, m': Nodes, p: Position, v: View, kind: nat, loopcount: nat, want: seq<int>, cap: nat, i: nat)
    requires Sees(m, p, Some(kind), loopcount, v) && i < 7
    requires Targets(v, want, cap) && Spread(m, m', p, v, kind, want)
    ensures HeldAt(m', p, kind, i) == Pos(want[i])
    ensures forall other: nat :: other != kind ==> HeldAt(m', p, other, i) == HeldAt(m, p, other, i)
  {
    HeldBefore(m, p, v, kind, loopcount, i);
  }

  lemma SumOfHeld(m: Nodes, p: Position, kind: nat, w: seq<int>)
    requires |w| == 7
    requires forall i: nat :: i < 7 ==> HeldAt(m, p, kind, i) == Pos(w[i])
    ensures HeldAround(m, p, kind, 7) == Sum(w)
  {
    hide HeldAt;
    assert HeldAround(m, p, kind, 0) == 0;
    assert HeldAround(m, p, kind, 1) == Pos(w[0]);
    assert HeldAround(m, p, kind, 2) == Pos(w[0]) + Pos(w[1]);
    assert HeldAround(m, p, kind, 3) == HeldAround(m, p, kind, 2) + Pos(w[2]);
    assert HeldAround(m, p, kind, 4) == HeldAround(m, p, kind, 3) + Pos(w[3]);
    assert HeldAround(m, p, kind, 5) == HeldAround(m, p, kind, 4) + Pos(w[4]);
    assert HeldAround(m, p, kind, 6) == HeldAround(m, p, kind, 5) + Pos(w[5]);
  }

  lemma {:induction false} SameHeld(m: Nodes, m': Nodes, p: Position, kind: nat, n: nat)
    requires n <= 7 && forall i: nat :: i < 7 ==> HeldAt(m', p, kind, i) == HeldAt(m, p, kind, i)
    ensures HeldAround(m', p, kind, n) == HeldAround(m, p, kind, n)
  {
    if n > 0 {
      SameHeld(m, m', p, kind, n - 1);
    }
  }

  /** Writing the targets changes the volume of the liquid by the difference of the two sums, and the
      volume of no other liquid. */
  lemma SpreadLedger(m: Nodes, m': Nodes, p: Position, v: View, kind: nat, loopcount: nat, want: seq<int>, cap: nat, other: nat)
    requires Sees(m, p, Some(kind), loopcount, v) && Targets(v, want, cap) && Spread(m, m', p, v, kind, want)
    ensures Volume(m', kind) == Volume(m, kind) + Sum(want) - Sum(v.level)
    ensures other != kind ==> Volume(m', other) == Volume(m, other)
  {
    assert |v.level| == |want| == 7 && m'.Keys == m.Keys;
    assert forall q :: q in m && q !in Cells(p, 7) ==> m'[q] == m[q];
    hide *;
    forall i: nat | i < 7
      ensures HeldAt(m, p, kind, i) == Pos(v.level[i]) && HeldAt(m', p, kind, i) == Pos(want[i])
      ensures other != kind ==> HeldAt(m', p, other, i) == HeldAt(m, p, other, i)
    {
      HeldBefore(m, p, v, kind, loopcount, i);
      HeldAfter(m, m', p, v, kind, loopcount, want, cap, i);
    }
    SumOfHeld(m, p, kind, v.level);
    SumOfHeld(m', p, kind, want);
    VolumeChange(m, m', p, kind);
    if other != kind {
      SameHeld(m, m', p, other, 7);
      VolumeChange(m, m', p, other);
    }
  }

  lemma SpreadKeepsValid(kinds: seq<Kind>, m: Nodes, m': Nodes, p: Position, v: View, kind: nat, want: seq<int>)
    requires ValidNodes(kinds, m) && kind < |kinds| && Targets(v, want, kinds[kind].Cap()) && Spread(m, m', p, v, kind, want)
    ensures ValidNodes(kinds, m') && m'.Keys == m.Keys
  {
    forall q | q in m' && m'[q].Fluid?
      ensures m'[q].kind < |kinds| && 1 <= m'[q].level <= kinds[m'[q].kind].Cap()
    {
      assert q in m;
      if q in Cells(p, 7) {
        var i: nat :| i < 7 && q == Cell(p, i);
        assert m'[q] == After(v, m[q], kind, i, want[i]);
      }
    }
  }

  // ----- one look at one node -----

  /** What happened at a node: nothing, it changed places with the cell below or above, or its liquid
      was redistributed. */
  datatype Report = Nothing(view: View) | Sank | Rose | Flowed(kind: nat, view: View, want: seq<int>, account: Account)

  /** What a look changes in the volume of a kind. */
  function Change(r: Report, kind: nat): int {
    if r.Flowed? && r.kind == kind then r.account.Change() else 0
  }

  /** The nodes of two places exchanged. */
  predicate Exchanged(m: Nodes, m': Nodes, p: Position, q: Position) {
    p in m && q in m && p != q && m' == m[p := m[q]][q := m[p]]
  }

  /** The liquid at a node flows. */
  predicate CanFlow(v: View, kind: Option<nat>)
    requires |v.liquid| == |v.level| == 7
  {
    kind.Some? && v.liquid[SELF] && Sum(v.level) > 0
  }

  /** What one look at a node does to the map, and what it reports: liquids change places by weight,
      or else the first liquid around flows if it can. */
  ghost predicate Looked(kinds: seq<Kind>, s: Settings, m: Nodes, m': Nodes, p: Position, t: Tick, r: Report) {
    && KindsKnown(kinds, m)
    && match r
       case Nothing(v) =>
         SwapOf(kinds, m, p).None? && Sees(m, p, FirstKind(m, p, 7), t.loopcount, v) && !CanFlow(v, FirstKind(m, p, 7)) && m' == m
       case Sank => SwapOf(kinds, m, p) == Some(BOTTOM) && Exchanged(m, m', p, Cell(p, BOTTOM))
       case Rose => SwapOf(kinds, m, p) == Some(TOP) && Exchanged(m, m', p, Cell(p, TOP))
       case Flowed(kind, v, want, a) =>
         && SwapOf(kinds, m, p).None? && FirstKind(m, p, 7) == Some(kind) && kind < |kinds|
         && Sees(m, p, Some(kind), t.loopcount, v) && CanFlow(v, Some(kind))
         && Distributed(v, kinds[kind], s, t, want, a) && Spread(m, m', p, v, kind, want)
  }

  /** What a flow reports as made, left over and lost is what its account of the seven cells may say. */
  ghost predicate Booked(kinds: seq<Kind>, s: Settings, t: Tick, r: Report) {
    r.Flowed? ==>
      && r.kind < |kinds| && |r.view.liquid| == |r.view.level| == |r.view.endless| == |r.want| == 7 && r.view.liquid[SELF]
      && Accounted(r.view, kinds[r.kind], s, t, r.want, r.account)
  }

  lemma LookBooked(kinds: seq<Kind>, s: Settings, m: Nodes, m': Nodes, p: Position, t: Tick, r: Report)
    requires Looked(kinds, s, m, m', p, t, r)
    ensures Booked(kinds, s, t, r)
  {
    hide Distributed, Accounted, Sees, Spread, Exchanged, SwapOf, FirstKind, CanFlow, KindsKnown;
    if r.Flowed? {
      LookAccounted(r.view, kinds[r.kind], s, t, r.want, r.account);
    }
  }

  /** Whatever a look does, the volume of every kind changes by what it reports: what was made, less what
      was left over and lost. */
  lemma LookLedger(kinds: seq<Kind>, s: Settings, m: Nodes, m': Nodes, p: Position, t: Tick, r: Report, kind: nat)
    requires ValidNodes(kinds, m) && Looked(kinds, s, m, m', p, t, r)
    ensures m'.Keys == m.Keys && ValidNodes(kinds, m')
    ensures Volume(m', kind) == Volume(m, kind) + Change(r, kind) && Booked(kinds, s, t, r)
  {
    hide Sum, Volume, Sees, Spread, Cell, SwapOf, FirstKind, CanFlow, Distributed, ValidNodes, Exchanged, Booked;
    LookBooked(kinds, s, m, m', p, t, r);
    match r
    case Nothing(_) =>
    case Sank => ExchangeLedger(kinds, m, m', p, Cell(p, BOTTOM), kind);
    case Rose => ExchangeLedger(kinds, m, m', p, Cell(p, TOP), kind);
    case Flowed(k, v, want, a) => FlowLedger(kinds, s, m, m', p, t, k, v, want, a, kind);
  }

  lemma ExchangeLedger(kinds: seq<Kind>, m: Nodes, m': Nodes, p: Position, q: Position, kind: nat)
    requires ValidNodes(kinds, m) && Exchanged(m, m', p, q)
    ensures m'.Keys == m.Keys && ValidNodes(kinds, m')
    ensures Volume(m', kind) == Volume(m, kind)
  {
    SwapKeepsVolume(m, p, q, kind);
    ExchangeKeepsValid(kinds, m, m', p, q);
    hide Volume, ValidNodes;
  }

  lemma ExchangeKeepsValid(kinds: seq<Kind>, m: Nodes, m': Nodes, p: Position, q: Position)
    requires ValidNodes(kinds, m) && Exchanged(m, m', p, q)
    ensures m'.Keys == m.Keys && ValidNodes(kinds, m')
  {
    forall x | x in m' && m'[x].Fluid?
      ensures m'[x].kind < |kinds| && 1 <= m'[x].level <= kinds[m'[x].kind].Cap()
    {
      var y := if x == p then q else if x == q then p else x;
      assert y in m && m'[x] == m[y];
    }
  }

  lemma FlowLedger(kinds: seq<Kind>, s: Settings, m: Nodes, m': Nodes, p: Position, t: Tick, k: nat, v: View, want: seq<int>,
                   a: Account, kind: nat)
    requires ValidNodes(kinds, m) && k < |kinds| && Sees(m, p, Some(k), t.loopcount, v)
    requires Distributed(v, kinds[k], s, t, want, a) && Spread(m, m', p, v, k, want)
    ensures m'.Keys == m.Keys && ValidNodes(kinds, m')
    ensures Volume(m', kind) == Volume(m, kind) + if kind == k then a.Change() else 0
  {
    LookConserves(v, kinds[k], s, t, want, a);
    hide Sum, Volume, Sees, Spread, Targets, Distributed, EndlessStay, ValidNodes;
    SpreadLedger(m, m', p, v, k, t.loopcount, want, kinds[k].Cap(), kind);
    SpreadKeepsValid(kinds, m, m', p, v, k, want);
  }

  // ----- what is looked at again -----

  ghost function Elements(list: seq<Position>): set<Position> {
    set p | p in list
  }

  lemma ElementsGrow(list: seq<Position>, p: Position)
    ensures Elements(list + [p]) == Elements(list) + {p}
  {
    assert forall q :: q in list + [p] <==> q in list || q == p;
  }

  /** The last units of a liquid at the edge of a step: the cell has one or two, and nothing above or
      below takes part. */
  predicate OnStairs(v: View, k: Kind, target: int)
    requires |v.liquid| == |v.level| == 7
  {
    v.level[TOP] <= 0 && (!v.liquid[BOTTOM] || k.levelMax == 1) && 1 <= target <= 2
  }

  /** The sides of a cell, those that the liquid can enter around the node. */
  ghost function Sides(p: Position, v: View, i: nat): set<Position>
    requires i < 7 && |v.liquid| == 7
  {
    set d: nat | 2 <= d < 6 && v.liquid[d] :: Cell(Cell(p, i), d)
  }

  /** The nodes queued when the target of cell `i` is written: the cell itself if it changes, unless
      too much is left over, and on stairs its sides. */
  ghost function WokenBy(p: Position, v: View, k: Kind, i: nat, target: int, left: int): set<Position>
    requires i < 7 && |v.liquid| == |v.level| == 7
  {
    if !v.liquid[i] || target < 0 || target == v.level[i] then {}
    else (if OnStairs(v, k, target) then Sides(p, v, i) else {}) +
         (if left < k.levelMax * AllCount(v) then {Cell(p, i)} else {})
  }

  /** The nodes queued by the cells at the first `j` places of an order. */
  ghost function WokenSoFar(p: Position, v: View, k: Kind, want: seq<int>, left: int, row: seq<nat>, j: nat): set<Position>
    requires |v.liquid| == |v.level| == |want| == |row| == 7 && AreCells(row) && j <= 7
  {
    if j == 0 then {} else WokenSoFar(p, v, k, want, left, row, j - 1) + WokenBy(p, v, k, row[j - 1], want[row[j - 1]], left)
  }

  /** The nodes queued by all seven cells. */
  ghost function WokenAround(p: Position, v: View, k: Kind, want: seq<int>, left: int): set<Position>
    requires |v.liquid| == |v.level| == |want| == 7
  {
    set i: nat, q | i < 7 && q in WokenBy(p, v, k, i, want[i], left) :: q
  }

  lemma WokenNext(before: set<Position>, p: Position, v: View, k: Kind, want: seq<int>, left: int, row: seq<nat>, j: nat)
    requires |v.liquid| == |v.level| == |want| == |row| == 7 && AreCells(row) && j < 7
    ensures before + WokenSoFar(p, v, k, want, left, row, j + 1) ==
            before + WokenSoFar(p, v, k, want, left, row, j) + WokenBy(p, v, k, row[j], want[row[j]], left)
  {
    hide WokenBy;
  }

  lemma {:induction false} SoFarMembers(p: Position, v: View, k: Kind, want: seq<int>, left: int, row: seq<nat>, j: nat, q: Position)
    requires |v.liquid| == |v.level| == |want| == |row| == 7 && AreCells(row) && j <= 7
    ensures q in WokenSoFar(p, v, k, want, left, row, j) <==>
              exists l: nat :: l < j && q in WokenBy(p, v, k, row[l], want[row[l]], left)
  {
    hide WokenBy;
    if j > 0 {
      SoFarMembers(p, v, k, want, left, row, j - 1, q);
    }
  }

  /** The order in which the cells are written makes no difference. */
  lemma AnyOrderWakes(p: Position, v: View, k: Kind, want: seq<int>, left: int, row: seq<nat>)
    requires |v.liquid| == |v.level| == |want| == 7 && IsRow(row) && AreCells(row)
    ensures WokenSoFar(p, v, k, want, left, row, 7) == WokenAround(p, v, k, want, left)
  {
    var sofar, around := WokenSoFar(p, v, k, want, left, row, 7), WokenAround(p, v, k, want, left);
    hide WokenSoFar, WokenBy, IsRow;
    forall q
      ensures q in sofar <==> q in around
    {
      SoFarMembers(p, v, k, want, left, row, 7, q);
      if q in around {
        var i: nat :| i < 7 && q in WokenBy(p, v, k, i, want[i], left);
        var l := PlaceOf(row, i);
      }
    }
  }

  /** The sides at places 2 up to `j` of an order. */
  ghost function SidesSoFar(p: Position, v: View, i: nat, row: seq<nat>, j: nat): set<Position>
    requires i < 7 && |v.liquid| == |row| == 7 && AreCells(row) && j <= 7
  {
    set l: nat | 2 <= l < j && v.liquid[row[l]] :: Cell(Cell(p, i), row[l])
  }

  lemma SidesNext(p: Position, v: View, i: nat, row: seq<nat>, j: nat)
    requires i < 7 && |v.liquid| == |row| == 7 && AreCells(row) && 2 <= j < 7
    ensures SidesSoFar(p, v, i, row, j + 1) ==
            SidesSoFar(p, v, i, row, j) + if v.liquid[row[j]] then {Cell(Cell(p, i), row[j])} else {}
  {
    hide Cell;
  }

  lemma SidesByOrder(p: Position, v: View, i: nat, row: seq<nat>)
    requires i < 7 && |v.liquid| == 7 && IsRow(row) && AreCells(row)
    ensures SidesSoFar(p, v, i, row, 2) == {} && SidesSoFar(p, v, i, row, TOP) == Sides(p, v, i)
  {
    hide Cell;
    forall d: nat | 2 <= d < 6 && v.liquid[d]
      ensures Cell(Cell(p, i), d) in SidesSoFar(p, v, i, row, TOP)
    {
      var l := PlaceOf(row, d);
    }
    forall l: nat | 2 <= l < TOP && v.liquid[row[l]]
      ensures Cell(Cell(p, i), row[l]) in Sides(p, v, i)
    {
    }
  }

  /** The report names a known liquid and seven cells. */
  predicate ReportFits(kinds: seq<Kind>, r: Report) {
    r.Flowed? ==> r.kind < |kinds| && |r.view.liquid| == |r.view.level| == |r.want| == 7
  }

  /** The nodes that a look queues for the next run. A liquid that sinks queues only the cell below. */
  ghost function Wakes(kinds: seq<Kind>, p: Position, r: Report): set<Position>
    requires ReportFits(kinds, r)
  {
    match r
    case Nothing(_) => {}
    case Sank => {Cell(p, BOTTOM)}
    case Rose => {p, Cell(p, TOP)}
    case Flowed(kind, v, want, a) => WokenAround(p, v, kinds[kind], want, a.left)
  }

  lemma FlowedWakes(kinds: seq<Kind>, p: Position, kind: nat, v: View, want: seq<int>, a: Account)
    requires kind < |kinds| && |v.liquid| == |v.level| == |want| == 7
    ensures ReportFits(kinds, Flowed(kind, v, want, a))
    ensures Wakes(kinds, p, Flowed(kind, v, want, a)) == WokenAround(p, v, kinds[kind], want, a.left)
  {
  }

  ghost predicate AllFit(kinds: seq<Kind>, reports: seq<Report>) {
    forall i: nat :: i < |reports| ==> ReportFits(kinds, reports[i])
  }

  /** The nodes that the looks of a run queue. */
  ghost function RunWakes(kinds: seq<Kind>, queue: seq<Position>, reports: seq<Report>): set<Position>
    requires |reports| <= |queue| && AllFit(kinds, reports)
  {
    var n := |reports|;
    if n == 0 then {} else RunWakes(kinds, queue, reports[..n - 1]) + Wakes(kinds, queue[n - 1], reports[n - 1])
  }

  lemma RunWakesGrows(kinds: seq<Kind>, queue: seq<Position>, reports: seq<Report>, r: Report)
    requires |reports| < |queue| && AllFit(kinds, reports) && ReportFits(kinds, r)
    ensures AllFit(kinds, reports + [r])
    ensures RunWakes(kinds, queue, reports + [r]) == RunWakes(kinds, queue, reports) + Wakes(kinds, queue[|reports|], r)
  {
    var more := reports + [r];
    assert AllFit(kinds, more) by {
      hide ReportFits, Wakes, RunWakes;
    }
    hide *;
    WakesSplit(kinds, queue, more);
    assert more[..|reports|] == reports;
  }

  // ----- whole runs -----

  /** When and where the look at place `i` of the queue happens. */
  function TickAt(queue: seq<Position>, loopRand: nat, winds: seq<Option<Side>>, i: nat): Tick
    requires i < |queue| == |winds|
  {
    Tick(i + 1, loopRand, |queue|, queue[i].y, winds[i])
  }

  /** The looks of a run, one per queued node: `states` are the maps before, between and after. */
  ghost predicate IsRun(kinds: seq<Kind>, s: Settings, queue: seq<Position>, loopRand: nat, winds: seq<Option<Side>>,
                        states: seq<Nodes>, reports: seq<Report>) {
    && |states| == |reports| + 1 && |reports| <= |queue| == |winds|
    && forall i: nat {:trigger reports[i]} :: i < |reports| ==>
         Looked(kinds, s, states[i], states[i + 1], queue[i], TickAt(queue, loopRand, winds, i), reports[i])
  }

  function Ledger(reports: seq<Report>, kind: nat): int {
    if reports == [] then 0 else Ledger(reports[..|reports| - 1], kind) + Change(reports[|reports| - 1], kind)
  }

  /** Over a whole run the volume of every kind changes by exactly the sum of what the looks report. */
  lemma {:induction false} RunLedger(kinds: seq<Kind>, s: Settings, queue: seq<Position>, loopRand: nat,
                                     winds: seq<Option<Side>>, states: seq<Nodes>, reports: seq<Report>, kind: nat)
    requires IsRun(kinds, s, queue, loopRand, winds, states, reports) && ValidNodes(kinds, states[0])
    ensures var last := states[|reports|];
            && ValidNodes(kinds, last) && last.Keys == states[0].Keys
            && Volume(last, kind) == Volume(states[0], kind) + Ledger(reports, kind)
    ensures AllBooked(kinds, s, queue, loopRand, winds, reports)
  {
    var n := |reports|;
    RunBooked(kinds, s, queue, loopRand, winds, states, reports);
    if n > 0 {
      LedgerGrows(reports, kind);
      hide *;
      RunFront(kinds, s, queue, loopRand, winds, states, reports);
      RunLedger(kinds, s, queue, loopRand, winds, states[..n], reports[..n - 1], kind);
      LookLedger(kinds, s, states[n - 1], states[n], queue[n - 1], TickAt(queue, loopRand, winds, n - 1), reports[n - 1], kind);
    }
  }

  ghost predicate AllBooked(kinds: seq<Kind>, s: Settings, queue: seq<Position>, loopRand: nat, winds: seq<Option<Side>>,
                            reports: seq<Report>) {
    && |reports| <= |queue| == |winds|
    && forall i: nat {:trigger reports[i]} :: i < |reports| ==> Booked(kinds, s, TickAt(queue, loopRand, winds, i), reports[i])
  }

  lemma RunBooked(kinds: seq<Kind>, s: Settings, queue: seq<Position>, loopRand: nat, winds: seq<Option<Side>>,
                  states: seq<Nodes>, reports: seq<Report>)
    requires IsRun(kinds, s, queue, loopRand, winds, states, reports)
    ensures AllBooked(kinds, s, queue, loopRand, winds, reports)
  {
    hide Looked, Booked;
    forall i: nat | i < |reports|
      ensures Booked(kinds, s, TickAt(queue, loopRand, winds, i), reports[i])
    {
      LookBooked(kinds, s, states[i], states[i + 1], queue[i], TickAt(queue, loopRand, winds, i), reports[i]);
    }
  }

  lemma LedgerGrows(reports: seq<Report>, kind: nat)
    requires reports != []
    ensures Ledger(reports, kind) == Ledger(reports[..|reports| - 1], kind) + Change(reports[|reports| - 1], kind)
  {
    hide Change;
  }

  /** A run is a shorter run and one more look. */
  lemma RunFront(kinds: seq<Kind>, s: Settings, queue: seq<Position>, loopRand: nat, winds: seq<Option<Side>>,
                 states: seq<Nodes>, reports: seq<Report>)
    requires IsRun(kinds, s, queue, loopRand, winds, states, reports) && reports != []
    ensures var n := |reports|;
            && |states| == n + 1 && n <= |queue| == |winds| && IsRun(kinds, s, queue, loopRand, winds, states[..n], reports[..n - 1])
            && Looked(kinds, s, states[n - 1], states[n], queue[n - 1], TickAt(queue, loopRand, winds, n - 1), reports[n - 1])
  {
    var n := |reports|;
    hide Looked;
    assert reports[n - 1] in reports;
    forall i: nat | i < n - 1
      ensures Looked(kinds, s, states[..n][i], states[..n][i + 1], queue[i], TickAt(queue, loopRand, winds, i), reports[..n - 1][i])
    {
      assert reports[..n - 1][i] == reports[i];
    }
  }

  // ----- which changed nodes are looked at again -----

  /** Every node that has changed is in the set. */
  ghost predicate Covers(m: Nodes, m': Nodes, woken: set<Position>) {
    forall q :: q in m && q in m' && m'[q] != m[q] ==> q in woken
  }

  /** What the liquid sees around a position. */
  function ViewAt(m: Nodes, p: Position, kind: Option<nat>, loopcount: nat): (v: View)
    ensures Sees(m, p, kind, loopcount, v)
  {
    View(seq(7, i requires 0 <= i < 7 => Enters(Seen(m, Cell(p, i)), kind, loopcount)),
         seq(7, i requires 0 <= i < 7 => LevelAt(Seen(m, Cell(p, i)), kind, loopcount)),
         seq(7, i requires 0 <= i < 7 => EndlessAt(Seen(m, Cell(p, i)), kind, loopcount)), Cell(p, BOTTOM) in m)
  }

  /** The target of the cell is not its level. */
  predicate Changes(v: View, want: seq<int>, i: nat)
    requires |v.liquid| == |v.level| == |want| == 7 && i < 7
  {
    v.liquid[i] && want[i] >= 0 && want[i] != v.level[i]
  }

  /** The side on the other side. */
  function Opposite(i: nat): (j: nat)
    requires 2 <= i < 6
    ensures 2 <= j < 6
  {
    if i % 2 == 0 then i + 1 else i - 1
  }

  /** When too much is left over, a changed cell is queued only as the side of another one whose last
      units stand on stairs: a side as that of the node, the node as that of a side. */
  predicate Beside(v: View, k: Kind, want: seq<int>, i: nat)
    requires |v.liquid| == |v.level| == |want| == 7 && i < 7
  {
    || (2 <= i < 6 && Changes(v, want, SELF) && OnStairs(v, k, want[SELF]))
    || (i == SELF && exists j: nat :: 2 <= j < 6 && Changes(v, want, j) && OnStairs(v, k, want[j]) && v.liquid[Opposite(j)])
  }

  /** What flows here will be looked at again: not too much is left over, or each cell that changes is
      beside one on stairs. */
  predicate FlowReturns(v: View, k: Kind)
    requires |v.liquid| == |v.level| == |v.endless| == 7 && v.liquid[SELF]
  {
    LeftOver(v, k) < k.levelMax * AllCount(v) ||
    forall i: nat :: i < 7 && Changes(v, FullTargets(v, k), i) ==> Beside(v, k, FullTargets(v, k), i)
  }

  /** What a look at the node changes will be looked at again: no liquid sinks, and what flows returns. */
  predicate Returns(kinds: seq<Kind>, m: Nodes, p: Position, loopcount: nat)
    requires KindsKnown(kinds, m)
  {
    var kind := FirstKind(m, p, 7);
    && SwapOf(kinds, m, p) != Some(BOTTOM)
    && (SwapOf(kinds, m, p).None? && kind.Some? && kind.value < |kinds| && CanFlow(ViewAt(m, p, kind, loopcount), kind) ==>
          FlowReturns(ViewAt(m, p, kind, loopcount), kinds[kind.value]))
  }

  /** A cell meets a side of a side only at the node between. */
  lemma SideMeets(p: Position, j: nat, d: nat, i: nat)
    requires j < 7 && 2 <= d < 6 && i < 7
    ensures Cell(Cell(p, j), d) == Cell(p, i) <==> (j == SELF && d == i) || (2 <= j < 6 && d == Opposite(j) && i == SELF)
  {
  }

  lemma InSides(p: Position, v: View, j: nat, i: nat)
    requires |v.liquid| == 7 && i < 7 && j < 7 && v.liquid[i]
    ensures Cell(p, i) in Sides(p, v, j) <==> (j == SELF && 2 <= i < 6) || (2 <= j < 6 && i == SELF && v.liquid[Opposite(j)])
  {
    forall d: nat | 2 <= d < 6
      ensures Cell(Cell(p, j), d) == Cell(p, i) <==> (j == SELF && d == i) || (2 <= j < 6 && d == Opposite(j) && i == SELF)
    {
      SideMeets(p, j, d, i);
    }
    hide Cell;
    if j == SELF && 2 <= i < 6 {
      assert Cell(Cell(p, j), i) in Sides(p, v, j);
    }
    if 2 <= j < 6 && i == SELF && v.liquid[Opposite(j)] {
      assert Cell(Cell(p, j), Opposite(j)) in Sides(p, v, j);
    }
  }

  /** Which cells a flow with too much left over queues. */
  lemma OnlySides(p: Position, v: View, k: Kind, want: seq<int>, left: int, i: nat)
    requires |v.liquid| == |v.level| == |want| == 7 && i < 7 && v.liquid[i] && left >= k.levelMax * AllCount(v)
    ensures Cell(p, i) in WokenAround(p, v, k, want, left) <==> Beside(v, k, want, i)
  {
    hide Cell, Sides, OnStairs, AllCount;
    forall j: nat | j < 7
      ensures Cell(p, i) in WokenBy(p, v, k, j, want[j], left) <==>
              Changes(v, want, j) && OnStairs(v, k, want[j]) && ((j == SELF && 2 <= i < 6) || (2 <= j < 6 && i == SELF && v.liquid[Opposite(j)]))
    {
      InSides(p, v, j, i);
    }
  }

  lemma ChangedAt(m: Nodes, m': Nodes, p: Position, v: View, kind: nat, loopcount: nat, want: seq<int>, i: nat)
    requires Sees(m, p, Some(kind), loopcount, v) && Spread(m, m', p, v, kind, want) && i < 7
    ensures Changes(v, want, i) <==> Cell(p, i) in m && Cell(p, i) in m' && m'[Cell(p, i)] != m[Cell(p, i)]
  {
    assert Shown(v, i, Seen(m, Cell(p, i)), Some(kind), loopcount);
  }

  /** The nodes that a flow changes are all queued exactly if little is left over or all are beside. */
  lemma FlowCovers(m: Nodes, m': Nodes, p: Position, v: View, k: Kind, kind: nat, loopcount: nat, want: seq<int>, left: int)
    requires Sees(m, p, Some(kind), loopcount, v) && Spread(m, m', p, v, kind, want)
    ensures Covers(m, m', WokenAround(p, v, k, want, left)) <==>
            left < k.levelMax * AllCount(v) || forall i: nat :: i < 7 && Changes(v, want, i) ==> Beside(v, k, want, i)
  {
    var woken := WokenAround(p, v, k, want, left);
    hide Sees, WokenAround, Beside, AllCount;
    forall i: nat | i < 7
      ensures Changes(v, want, i) <==> Cell(p, i) in m && Cell(p, i) in m' && m'[Cell(p, i)] != m[Cell(p, i)]
      ensures Changes(v, want, i) && left < k.levelMax * AllCount(v) ==> Cell(p, i) in woken
      ensures Changes(v, want, i) && left >= k.levelMax * AllCount(v) ==> (Cell(p, i) in woken <==> Beside(v, k, want, i))
    {
      ChangedAt(m, m', p, v, kind, loopcount, want, i);
      if Changes(v, want, i) {
        if left < k.levelMax * AllCount(v) {
          QueuedItself(p, v, k, want, left, i);
        } else {
          OnlySides(p, v, k, want, left, i);
        }
      }
    }
    ChangedAround(m, m', p, v, kind, want);
    hide Spread, Changes, Cell, Cells;
  }

  lemma QueuedItself(p: Position, v: View, k: Kind, want: seq<int>, left: int, i: nat)
    requires |v.liquid| == |v.level| == |want| == 7 && i < 7 && Changes(v, want, i) && left < k.levelMax * AllCount(v)
    ensures Cell(p, i) in WokenAround(p, v, k, want, left)
  {
    assert Cell(p, i) in WokenBy(p, v, k, i, want[i], left);
    hide OnStairs, Sides, AllCount, Cell;
  }

  lemma ChangedAround(m: Nodes, m': Nodes, p: Position, v: View, kind: nat, want: seq<int>)
    requires Spread(m, m', p, v, kind, want)
    ensures forall q :: q in m && q in m' && m'[q] != m[q] ==> exists i: nat :: i < 7 && q == Cell(p, i)
  {
    hide Cell, After;
  }

  /** A liquid that flows never leaves so much over; a gas that does has filled all cells. */
  lemma FlowReturnsExactly(m: Nodes, m': Nodes, p: Position, v: View, k: Kind, kind: nat, s: Settings, t: Tick, want: seq<int>, a: Account)
    requires Sees(m, p, Some(kind), t.loopcount, v) && Spread(m, m', p, v, kind, want) && Distributed(v, k, s, t, want, a)
    ensures |v.liquid| == |v.level| == |v.endless| == 7 && v.liquid[SELF]
    ensures Covers(m, m', WokenAround(p, v, k, want, a.left)) <==> FlowReturns(v, k)
  {
    hide Sees, Spread, Distributed, Covers, WokenAround, Beside, AllCount, Accounted, LeftOver, FullTargets;
    LookAccounted(v, k, s, t, want, a);
    LeftIs(v, k, s, t, want, a);
    FlowCovers(m, m', p, v, k, kind, t.loopcount, want, a.left);
    if a.left >= k.levelMax * AllCount(v) {
      MuchLeft(v, k, s, t, want, a);
    }
  }

  lemma LeftIs(v: View, k: Kind, s: Settings, t: Tick, want: seq<int>, a: Account)
    requires |v.liquid| == |v.level| == |v.endless| == |want| == 7 && v.liquid[SELF] && Accounted(v, k, s, t, want, a)
    ensures a.left == LeftOver(v, k)
  {
    hide LeftOver, Poured, Supplied, LakeGain, Gained, AboveUnloaded;
  }

  lemma MuchLeft(v: View, k: Kind, s: Settings, t: Tick, want: seq<int>, a: Account)
    requires Distributed(v, k, s, t, want, a) && |v.liquid| == |v.level| == |v.endless| == 7 && v.liquid[SELF]
    requires a.left == LeftOver(v, k) >= k.levelMax * AllCount(v)
    ensures want == FullTargets(v, k)
  {
    hide LeftOver, Distributed, AllCount, FullTargets, Sum;
    DistributedFlows(v, k, s, t, want, a);
    assert k.levelMax >= 1;
    MoreForEach(k.levelMax, 1, AllCount(v));
    if k.gas {
      GasBrimful(v, k, s, t, want, a);
    } else {
      LiquidLossBound(v, k);
      assert false;
    }
  }

  /** A liquid always returns, and so does a gas without pressure. */
  lemma LiquidReturns(v: View, k: Kind)
    requires Flows(v, k) && (k.gas ==> k.pressure == 0)
    ensures |v.liquid| == |v.level| == |v.endless| == 7 && v.liquid[SELF] && FlowReturns(v, k)
  {
    FlowsFacts(v, k);
    assert k.levelMax >= 1;
    hide LeftOver, AllCount, Sum, Flows, Beside, FullTargets;
    MoreForEach(k.levelMax, 1, AllCount(v));
    if k.gas {
      NothingLostWithoutPressure(v, k);
    } else {
      LiquidLossBound(v, k);
    }
  }

  /** A gas of three levels or more has no last units on stairs when all cells are full: with too much
      left over it returns only if it changes nothing. */
  lemma ThickGasReturns(v: View, k: Kind)
    requires Flows(v, k) && k.levelMax >= 3
    ensures |v.liquid| == |v.level| == |v.endless| == 7 && v.liquid[SELF]
    ensures FlowReturns(v, k) <==>
            LeftOver(v, k) < k.levelMax * AllCount(v) || forall i: nat :: i < 7 && v.liquid[i] ==> v.level[i] == FullTarget(v, k, i)
  {
    FlowsFacts(v, k);
    FlowsCapacity(v, k);
    hide LeftOver, AllCount, Sum, Flows, k.Cap;
    var want := FullTargets(v, k);
    forall i: nat | i < 7 && v.liquid[i]
      ensures !OnStairs(v, k, want[i]) && want[i] >= 0
    {
    }
    assert forall i: nat :: i < 7 ==> !Beside(v, k, want, i);
    assert forall i: nat :: i < 7 && v.liquid[i] ==> (Changes(v, want, i) <==> v.level[i] != FullTarget(v, k, i));
    hide Beside, OnStairs, FullTarget;
  }

  lemma ViewIs(m: Nodes, p: Position, kind: Option<nat>, loopcount: nat, v: View)
    requires Sees(m, p, kind, loopcount, v)
    ensures v == ViewAt(m, p, kind, loopcount)
  {
    hide Sees, ViewAt;
    SeenOnce(m, p, kind, loopcount, v, ViewAt(m, p, kind, loopcount));
  }

  /** Every node that a look changes is looked at again exactly if no heavier liquid sinks into the cell
      below and what flows returns, whatever the kinds. */
  lemma LookWakesExactly(kinds: seq<Kind>, s: Settings, m: Nodes, m': Nodes, p: Position, t: Tick, r: Report)
    requires Looked(kinds, s, m, m', p, t, r)
    ensures ReportFits(kinds, r) && KindsKnown(kinds, m)
    ensures Covers(m, m', Wakes(kinds, p, r)) <==> Returns(kinds, m, p, t.loopcount)
  {
    hide KindsKnown, SwapOf, FirstKind, Sees, CanFlow, Distributed, Spread, ViewAt, FlowReturns;
    match r
    case Nothing(v) => ViewIs(m, p, FirstKind(m, p, 7), t.loopcount, v);
    case Rose => hide WokenAround;
    case Sank => SunkNotWoken(kinds, m, m', p);
    case Flowed(kind, v, want, a) =>
      ViewIs(m, p, Some(kind), t.loopcount, v);
      FlowReturnsExactly(m, m', p, v, kinds[kind], kind, s, t, want, a);
      FlowedFits(kinds, m, m', p, r);
  }

  lemma FlowedFits(kinds: seq<Kind>, m: Nodes, m': Nodes, p: Position, r: Report)
    requires r.Flowed? && r.kind < |kinds| && Spread(m, m', p, r.view, r.kind, r.want)
    ensures ReportFits(kinds, r) && Wakes(kinds, p, r) == WokenAround(p, r.view, kinds[r.kind], r.want, r.account.left)
  {
    hide WokenAround;
  }

  // ----- a gas under pressure that is not looked at again -----

  const HERE := Position(0, 0, 0)
  const THERE := Position(0, 0, 1)

  function PressedGas(): Kind {
    Kind(8, 31, 23, true, false, 1, None)
  }

  /** Two nodes full of it, everything around them closed. */
  function TwoFull(): Nodes {
    map[HERE := Fluid(0, 31, false), THERE := Fluid(0, 31, false)]
  }

  function OneFull(): Nodes {
    map[HERE := Fluid(0, 31, false), THERE := Fluid(0, 8, false)]
  }

  function TwoCells(side: int): (w: seq<int>)
    ensures |w| == 7
  {
    [-1, 31, side, -1, -1, -1, -1]
  }

  function TwoFullView(): (v: View)
    ensures |v.liquid| == |v.level| == |v.endless| == 7 && v.liquid[SELF]
  {
    View([false, true, true, false, false, false, false], TwoCells(31),
         [false, false, false, false, false, false, false], false)
  }

  lemma TwoFullSeen(loopcount: nat)
    ensures Sees(TwoFull(), HERE, Some(0), loopcount, TwoFullView())
    ensures FirstKind(TwoFull(), HERE, 7) == Some(0)
  {
    var m := TwoFull();
    assert Cell(HERE, 2) == THERE;
    assert forall i: nat :: i < 7 && i != 1 && i != 2 ==> Cell(HERE, i) !in m;
    FirstKindHere(m, 7);
  }

  lemma {:induction false} FirstKindHere(m: Nodes, n: nat)
    requires 1 <= n <= 7 && HERE in m && m[HERE] == Fluid(0, 31, false)
    ensures FirstKind(m, HERE, n) == Some(0)
  {
    if n > 1 {
      FirstKindHere(m, n - 1);
    } else {
      assert Cell(HERE, EXPLORE[0]) == HERE;
      assert FirstKind(m, HERE, 0) == None;
    }
  }

  lemma TwoFullFlows()
    ensures var v, k := TwoFullView(), PressedGas();
            && k.Cap() == 31 && Flows(v, k) && Sum(v.level) == 62 && AllCount(v) == 2 && LeftOver(v, k) == 23
  {
  }

  lemma EvenSettled(v: View, k: Kind, t: Tick, w: seq<int>)
    requires |v.liquid| == |w| == 7 && k.floatHeight.None? && forall i: nat :: i < 7 && v.liquid[i] ==> w[i] == k.levelMax
    ensures GasSettled(v, k, t, w)
  {
    hide Preference;
  }

  function EvenTargets(): (w: seq<int>)
    ensures |w| == 7
  {
    [-1, 8, 8, -1, -1, -1, -1]
  }

  lemma TwoFullFilled(t: Tick)
    ensures GasFilled(TwoFullView(), PressedGas(), t, EvenTargets()) && Sum(EvenTargets()) == 16
  {
    TwoFullFlows();
    EvenSettled(TwoFullView(), PressedGas(), t, EvenTargets());
    hide GasSettled;
  }

  lemma TwoFullTopped()
    ensures Topped(TwoFullView(), PressedGas(), Stage(EvenTargets(), 46)) == Stage(TwoCells(8), 23)
  {
  }

  lemma TwoFullRestored(s: Settings, t: Tick)
    ensures Restored(TwoFullView(), PressedGas(), s, t, 0, TwoCells(8)) == TwoCells(8)
  {
    var v, k := TwoFullView(), PressedGas();
    forall i: nat | i < 7
      ensures Replenished(v, k, s, t, 0, i, TwoCells(8)[i]) == TwoCells(8)[i]
    {
      GasNeverFloods(v, k, s, t, 0, i);
      hide FloodsFast;
    }
    hide Replenished;
  }

  lemma TwoFullDistributed(s: Settings, t: Tick)
    ensures Distributed(TwoFullView(), PressedGas(), s, t, TwoCells(8), Account(0, 23, 0))
  {
    var v, k, w := TwoFullView(), PressedGas(), EvenTargets();
    TwoFullFlows();
    TwoFullFilled(t);
    TwoFullTopped();
    TwoFullRestored(s, t);
    assert Gained(TwoCells(8), TwoCells(8)) == 0;
    hide GasFilled, Flows, Topped, Restored, Sum, Gained, TwoFullView, TwoCells, EvenTargets;
    assert Finished(v, k, s, t, 0, Stage(w, Sum(v.level) - Sum(w)), 0, 0, TwoCells(8), Account(0, 23, 0));
  }

  lemma TwoFullSpread()
    ensures Spread(TwoFull(), OneFull(), HERE, TwoFullView(), 0, TwoCells(8))
  {
    var m, m' := TwoFull(), OneFull();
    assert Cell(HERE, 1) == HERE && Cell(HERE, 2) == THERE && HERE in Cells(HERE, 7) && THERE in Cells(HERE, 7);
    forall i: nat | i < 7 && Cell(HERE, i) in m
      ensures m'[Cell(HERE, i)] == After(TwoFullView(), m[Cell(HERE, i)], 0, i, TwoCells(8)[i])
    {
      assert i == 1 || i == 2;
    }
  }

  /** The gas fills the node and leaves the side at its normal level. The side has changed, but as 23
      units are left over, it is not queued. */
  lemma GasSideNotWoken(s: Settings, t: Tick)
    ensures var r := Flowed(0, TwoFullView(), TwoCells(8), Account(0, 23, 0));
            && Looked([PressedGas()], s, TwoFull(), OneFull(), HERE, t, r)
            && ReportFits([PressedGas()], r) && !Covers(TwoFull(), OneFull(), Wakes([PressedGas()], HERE, r))
  {
    hide HERE, Sees, FirstKind, Distributed, Spread, SwapOf, Flows, FlowReturns, TwoFull, OneFull, TwoFullView, TwoCells, PressedGas,
      Wakes, Sum, Covers, KindsKnown, WokenAround, AllCount, LeftOver;
    var kinds, r := [PressedGas()], Flowed(0, TwoFullView(), TwoCells(8), Account(0, 23, 0));
    TwoFullSeen(t.loopcount);
    TwoFullFlows();
    TwoFullDistributed(s, t);
    TwoFullSpread();
    TwoFullStays(kinds);
    TwoFullNotReturns();
    FlowReturnsExactly(TwoFull(), OneFull(), HERE, TwoFullView(), kinds[0], 0, s, t, TwoCells(8), Account(0, 23, 0));
    FlowedFits(kinds, TwoFull(), OneFull(), HERE, r);
  }

  lemma TwoFullStays(kinds: seq<Kind>)
    requires |kinds| == 1
    ensures KindsKnown(kinds, TwoFull()) && SwapOf(kinds, TwoFull(), HERE) == None
  {
    assert Cell(HERE, 0) !in TwoFull() && Cell(HERE, 6) !in TwoFull();
  }

  lemma TwoFullNotReturns()
    ensures !FlowReturns(TwoFullView(), PressedGas())
  {
    var v, k := TwoFullView(), PressedGas();
    TwoFullFlows();
    hide LeftOver, AllCount, Sum, Flows;
    ThickGasReturns(v, k);
    assert FullTarget(v, k, 2) == 8 && v.level[2] == 31 && v.liquid[2];
    hide FlowReturns, FullTarget;
  }

  lemma SunkNotWoken(kinds: seq<Kind>, m: Nodes, m': Nodes, p: Position)
    requires KindsKnown(kinds, m) && SwapOf(kinds, m, p) == Some(BOTTOM) && Exchanged(m, m', p, Cell(p, BOTTOM))
    ensures !Covers(m, m', {Cell(p, BOTTOM)})
  {
    assert m'[p] != m[p] && p != Cell(p, BOTTOM);
  }

  /** Every node that a look of the run has changed is in the next queue, if what the look changes returns. */
  lemma RunWakesChanged(kinds: seq<Kind>, s: Settings, queue: seq<Position>, loopRand: nat, winds: seq<Option<Side>>,
                        states: seq<Nodes>, reports: seq<Report>, i: nat)
    requires IsRun(kinds, s, queue, loopRand, winds, states, reports) && i < |reports|
    requires AllFit(kinds, reports)
    ensures KindsKnown(kinds, states[i])
    ensures Returns(kinds, states[i], queue[i], i + 1) ==> Covers(states[i], states[i + 1], RunWakes(kinds, queue, reports))
  {
    RunWakesEach(kinds, queue, reports, i);
    hide Looked, Wakes, RunWakes, AllFit, SwapOf, Returns;
    LookWakesExactly(kinds, s, states[i], states[i + 1], queue[i], TickAt(queue, loopRand, winds, i), reports[i]);
  }

  lemma {:induction false} RunWakesEach(kinds: seq<Kind>, queue: seq<Position>, reports: seq<Report>, i: nat)
    requires i < |reports| <= |queue| && AllFit(kinds, reports)
    ensures ReportFits(kinds, reports[i]) && Wakes(kinds, queue[i], reports[i]) <= RunWakes(kinds, queue, reports)
  {
    WakesSplit(kinds, queue, reports);
    hide *;
    if i < |reports| - 1 {
      RunWakesEach(kinds, queue, reports[..|reports| - 1], i);
    }
  }

  lemma WakesSplit(kinds: seq<Kind>, queue: seq<Position>, reports: seq<Report>)
    requires 0 < |reports| <= |queue| && AllFit(kinds, reports)
    ensures var n := |reports|;
            && AllFit(kinds, reports[..n - 1]) && ReportFits(kinds, reports[n - 1])
            && RunWakes(kinds, queue, reports) == RunWakes(kinds, queue, reports[..n - 1]) + Wakes(kinds, queue[n - 1], reports[n - 1])
  {
    hide ReportFits, Wakes;
  }

  /** No node is endless. */
  ghost predicate NoEndless(m: Nodes) {
    forall p :: p in m ==> match m[p] case Air => true case Solid(_, mark) => !mark case Fluid(_, _, endless) => !endless
  }

  /** Lakes are not levelled, and caves not flooded. */
  predicate Calm(s: Settings) {
    s.relax == 0 && s.fastFlood == 0
  }

  /** What a look loses of a kind for want of room. */
  function Lost(kinds: seq<Kind>, r: Report, kind: nat): nat {
    if r.Flowed? && r.kind == kind < |kinds| && |r.view.liquid| == |r.view.level| == 7 && r.view.liquid[SELF]
    then LeftOver(r.view, kinds[kind]) else 0
  }

  lemma CalmLook(kinds: seq<Kind>, s: Settings, m: Nodes, m': Nodes, p: Position, t: Tick, r: Report, kind: nat)
    requires Looked(kinds, s, m, m', p, t, r) && NoEndless(m) && Calm(s) && t.y == p.y <= s.waterLevel
    ensures NoEndless(m') && Change(r, kind) == 0 - Lost(kinds, r, kind)
    ensures kind < |kinds| && kinds[kind].pressure == 0 ==> Lost(kinds, r, kind) == 0
  {
    hide Sum, Sees, Distributed, FirstKind, SwapOf, CanFlow, Cell, Spread, NoEndless, LeftOver;
    match r
    case Nothing(_) =>
    case Sank => ExchangeKeepsCalm(m, m', p, Cell(p, BOTTOM));
    case Rose => ExchangeKeepsCalm(m, m', p, Cell(p, TOP));
    case Flowed(k, v, want, a) =>
      CalmView(m, p, k, t.loopcount, v);
      CalmAccount(v, kinds[k], s, t, want, a);
      SpreadKeepsCalm(m, m', p, v, k, want);
  }

  lemma ExchangeKeepsCalm(m: Nodes, m': Nodes, p: Position, q: Position)
    requires Exchanged(m, m', p, q) && NoEndless(m)
    ensures NoEndless(m')
  {
  }

  lemma SpreadKeepsCalm(m: Nodes, m': Nodes, p: Position, v: View, kind: nat, want: seq<int>)
    requires Spread(m, m', p, v, kind, want) && NoEndless(m)
    ensures NoEndless(m')
  {
    hide Cell;
    forall q | q in m'
      ensures match m'[q] case Air => true case Solid(_, mark) => !mark case Fluid(_, _, endless) => !endless
    {
      assert q in m;
      if q in Cells(p, 7) {
        var i: nat :| i < 7 && q == Cell(p, i);
        assert m'[q] == After(v, m[q], kind, i, want[i]);
      }
    }
  }

  lemma CalmView(m: Nodes, p: Position, kind: nat, loopcount: nat, v: View)
    requires NoEndless(m) && Sees(m, p, Some(kind), loopcount, v)
    ensures forall i :: 0 <= i < 7 ==> !v.endless[i]
  {
    forall i: nat | i < 7
      ensures !v.endless[i]
    {
      assert Shown(v, i, Seen(m, Cell(p, i)), Some(kind), loopcount);
    }
  }

  lemma CalmAccount(v: View, k: Kind, s: Settings, t: Tick, want: seq<int>, a: Account)
    requires Distributed(v, k, s, t, want, a) && Calm(s) && t.y <= s.waterLevel
    requires forall i :: 0 <= i < 7 ==> i < |v.endless| ==> !v.endless[i]
    ensures |v.liquid| == |v.level| == 7 && v.liquid[SELF] && a.Change() == 0 - LeftOver(v, k)
    ensures k.pressure == 0 ==> LeftOver(v, k) == 0
  {
    LookAccounted(v, k, s, t, want, a);
    if k.pressure == 0 {
      NothingLostWithoutPressure(v, k);
    }
    hide LeftOver, Finished, GasFilled, Portioned, Settle, LakeSurface, NearWaterLevel, MadeAt, Flows;
  }

  /** What a run loses of a kind for want of room. */
  function LostInRun(kinds: seq<Kind>, reports: seq<Report>, kind: nat): nat {
    if reports == [] then 0
    else LostInRun(kinds, reports[..|reports| - 1], kind) + Lost(kinds, reports[|reports| - 1], kind)
  }

  /** In a calm map without endless nodes, a run over nodes at or below the water level keeps the
      volume of every liquid that is not under pressure, and of the others all but what its looks
      find no room for. */
  lemma {:induction false} CalmRunConserves(kinds: seq<Kind>, s: Settings, queue: seq<Position>, loopRand: nat,
                                            winds: seq<Option<Side>>, states: seq<Nodes>, reports: seq<Report>, kind: nat)
    requires IsRun(kinds, s, queue, loopRand, winds, states, reports) && ValidNodes(kinds, states[0])
    requires NoEndless(states[0]) && Calm(s) && forall p :: p in queue ==> p.y <= s.waterLevel
    ensures NoEndless(states[|reports|]) && Ledger(reports, kind) == 0 - LostInRun(kinds, reports, kind)
    ensures Volume(states[|reports|], kind) + LostInRun(kinds, reports, kind) == Volume(states[0], kind)
    ensures kind < |kinds| && kinds[kind].pressure == 0 ==> LostInRun(kinds, reports, kind) == 0
  {
    RunLedger(kinds, s, queue, loopRand, winds, states, reports, kind);
    var n := |reports|;
    if n > 0 {
      RunFront(kinds, s, queue, loopRand, winds, states, reports);
      hide Looked, Volume, ValidNodes, Change, NoEndless, Calm, IsRun, Lost;
      CalmRunConserves(kinds, s, queue, loopRand, winds, states[..n], reports[..n - 1], kind);
      CalmLook(kinds, s, states[n - 1], states[n], queue[n - 1], TickAt(queue, loopRand, winds, n - 1), reports[n - 1], kind);
    }
  }

  // ----- what is there determines what happens -----

  lemma SeenOnce(m: Nodes, p: Position, kind: Option<nat>, loopcount: nat, v: View, v': View)
    requires Sees(m, p, kind, loopcount, v) && Sees(m, p, kind, loopcount, v')
    ensures v == v'
  {
    forall i: nat | i < 7
      ensures v.liquid[i] == v'.liquid[i] && v.level[i] == v'.level[i] && v.endless[i] == v'.endless[i]
    {
      assert Shown(v, i, Seen(m, Cell(p, i)), kind, loopcount) && Shown(v', i, Seen(m, Cell(p, i)), kind, loopcount);
    }
    assert v.liquid == v'.liquid && v.level == v'.level && v.endless == v'.endless;
  }

  lemma SpreadOnce(m: Nodes, m1: Nodes, m2: Nodes, p: Position, v: View, kind: nat, want: seq<int>)
    requires Spread(m, m1, p, v, kind, want) && Spread(m, m2, p, v, kind, want)
    ensures m1 == m2
  {
    hide Cell, After;
    forall q | q in m
      ensures m1[q] == m2[q]
    {
      if q in Cells(p, 7) {
        var i: nat :| i < 7 && q == Cell(p, i);
      }
    }
  }

  /** The map, the moment and the wind determine what a look reports and what it makes of the map. */
  lemma LookIsDetermined(kinds: seq<Kind>, s: Settings, m: Nodes, p: Position, t: Tick, m1: Nodes, r1: Report, m2: Nodes, r2: Report)
    requires Looked(kinds, s, m, m1, p, t, r1) && Looked(kinds, s, m, m2, p, t, r2)
    ensures r1 == r2 && m1 == m2
  {
    hide SwapOf, FirstKind, Sees, Distributed, Spread, CanFlow, KindsKnown, Sum;
    if r1.Nothing? || r1.Flowed? {
      SeenOnce(m, p, FirstKind(m, p, 7), t.loopcount, r1.view, r2.view);
    }
    if r1.Flowed? && r2.Flowed? {
      OneOutcome(r1.view, kinds[r1.kind], s, t, r1.want, r1.account, r2.want, r2.account);
      SpreadOnce(m, m1, m2, p, r1.view, r1.kind, r1.want);
    }
  }

  /** So two runs over the same queue that start from the same map are the same run. */
  lemma {:induction false} RunIsDetermined(kinds: seq<Kind>, s: Settings, queue: seq<Position>, loopRand: nat,
                                           winds: seq<Option<Side>>, states1: seq<Nodes>, reports1: seq<Report>,
                                           states2: seq<Nodes>, reports2: seq<Report>)
    requires IsRun(kinds, s, queue, loopRand, winds, states1, reports1) && IsRun(kinds, s, queue, loopRand, winds, states2, reports2)
    requires |reports1| == |reports2| && states1[0] == states2[0]
    ensures states1 == states2 && reports1 == reports2
  {
    var n := |reports1|;
    RunShape(kinds, s, queue, loopRand, winds, states1, reports1);
    RunShape(kinds, s, queue, loopRand, winds, states2, reports2);
    hide *;
    if n > 0 {
      RunFront(kinds, s, queue, loopRand, winds, states1, reports1);
      RunFront(kinds, s, queue, loopRand, winds, states2, reports2);
      RunIsDetermined(kinds, s, queue, loopRand, winds, states1[..n], reports1[..n - 1], states2[..n], reports2[..n - 1]);
      SameEnd(kinds, s, states1, reports1, states2, reports2, queue[n - 1], TickAt(queue, loopRand, winds, n - 1));
    }
  }

  lemma RunShape(kinds: seq<Kind>, s: Settings, queue: seq<Position>, loopRand: nat, winds: seq<Option<Side>>,
                 states: seq<Nodes>, reports: seq<Report>)
    requires IsRun(kinds, s, queue, loopRand, winds, states, reports)
    ensures |states| == |reports| + 1 && |reports| <= |queue| == |winds|
  {
    hide Looked;
  }

  lemma SameEnd(kinds: seq<Kind>, s: Settings, states1: seq<Nodes>, reports1: seq<Report>, states2: seq<Nodes>,
                reports2: seq<Report>, p: Position, t: Tick)
    requires 0 < |reports1| == |reports2| && |states1| == |states2| == |reports1| + 1
    requires states1[..|reports1|] == states2[..|reports1|] && reports1[..|reports1| - 1] == reports2[..|reports1| - 1]
    requires var n := |reports1|; Looked(kinds, s, states1[n - 1], states1[n], p, t, reports1[n - 1])
    requires var n := |reports1|; Looked(kinds, s, states2[n - 1], states2[n], p, t, reports2[n - 1])
    ensures states1 == states2 && reports1 == reports2
  {
    var n := |reports1|;
    hide *;
    assert states1[n - 1] == states1[..n][n - 1] && states2[n - 1] == states2[..n][n - 1];
    LookIsDetermined(kinds, s, states1[n - 1], p, t, states1[n], reports1[n - 1], states2[n], reports2[n - 1]);
    SameBeginning(states1, states2, n);
    SameBeginning(reports1, reports2, n - 1);
  }

  lemma SameBeginning<T>(a: seq<T>, b: seq<T>, n: nat)
    requires |a| == |b| == n + 1 && a[..n] == b[..n] && a[n] == b[n]
    ensures a == b
  {
    assert a == a[..n] + [a[n]] && b == b[..n] + [b[n]];
  }

  class LiquidMap {
    const kinds: seq<Kind>
    const settings: Settings
    var nodes: Nodes
    /** The nodes to look at in this run, and those to look at in the next. */
    var queue: seq<Position>
    var reflow: seq<Position>

    ghost predicate Valid()
      reads this
    {
      (forall k :: k in kinds ==> k.Proper()) && ValidNodes(kinds, nodes)
    }

    constructor (kinds: seq<Kind>, settings: Settings, nodes: Nodes)
      requires (forall k :: k in kinds ==> k.Proper()) && ValidNodes(kinds, nodes)
      ensures Valid() && this.kinds == kinds && this.settings == settings && this.nodes == nodes
      ensures queue == [] && reflow == []
    {
      this.kinds, this.settings, this.nodes, queue, reflow := kinds, settings, nodes, [], [];
    }

    /** Looks at the seven cells in the order of exploration, up to a liquid that has to change places. */
    method Collect(p: Position, loopcount: nat) returns (kind: Option<nat>, v: View, total: nat, swap: Option<nat>)
      requires Valid()
      ensures swap == SwapOf(kinds, nodes, p)
      ensures swap.None? ==> kind == FirstKind(nodes, p, 7) && Sees(nodes, p, kind, loopcount, v) && total == Sum(v.level)
    {
      v := View([false, false, false, false, false, false, false], [-1, -1, -1, -1, -1, -1, -1],
                [false, false, false, false, false, false, false], Cell(p, BOTTOM) in nodes);
      kind, total, swap := None, 0, None;
      WalkBegins(nodes, p, loopcount, v);
      assert KindsKnown(kinds, nodes) && |EXPLORE| == 7 && forall e :: 0 <= e < 7 ==> EXPLORE[e] < 7;
      hide EXPLORE, Valid, KindsKnown, Sum, Enters, LevelAt, EndlessAt, Walked, Weight, Seen, KindNext, Cell, Show, SwapsAt, SwapOf, ValidNodes, FirstKind, Sees;
      for e := 0 to 7
        invariant |v.liquid| == |v.level| == |v.endless| == 7 && Walked(nodes, p, kind, loopcount, v, total, e)
        invariant swap.None? && forall d :: 0 <= d < e ==> !SwapsAt(kinds, nodes, p, d)
      {
        var i := EXPLORE[e];
        var n := Seen(nodes, Cell(p, i));
        WalkNext(nodes, p, kind, loopcount, v, total, e);
        kind := KindNext(kind, n);
        if SwapsAt(kinds, nodes, p, e) {
          SwapFound(kinds, nodes, p, e);
          swap := Some(i);
          return;
        }
        var level := LevelAt(n, kind, loopcount);
        v := Show(v, i, n, kind, loopcount);
        if level > 0 {
          total := total + level;
        }
      }
      SwapNone(kinds, nodes, p);
      WalkEnds(nodes, p, kind, loopcount, v, total);
    }

    /** The last units on stairs: the sides of the cell are looked at again. */
    method WakeSides(p: Position, v: View, i: nat, t: Tick)
      requires i < 7 && |v.liquid| == 7
      modifies this`reflow
      ensures old(reflow) <= reflow && Elements(reflow) == Elements(old(reflow)) + Sides(p, v, i)
    {
      var row := Row(t.Turn(5));
      SidesByOrder(p, v, i, row);
      hide Elements, Row, IsRow, Cell, Sides, SidesSoFar;
      for j := SELF + 1 to TOP
        invariant old(reflow) <= reflow && Elements(reflow) == Elements(old(reflow)) + SidesSoFar(p, v, i, row, j)
      {
        SidesNext(p, v, i, row, j);
        if v.liquid[row[j]] {
          ElementsGrow(reflow, Cell(Cell(p, i), row[j]));
          reflow := reflow + [Cell(Cell(p, i), row[j])];
        }
      }
    }

    /** Writes the target of one cell. */
    method WriteCell(p: Position, v: View, kind: nat, i: nat, want: seq<int>, left: int, t: Tick)
      requires kind < |kinds| && i < 7 && |v.liquid| == |v.level| == |want| == 7 && (v.liquid[i] ==> Cell(p, i) in nodes)
      modifies this`nodes, this`reflow
      ensures old(reflow) <= reflow
      ensures Elements(reflow) == Elements(old(reflow)) + WokenBy(p, v, kinds[kind], i, want[i], left)
      ensures nodes == if Cell(p, i) in old(nodes)
                       then old(nodes)[Cell(p, i) := After(v, old(nodes)[Cell(p, i)], kind, i, want[i])] else old(nodes)
    {
      hide Elements, Sides, AllCount, Cell;
      if want[i] < 0 || !v.liquid[i] {
        return;
      }
      if want[i] != v.level[i] && v.level[TOP] <= 0 && (!v.liquid[BOTTOM] || kinds[kind].levelMax == 1) &&
         1 <= want[i] <= 2 {
        WakeSides(p, v, i, t);
      }
      if v.level[i] == want[i] {
        return;
      }
      var c := Cell(p, i);
      nodes := nodes[c := Written(nodes[c], kind, want[i])];
      if left < kinds[kind].levelMax * AllCount(v) {
        ElementsGrow(reflow, c);
        reflow := reflow + [c];
      }
    }

    /** Writes the targets of all cells; cells that changed are looked at again in the next run. */
    method WriteBack(p: Position, v: View, kind: nat, want: seq<int>, left: int, t: Tick)
      requires Valid() && kind < |kinds| && Sees(nodes, p, Some(kind), t.loopcount, v) && Targets(v, want, kinds[kind].Cap())
      modifies this`nodes, this`reflow
      ensures Spread(old(nodes), nodes, p, v, kind, want) && old(reflow) <= reflow
      ensures Elements(reflow) == Elements(old(reflow)) + WokenAround(p, v, kinds[kind], want, left)
    {
      var row := Row(t.Turn(4));
      NoneWritten(nodes, p, v, kind, t.loopcount, want, left, row, kinds[kind]);
      AnyOrderWakes(p, v, kinds[kind], want, left, row);
      assert IsRow(row) && |v.liquid| == |v.level| == |want| == |row| == 7;
      hide *;
      for j := 0 to 7
        invariant Elements(reflow) == Elements(old(reflow)) + WokenSoFar(p, v, kinds[kind], want, left, row, j)
        invariant WrittenSoFar(old(nodes), nodes, p, v, kind, want, row, j) && old(reflow) <= reflow
      {
        WriteNext(old(nodes), nodes, p, v, kind, want, row, j);
        HeldBefore(old(nodes), p, v, kind, t.loopcount, row[j]);
        WokenNext(Elements(old(reflow)), p, v, kinds[kind], want, left, row, j);
        WriteCell(p, v, kind, row[j], want, left, t);
      }
      AllWritten(old(nodes), nodes, p, v, kind, want, row);
    }

    /** The new targets around a node. */
    method Retarget(p: Position, kind: nat, v: View, total: nat, t: Tick) returns (want: seq<int>, a: Account)
      requires Valid() && kind < |kinds| && Sees(nodes, p, Some(kind), t.loopcount, v)
      requires CanFlow(v, Some(kind)) && total == Sum(v.level)
      ensures Distributed(v, kinds[kind], settings, t, want, a) && |v.liquid| == |v.level| == |want| == 7
      ensures Targets(v, want, kinds[kind].Cap())
    {
      SeenIsValid(kinds, nodes, p, kind, t.loopcount, v);
      assert kinds[kind] in kinds && Flows(v, kinds[kind]) && v.liquid[SELF];
      var none := Empty(v);
      hide *;
      var targets := new int[7](i requires 0 <= i < 7 => none[i]);
      assert targets[..] == none;
      a := Distribute7(v, kinds[kind], settings, t, targets, total);
      want := targets[..];
      LookConserves(v, kinds[kind], settings, t, want, a);
    }

    /** The liquid around the node is redistributed. */
    method Flow(p: Position, kind: nat, v: View, total: nat, t: Tick) returns (r: Report)
      requires Valid() && kind < |kinds| && Sees(nodes, p, Some(kind), t.loopcount, v)
      requires CanFlow(v, Some(kind)) && total == Sum(v.level)
      modifies this`nodes, this`reflow
      ensures r.Flowed? && r.kind == kind && r.view == v
      ensures Distributed(v, kinds[kind], settings, t, r.want, r.account)
      ensures Spread(old(nodes), nodes, p, v, kind, r.want) && old(reflow) <= reflow
      ensures ReportFits(kinds, r) && Elements(reflow) == Elements(old(reflow)) + Wakes(kinds, p, r)
    {
      hide *;
      var want, a := Retarget(p, kind, v, total, t);
      FlowedWakes(kinds, p, kind, v, want, a);
      WriteBack(p, v, kind, want, a.left, t);
      r := Flowed(kind, v, want, a);
    }

    /** Exchanges the node with the cell below or above. */
    method Swap(p: Position, i: nat) returns (r: Report)
      requires Valid() && SwapOf(kinds, nodes, p) == Some(i)
      modifies this`nodes, this`reflow
      ensures r == if i == BOTTOM then Sank else Rose
      ensures Exchanged(old(nodes), nodes, p, if i == BOTTOM then Cell(p, BOTTOM) else Cell(p, TOP)) && old(reflow) <= reflow
      ensures Elements(reflow) == Elements(old(reflow)) + Wakes(kinds, p, r)
      ensures r.Sank? ==> reflow == old(reflow) + [Cell(p, BOTTOM), Cell(p, BOTTOM)]
    {
      SwapIsLoaded(kinds, nodes, p);
      hide SwapsAt, Cell, KindsKnown, ValidNodes, Elements;
      var q := Cell(p, i);
      nodes := nodes[p := nodes[q]][q := nodes[p]];
      if i == BOTTOM {
        ElementsGrow(reflow, q);
        ElementsGrow(reflow + [q], q);
        reflow := reflow + [q] + [q];
        r := Sank;
      } else {
        ElementsGrow(reflow, p);
        ElementsGrow(reflow + [p], q);
        reflow := reflow + [p] + [q];
        r := Rose;
      }
    }

    /** Looks at one node of the queue. */
    method Look(p: Position, t: Tick) returns (r: Report)
      requires Valid()
      modifies this`nodes, this`reflow
      ensures Valid() && Looked(kinds, settings, old(nodes), nodes, p, t, r) && old(reflow) <= reflow
      ensures ReportFits(kinds, r) && Elements(reflow) == Elements(old(reflow)) + Wakes(kinds, p, r)
      ensures r.Sank? ==> reflow == old(reflow) + [Cell(p, BOTTOM), Cell(p, BOTTOM)]
    {
      hide SwapsAt, Cell, Sum, Distributed, Spread, FirstKind, Shown, Exchanged, Elements, WokenAround;
      var kind, v, total, swap := Collect(p, t.loopcount);
      ghost var before := nodes;
      if swap.Some? {
        r := Swap(p, swap.value);
      } else if !CanFlow(v, kind) {
        r := Nothing(v);
      } else {
        FirstKindKnown(kinds, nodes, p, 7);
        r := Flow(p, kind.value, v, total, t);
      }
      LookLedger(kinds, settings, before, nodes, p, t, r, 0);
    }

    /** One run: every queued node is looked at once; what has to be looked at again is queued for the
        next run, each node once. */
    method Run(loopRand: nat, winds: seq<Option<Side>>) returns (reports: seq<Report>, ghost states: seq<Nodes>)
      requires Valid() && |winds| == |queue|
      modifies this
      ensures Valid() && |reports| == |old(queue)| && IsRun(kinds, settings, old(queue), loopRand, winds, states, reports)
      ensures states[0] == old(nodes) && states[|reports|] == nodes
      ensures forall kind: nat :: Volume(nodes, kind) == Volume(old(nodes), kind) + Ledger(reports, kind)
      ensures Distinct(queue) && reflow == []
      ensures AllFit(kinds, reports) && Elements(queue) == RunWakes(kinds, old(queue), reports)
    {
      reports, states, reflow := [], [nodes], [];
      var loopcount := 0;
      assert Elements([]) == {} && RunWakes(kinds, queue, []) == {} && AllFit(kinds, []);
      assert IsRun(kinds, settings, queue, loopRand, winds, states, []);
      hide *;
      for i := 0 to |queue|
        invariant Valid() && queue == old(queue) && loopcount == i == |reports|
        invariant IsRun(kinds, settings, queue, loopRand, winds, states, reports)
        invariant states[0] == old(nodes) && states[i] == nodes
        invariant AllFit(kinds, reports) && Elements(reflow) == RunWakes(kinds, queue, reports)
      {
        loopcount := loopcount + 1;
        var r := Look(queue[i], Tick(loopcount, loopRand, |queue|, queue[i].y, winds[i]));
        RunWakesGrows(kinds, queue, reports, r);
        RunGrows(kinds, settings, queue, loopRand, winds, states, reports, nodes, r);
        reports, states := reports + [r], states + [nodes];
      }
      forall kind: nat
        ensures Volume(nodes, kind) == Volume(old(nodes), kind) + Ledger(reports, kind)
      {
        RunLedger(kinds, settings, old(queue), loopRand, winds, states, reports, kind);
      }
      Requeue();
    }

    /** The nodes to look at again become the next queue, without repetition. */
    method Requeue()
      modifies this`queue, this`reflow
      ensures Distinct(queue) && reflow == [] && (forall p :: p in queue <==> p in old(reflow))
      ensures Elements(queue) == Elements(old(reflow))
    {
      queue := [];
      var seen: set<Position> := {};
      for i := 0 to |reflow|
        invariant reflow == old(reflow) && Distinct(queue)
        invariant forall p :: p in queue <==> p in reflow[..i]
        invariant forall p :: p in seen <==> p in queue
      {
        if reflow[i] !in seen {
          seen := seen + {reflow[i]};
          queue := queue + [reflow[i]];
        }
      }
      reflow := [];
    }
  }

  lemma RunGrows(kinds: seq<Kind>, s: Settings, queue: seq<Position>, loopRand: nat, winds: seq<Option<Side>>,
                 states: seq<Nodes>, reports: seq<Report>, m: Nodes, r: Report)
    requires IsRun(kinds, s, queue, loopRand, winds, states, reports) && |reports| < |queue|
    requires var i := |reports|; Looked(kinds, s, states[i], m, queue[i], TickAt(queue, loopRand, winds, i), r)
    ensures IsRun(kinds, s, queue, loopRand, winds, states + [m], reports + [r])
  {
    var states', reports' := states + [m], reports + [r];
    hide Looked;
    forall i: nat | i < |reports'|
      ensures Looked(kinds, s, states'[i], states'[i + 1], queue[i], TickAt(queue, loopRand, winds, i), reports'[i])
    {
      if i < |reports| {
        assert reports'[i] == reports[i];
      }
    }
  }

  lemma SwapIsLoaded(kinds: seq<Kind>, m: Nodes, p: Position)
    requires KindsKnown(kinds, m) && SwapOf(kinds, m, p).Some?
    ensures var i := SwapOf(kinds, m, p).value;
            (i == BOTTOM || i == TOP) && p in m && Cell(p, i) in m && Cell(p, i) != p
  {
  }

  lemma {:induction false} FirstKindKnown(kinds: seq<Kind>, m: Nodes, p: Position, n: nat)
    requires KindsKnown(kinds, m) && n <= 7
    ensures FirstKind(m, p, n).Some? ==> FirstKind(m, p, n).value < |kinds|
  {
    if n > 0 {
      FirstKindKnown(kinds, m, p, n - 1);
    }
  }

  /** The cells served before place `j` of the order have been written, nothing else. */
  ghost predicate WrittenSoFar(m: Nodes, m': Nodes, p: Position, v: View, kind: nat, want: seq<int>, row: seq<nat>, j: nat) {
    && |v.liquid| == |v.level| == |want| == |row| == 7 && (forall l: nat :: l < 7 ==> row[l] < 7) && j <= 7
    && m'.Keys == m.Keys
    && (forall l: nat :: l < j && Cell(p, row[l]) in m ==>
          m'[Cell(p, row[l])] == After(v, m[Cell(p, row[l])], kind, row[l], want[row[l]]))
    && (forall l: nat :: j <= l < 7 && Cell(p, row[l]) in m ==> m'[Cell(p, row[l])] == m[Cell(p, row[l])])
    && (forall q :: q in m && q !in Cells(p, 7) ==> m'[q] == m[q])
  }

  lemma NoneWritten(m: Nodes, p: Position, v: View, kind: nat, loopcount: nat, want: seq<int>, left: int, row: seq<nat>,
                    k: Kind)
    requires Sees(m, p, Some(kind), loopcount, v) && Targets(v, want, k.Cap()) && |row| == 7 && AreCells(row)
    ensures |v.liquid| == |v.level| == |want| == 7
    ensures WokenSoFar(p, v, k, want, left, row, 0) == {} && WrittenSoFar(m, m, p, v, kind, want, row, 0)
  {
    hide Cell, Cells, After, Shown;
  }

  lemma DistinctCells(p: Position, i: nat, j: nat)
    requires i < 7 && j < 7 && i != j
    ensures Cell(p, i) != Cell(p, j)
  {
  }

  lemma WriteNext(m: Nodes, m0: Nodes, p: Position, v: View, kind: nat, want: seq<int>, row: seq<nat>, j: nat)
    requires j < 7 && WrittenSoFar(m, m0, p, v, kind, want, row, j) && IsRow(row)
    ensures |v.liquid| == |v.level| == |want| == 7 && row[j] < 7 && m0.Keys == m.Keys
    ensures var c := Cell(p, row[j]);
            var m1 := if c in m0 then m0[c := After(v, m0[c], kind, row[j], want[row[j]])] else m0;
            WrittenSoFar(m, m1, p, v, kind, want, row, j + 1)
  {
    forall l: nat | l < 7 && l != j
      ensures Cell(p, row[l]) != Cell(p, row[j])
    {
      DistinctCells(p, row[l], row[j]);
    }
    assert Cell(p, row[j]) in Cells(p, 7);
    hide Cell, Cells, After;
  }

  lemma AllWritten(m: Nodes, m': Nodes, p: Position, v: View, kind: nat, want: seq<int>, row: seq<nat>)
    requires WrittenSoFar(m, m', p, v, kind, want, row, 7) && IsRow(row)
    ensures Spread(m, m', p, v, kind, want)
  {
    hide Cell, Cells, After;
    forall i: nat | i < 7 && Cell(p, i) in m
      ensures m'[Cell(p, i)] == After(v, m[Cell(p, i)], kind, i, want[i])
    {
      assert i in row;
    }
  }
}
