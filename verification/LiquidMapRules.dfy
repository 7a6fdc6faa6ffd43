/** What a look at a node means for the nodes themselves: which liquid is above which, what a liquid sees,
    and what it leaves behind. */
module LiquidMapRules {
  import Arithmetic
  import opened Liquid
  import opened LiquidLaws
  import opened LiquidMap
  import opened Wrappers

  // ----- exchanges -----

  /** Two liquids that have a weight, and the one at `a` has the greater one. */
  ghost predicate Heavier(kinds: seq<Kind>, m: Nodes, a: Position, b: Position) {
    && a in m && b in m && m[a].Fluid? && m[b].Fluid? && m[a].kind < |kinds| && m[b].kind < |kinds|
    && 0 < kinds[m[b].kind].weight < kinds[m[a].kind].weight
  }

  /** A look exchanges two nodes exactly when the upper one is a heavier liquid than the lower: the node
      and the one below it, or else the one above it and the node. Then the heavier one is below. */
  lemma HeavierSinks(kinds: seq<Kind>, s: Settings, m: Nodes, m': Nodes, p: Position, t: Tick, r: Report)
    requires Looked(kinds, s, m, m', p, t, r)
    ensures var below, above := p.(y := p.y - 1), p.(y := p.y + 1);
            && (r.Sank? <==> Heavier(kinds, m, p, below))
            && (r.Rose? <==> !Heavier(kinds, m, p, below) && Heavier(kinds, m, above, p))
            && (r.Sank? ==> Heavier(kinds, m', below, p) && m' == m[p := m[below]][below := m[p]])
            && (r.Rose? ==> Heavier(kinds, m', p, above) && m' == m[p := m[above]][above := m[p]])
  {
    hide Sees, FirstKind, CanFlow, Distributed, Spread;
    assert Cell(p, BOTTOM) == p.(y := p.y - 1) && Cell(p, TOP) == p.(y := p.y + 1);
    assert SwapsAt(kinds, m, p, 1) <==> Heavier(kinds, m, p, p.(y := p.y - 1));
    assert SwapsAt(kinds, m, p, 2) <==> Heavier(kinds, m, p.(y := p.y + 1), p);
    hide SwapsAt, Cell;
  }

  // ----- what is seen -----

  /** The seven places: below, the node, its four sides, above. */
  ghost function Places(p: Position): (q: seq<Position>)
    ensures |q| == 7
  {
    [Position(p.x, p.y - 1, p.z), p, Position(p.x, p.y, p.z + 1), Position(p.x, p.y, p.z - 1),
     Position(p.x + 1, p.y, p.z), Position(p.x - 1, p.y, p.z), Position(p.x, p.y + 1, p.z)]
  }

  lemma PlacesAreCells(p: Position, i: nat)
    requires i < 7
    ensures Cell(p, i) == Places(p)[i]
  {
  }

  /** A liquid can enter air, nodes of its own kind, and now and then what it washes away. */
  ghost predicate LetsIn(n: Node, kind: Option<nat>, loopcount: nat) {
    match n
    case Air => true
    case Solid(drop, _) => drop != 0 && exists k: nat :: loopcount == k * drop
    case Fluid(k, _, _) => kind.Some? && k == kind.value
  }

  /** The liquid is the first there is: in the node, below, above, or at the sides. */
  ghost predicate IsFirstLiquid(m: Nodes, p: Position, kind: Option<nat>) {
    var q := Places(p);
    var order := [q[1], q[0], q[6], q[2], q[3], q[4], q[5]];
    match kind
    case None => forall j :: 0 <= j < 7 && order[j] in m ==> !m[order[j]].Fluid?
    case Some(k) => exists i :: 0 <= i < 7 && order[i] in m && m[order[i]].Fluid? && m[order[i]].kind == k &&
                      forall j :: 0 <= j < i && order[j] in m ==> !m[order[j]].Fluid?
  }

  /** What the liquid sees of one place. */
  ghost predicate SeenAt(m: Nodes, q: Position, kind: Option<nat>, loopcount: nat, liquid: bool, level: int, endless: bool) {
    && (liquid <==> q in m && LetsIn(m[q], kind, loopcount))
    && (!liquid ==> level == -1 && !endless)
    && (liquid ==> level == (if m[q].Fluid? then m[q].level else 0) && (endless <==> m[q].Fluid? && m[q].endless))
  }

  /** A look that exchanges nothing sees the first liquid around and how much of it is in the seven places.
      The liquid flows exactly if it can enter the node and there is some of it. */
  lemma LookSees(kinds: seq<Kind>, s: Settings, m: Nodes, m': Nodes, p: Position, t: Tick, r: Report) returns (kind: Option<nat>)
    requires Looked(kinds, s, m, m', p, t, r) && (r.Nothing? || r.Flowed?)
    ensures IsFirstLiquid(m, p, kind) && (r.Flowed? ==> kind == Some(r.kind))
    ensures |r.view.liquid| == |r.view.level| == |r.view.endless| == 7 && r.view.bottomLoaded == (Places(p)[0] in m)
    ensures forall i: nat :: i < 7 ==>
              SeenAt(m, Places(p)[i], kind, t.loopcount, r.view.liquid[i], r.view.level[i], r.view.endless[i])
    ensures r.Flowed? <==> kind.Some? && r.view.liquid[1] && exists i: nat :: i < 7 && r.view.level[i] > 0
  {
    kind := FirstKind(m, p, 7);
    hide SwapOf, KindsKnown, Distributed, Spread, Sum;
    assert Sees(m, p, kind, t.loopcount, r.view);
    assert r.Flowed? <==> CanFlow(r.view, kind);
    hide Looked;
    SomeThere(r.view.level);
    hide FirstKind, Sees, CanFlow, SeenAt, IsFirstLiquid;
    FirstIsFirst(m, p);
    ViewShows(m, p, kind, t.loopcount, r.view);
    FlowNeeds(r.view, kind);
  }

  lemma FlowNeeds(v: View, kind: Option<nat>)
    requires |v.liquid| == |v.level| == 7
    ensures CanFlow(v, kind) <==> kind.Some? && v.liquid[1] && Sum(v.level) > 0
  {
    hide Sum;
  }

  lemma SomeThere(w: seq<int>)
    requires |w| == 7
    ensures Sum(w) > 0 <==> exists i: nat :: i < 7 && w[i] > 0
  {
    if Sum(w) > 0 {
      assert w[0] > 0 || w[1] > 0 || w[2] > 0 || w[3] > 0 || w[4] > 0 || w[5] > 0 || w[6] > 0;
    }
  }

  lemma ViewShows(m: Nodes, p: Position, kind: Option<nat>, loopcount: nat, v: View)
    requires Sees(m, p, kind, loopcount, v)
    ensures |v.liquid| == |v.level| == |v.endless| == 7 && v.bottomLoaded == (Places(p)[0] in m)
    ensures forall i: nat :: i < 7 ==> SeenAt(m, Places(p)[i], kind, loopcount, v.liquid[i], v.level[i], v.endless[i])
  {
    PlacesAreCells(p, 0);
    forall i: nat | i < 7
      ensures SeenAt(m, Places(p)[i], kind, loopcount, v.liquid[i], v.level[i], v.endless[i])
    {
      PlacesAreCells(p, i);
      assert Shown(v, i, Seen(m, Cell(p, i)), kind, loopcount);
      hide Cell, Places;
      if Cell(p, i) in m {
        EntersExactly(m[Cell(p, i)], kind, loopcount);
      }
    }
  }

  lemma EntersExactly(n: Node, kind: Option<nat>, loopcount: nat)
    ensures Enters(Some(n), kind, loopcount) <==> LetsIn(n, kind, loopcount)
  {
    if n.Solid? && n.drop != 0 {
      Multiple(loopcount, n.drop);
    }
  }

  lemma Multiple(a: nat, d: nat)
    requires d != 0
    ensures a % d == 0 <==> exists k: nat :: a == k * d
  {
    if a % d == 0 {
      assert a == (a / d) * d;
    }
    if k: nat :| a == k * d {
      Arithmetic.DivisionUnique(a, k, d, 0);
    }
  }

  lemma FirstIsFirst(m: Nodes, p: Position)
    ensures IsFirstLiquid(m, p, FirstKind(m, p, 7))
  {
    var q := Places(p);
    var order := [q[1], q[0], q[6], q[2], q[3], q[4], q[5]];
    var i := FirstPlace(m, p, 7);
    forall j: nat | j < 7
      ensures Cell(p, EXPLORE[j]) == order[j]
    {
      PlacesAreCells(p, EXPLORE[j]);
    }
    hide Cell, Places, FirstKind;
  }

  lemma {:induction false} FirstPlace(m: Nodes, p: Position, n: nat) returns (i: nat)
    requires n <= 7
    ensures i <= n && forall j: nat :: j < i && Cell(p, EXPLORE[j]) in m ==> !m[Cell(p, EXPLORE[j])].Fluid?
    ensures FirstKind(m, p, n).None? <==> i == n
    ensures i < n ==> Cell(p, EXPLORE[i]) in m && m[Cell(p, EXPLORE[i])].Fluid? && FirstKind(m, p, n) == Some(m[Cell(p, EXPLORE[i])].kind)
  {
    if n == 0 {
      i := 0;
    } else {
      i := FirstPlace(m, p, n - 1);
      if i == n - 1 && !(Cell(p, EXPLORE[i]) in m && m[Cell(p, EXPLORE[i])].Fluid?) {
        i := n;
      }
    }
  }

  // ----- what is written -----

  /** What a flow makes of one node. */
  ghost predicate Becomes(n: Node, n': Node, kind: nat, level: int, want: int) {
    && (want == level ==> n' == n)
    && (want != level && want == 0 ==> n'.Air?)
    && (want != level && want > 0 ==>
          n'.Fluid? && n'.kind == kind && n'.level == want && (n'.endless <==> (n.Fluid? && n.endless) || (n.Solid? && n.mark)))
  }

  /** A flow leaves in each place it can enter what it wants there, and every other node as it was. */
  lemma FlowWrites(kinds: seq<Kind>, s: Settings, m: Nodes, m': Nodes, p: Position, t: Tick, r: Report)
    requires Looked(kinds, s, m, m', p, t, r) && r.Flowed?
    ensures m'.Keys == m.Keys && |r.view.liquid| == |r.view.level| == |r.want| == 7
    ensures forall i: nat :: i < 7 && r.view.liquid[i] ==>
              Places(p)[i] in m && Becomes(m[Places(p)[i]], m'[Places(p)[i]], r.kind, r.view.level[i], r.want[i])
    ensures forall q :: q in m && (forall i: nat :: i < 7 && r.view.liquid[i] ==> q != Places(p)[i]) ==> m'[q] == m[q]
  {
    var v := r.view;
    FlowSpreads(kinds, s, m, m', p, t, r);
    LookTargets(kinds, s, m, m', p, t, r);
    hide Looked, Sees, Spread, Becomes, Places;
    forall i: nat | i < 7 && v.liquid[i]
      ensures Places(p)[i] in m && Places(p)[i] in m' && Becomes(m[Places(p)[i]], m'[Places(p)[i]], r.kind, v.level[i], r.want[i])
    {
      WritesAt(m, m', p, v, r.kind, t.loopcount, r.want, i);
    }
    forall q | q in m && (forall i: nat :: i < 7 && v.liquid[i] ==> q != Places(p)[i])
      ensures q in m' && m'[q] == m[q]
    {
      OthersStay(m, m', p, v, r.kind, r.want, q);
    }
  }

  lemma FlowSpreads(kinds: seq<Kind>, s: Settings, m: Nodes, m': Nodes, p: Position, t: Tick, r: Report)
    requires Looked(kinds, s, m, m', p, t, r) && r.Flowed?
    ensures Sees(m, p, Some(r.kind), t.loopcount, r.view) && Spread(m, m', p, r.view, r.kind, r.want)
    ensures m'.Keys == m.Keys && |r.view.liquid| == |r.view.level| == |r.want| == 7
  {
    hide SwapOf, FirstKind, CanFlow, Sum, KindsKnown, Distributed, Sees;
  }

  lemma WritesAt(m: Nodes, m': Nodes, p: Position, v: View, kind: nat, loopcount: nat, want: seq<int>, i: nat)
    requires Sees(m, p, Some(kind), loopcount, v) && Spread(m, m', p, v, kind, want) && i < 7 && v.liquid[i] && want[i] >= 0
    ensures var q := Places(p)[i]; q in m && q in m' && Becomes(m[q], m'[q], kind, v.level[i], want[i])
  {
    PlacesAreCells(p, i);
    hide Cell, Places;
    assert Shown(v, i, Seen(m, Cell(p, i)), Some(kind), loopcount);
  }

  lemma OthersStay(m: Nodes, m': Nodes, p: Position, v: View, kind: nat, want: seq<int>, q: Position)
    requires Spread(m, m', p, v, kind, want) && q in m && forall i: nat :: i < 7 && v.liquid[i] ==> q != Places(p)[i]
    ensures q in m' && m'[q] == m[q]
  {
    if q in Cells(p, 7) {
      var i: nat :| i < 7 && q == Cell(p, i);
      PlacesAreCells(p, i);
      hide Cell, Places;
    }
  }

  lemma LookTargets(kinds: seq<Kind>, s: Settings, m: Nodes, m': Nodes, p: Position, t: Tick, r: Report)
    requires Looked(kinds, s, m, m', p, t, r) && r.Flowed?
    ensures r.kind < |kinds| && |r.view.liquid| == |r.want| == 7
    ensures forall i: nat :: i < 7 && r.view.liquid[i] ==> 0 <= r.want[i] <= kinds[r.kind].Cap()
  {
    hide SwapOf, FirstKind, CanFlow, Sum, Sees, Spread, KindsKnown, Distributed;
    LookConserves(r.view, kinds[r.kind], s, t, r.want, r.account);
  }
}
