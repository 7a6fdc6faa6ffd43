/** Shapeless recipes: the input items may lie anywhere in the grid. */
module Shapeless {
  import opened CraftItems
  import opened Pairings
  import HopcroftKarp

  ghost function Allowed(defs: ItemDefs): (Name, Name) -> bool {
    (input, slot) => Matches(defs, input, slot)
  }

  function GroupSlots(slots: seq<Name>): (r: seq<Name>)
    ensures forall i :: 0 <= i < |r| ==> IsGroup(r[i])
  {
    if slots == [] then [] else if IsGroup(slots[0]) then [slots[0]] + GroupSlots(slots[1..]) else GroupSlots(slots[1..])
  }

  function PlainSlots(slots: seq<Name>): (r: seq<Name>)
    ensures forall i :: 0 <= i < |r| ==> !IsGroup(r[i])
  {
    if slots == [] then [] else if IsGroup(slots[0]) then PlainSlots(slots[1..]) else [slots[0]] + PlainSlots(slots[1..])
  }

  /** Splitting a list of slots sorts its names into those with the group prefix and the rest. */
  lemma {:induction false} SlotCounts(slots: seq<Name>)
    ensures forall x :: multiset(GroupSlots(slots))[x] == if IsGroup(x) then multiset(slots)[x] else 0
    ensures forall x :: multiset(PlainSlots(slots))[x] == if IsGroup(x) then 0 else multiset(slots)[x]
  {
    if slots != [] {
      SlotCounts(slots[1..]);
      assert slots == [slots[0]] + slots[1..];
    }
  }

  lemma SlotsPartition(slots: seq<Name>)
    ensures multiset(slots) == multiset(GroupSlots(slots)) + multiset(PlainSlots(slots))
    ensures |slots| == |GroupSlots(slots)| + |PlainSlots(slots)|
  {
    SlotCounts(slots);
    assert |slots| == |multiset(slots)|;
  }

  lemma SplitIsByMultiset(a: seq<Name>, b: seq<Name>)
    requires multiset(a) == multiset(b)
    ensures multiset(GroupSlots(a)) == multiset(GroupSlots(b)) && multiset(PlainSlots(a)) == multiset(PlainSlots(b))
  {
    SlotCounts(a);
    SlotCounts(b);
  }

  lemma {:induction false} PlainSlotsSorted(slots: seq<Name>)
    requires Sorted(slots)
    ensures Sorted(PlainSlots(slots))
    ensures forall i :: 0 <= i < |PlainSlots(slots)| ==> PlainSlots(slots)[i] in slots
  {
    if slots != [] {
      PlainSlotsSorted(slots[1..]);
    }
  }

  // ----- the prefilter -----

  /** The couples whose slot is a group. */
  ghost function GroupCouples(ps: seq<(Name, Name)>): (r: seq<(Name, Name)>) {
    if ps == [] then [] else if IsGroup(ps[0].1) then [ps[0]] + GroupCouples(ps[1..]) else GroupCouples(ps[1..])
  }

  /** Each name coupled with itself. */
  ghost function Same(names: seq<Name>): (ps: seq<(Name, Name)>)
    ensures Firsts(ps) == names && Seconds(ps) == names
  {
    seq(|names|, i requires 0 <= i < |names| => (names[i], names[i]))
  }

  /** Only an input of the same name can fill a plain slot. */
  lemma {:induction false} PlainCouplesAreSame(defs: ItemDefs, ps: seq<(Name, Name)>)
    requires forall i :: 0 <= i < |ps| ==> Matches(defs, ps[i].0, ps[i].1)
    ensures Seconds(GroupCouples(ps)) == GroupSlots(Seconds(ps))
    ensures multiset(Firsts(ps)) == multiset(Firsts(GroupCouples(ps))) + multiset(PlainSlots(Seconds(ps)))
    ensures forall i :: 0 <= i < |GroupCouples(ps)| ==> Matches(defs, GroupCouples(ps)[i].0, GroupCouples(ps)[i].1)
  {
    GroupCouplesAre(defs, ps);
    hide Matches, GroupCouples, GroupSlots, PlainSlots, Seconds, Firsts;
    if ps == [] {
      NoCouples();
    } else {
      var p, rest := ps[0], ps[1..];
      assert ps == [p] + rest && Matches(defs, p.0, p.1);
      PlainCouplesAreSame(defs, rest);
      Prepend(p, rest);
      CouplesUnfold(p, rest);
      SlotsUnfold(p.1, Seconds(rest));
      OneMore(p.0, Firsts(rest));
      Regroup(p.0, multiset(Firsts(GroupCouples(rest))), multiset(PlainSlots(Seconds(rest))));
      if IsGroup(p.1) {
        Prepend(p, GroupCouples(rest));
        OneMore(p.0, Firsts(GroupCouples(rest)));
      } else {
        PlainMatches(defs, p.0, p.1);
        OneMore(p.1, PlainSlots(Seconds(rest)));
      }
    }
  }

  lemma Regroup(x: Name, a: multiset<Name>, b: multiset<Name>)
    ensures multiset{x} + (a + b) == (multiset{x} + a) + b && multiset{x} + (a + b) == a + (multiset{x} + b)
  {
  }

  lemma NoCouples()
    ensures var none: seq<(Name, Name)> := []; GroupCouples(none) == [] && Seconds(none) == [] && Firsts(none) == []
    ensures GroupSlots([]) == [] && PlainSlots([]) == []
  {
  }

  lemma PlainMatches(defs: ItemDefs, x: Name, slot: Name)
    requires Matches(defs, x, slot) && !IsGroup(slot)
    ensures x == slot
  {
  }

  lemma OneMore(x: Name, s: seq<Name>)
    ensures multiset([x] + s) == multiset{x} + multiset(s)
  {
  }

  /** The couples of groups: their slots in order, and each of them matches. */
  lemma {:induction false} GroupCouplesAre(defs: ItemDefs, ps: seq<(Name, Name)>)
    requires forall i :: 0 <= i < |ps| ==> Matches(defs, ps[i].0, ps[i].1)
    ensures Seconds(GroupCouples(ps)) == GroupSlots(Seconds(ps))
    ensures forall i :: 0 <= i < |GroupCouples(ps)| ==> Matches(defs, GroupCouples(ps)[i].0, GroupCouples(ps)[i].1)
  {
    hide Matches, GroupCouples, GroupSlots, PlainSlots, Seconds, Firsts;
    if ps == [] {
      NoCouples();
    } else {
      var p, rest := ps[0], ps[1..];
      assert ps == [p] + rest && Matches(defs, p.0, p.1);
      GroupCouplesAre(defs, rest);
      Prepend(p, rest);
      Prepend(p, GroupCouples(rest));
      CouplesUnfold(p, rest);
      SlotsUnfold(p.1, Seconds(rest));
    }
  }

  lemma CouplesUnfold(p: (Name, Name), rest: seq<(Name, Name)>)
    ensures GroupCouples([p] + rest) == if IsGroup(p.1) then [p] + GroupCouples(rest) else GroupCouples(rest)
  {
    assert ([p] + rest)[1..] == rest;
  }

  lemma SlotsUnfold(x: Name, rest: seq<Name>)
    ensures GroupSlots([x] + rest) == if IsGroup(x) then [x] + GroupSlots(rest) else GroupSlots(rest)
    ensures PlainSlots([x] + rest) == if IsGroup(x) then PlainSlots(rest) else [x] + PlainSlots(rest)
  {
    assert ([x] + rest)[1..] == rest;
  }

  lemma Prepend(p: (Name, Name), ps: seq<(Name, Name)>)
    ensures Firsts([p] + ps) == [p.0] + Firsts(ps) && Seconds([p] + ps) == [p.1] + Seconds(ps)
  {
  }

  lemma GroupsLeftOver(defs: ItemDefs, inputs: seq<Name>, slots: seq<Name>, rest: seq<Name>)
    requires multiset(rest) == multiset(inputs) - multiset(PlainSlots(slots))
    requires Pairable(Allowed(defs), inputs, slots)
    ensures multiset(PlainSlots(slots)) <= multiset(inputs)
    ensures Pairable(Allowed(defs), rest, GroupSlots(slots))
  {
    var f: seq<nat> :| PairsUp(Allowed(defs), inputs, slots, f);
    var ps := PairsUpGivesCouples(Allowed(defs), inputs, slots, f);
    PlainCouplesAreSame(defs, ps);
    SplitIsByMultiset(Seconds(ps), slots);
    CouplesGivePairing(Allowed(defs), rest, GroupSlots(slots), GroupCouples(ps));
  }

  lemma PlainSlotsFilled(defs: ItemDefs, inputs: seq<Name>, slots: seq<Name>, rest: seq<Name>)
    requires multiset(inputs) == multiset(rest) + multiset(PlainSlots(slots))
    requires Pairable(Allowed(defs), rest, GroupSlots(slots))
    ensures Pairable(Allowed(defs), inputs, slots)
  {
    var f: seq<nat> :| PairsUp(Allowed(defs), rest, GroupSlots(slots), f);
    var ps := PairsUpGivesCouples(Allowed(defs), rest, GroupSlots(slots), f);
    SlotsPartition(slots);
    AddSame(defs, multiset(rest), multiset(GroupSlots(slots)), ps, PlainSlots(slots));
    hide Couples, Pairable;
    CouplesGivePairing(Allowed(defs), inputs, slots, ps + Same(PlainSlots(slots)));
  }

  lemma AddSame(defs: ItemDefs, a: multiset<Name>, b: multiset<Name>, ps: seq<(Name, Name)>, names: seq<Name>)
    requires Couples(Allowed(defs), a, b, ps)
    ensures Couples(Allowed(defs), a + multiset(names), b + multiset(names), ps + Same(names))
  {
    assert Firsts(ps + Same(names)) == Firsts(ps) + names;
    assert Seconds(ps + Same(names)) == Seconds(ps) + names;
  }

  /** Filling the plain slots first, each with an input of its name, does not change whether the
      rest can be paired up. */
  lemma PrefilterIsExact(defs: ItemDefs, inputs: seq<Name>, slots: seq<Name>, rest: seq<Name>)
    requires |inputs| == |slots|
    requires multiset(rest) == multiset(inputs) - multiset(PlainSlots(slots))
    ensures Pairable(Allowed(defs), inputs, slots) <==>
              |inputs| - |rest| == |PlainSlots(slots)| && Pairable(Allowed(defs), rest, GroupSlots(slots))
    ensures |inputs| - |rest| == |PlainSlots(slots)| ==> |rest| == |GroupSlots(slots)|
  {
    var all, plain := multiset(inputs), multiset(PlainSlots(slots));
    SlotsPartition(slots);
    DifferenceSize(all, plain);
    assert |multiset(rest)| == |rest| && |all| == |inputs| && |plain| == |PlainSlots(slots)|;
    if Pairable(Allowed(defs), inputs, slots) {
      GroupsLeftOver(defs, inputs, slots, rest);
    }
    if plain <= all && Pairable(Allowed(defs), rest, GroupSlots(slots)) {
      assert all == multiset(rest) + plain;
      PlainSlotsFilled(defs, inputs, slots, rest);
    }
  }

  lemma DifferenceSize(a: multiset<Name>, b: multiset<Name>)
    ensures |a - b| == |a| - |b| <==> b <= a
  {
    assert a == (a - b) + (a * b);
    assert b == (b - a) + (a * b);
    if |b - a| == 0 {
      assert b - a == multiset{};
    }
  }

  // ----- the check -----

  /** The names in the grid can be put in bijection with the recipe's slots, each matching its slot. */
  ghost predicate Craftable(defs: ItemDefs, slots: seq<Name>, input: CraftInput) {
    input.craft.Normal? && Pairable(Allowed(defs), NonEmpty(Names(input.items)), slots)
  }

  method FilterNames(items: seq<ItemStack>) returns (names: seq<Name>)
    ensures names == NonEmpty(Names(items))
  {
    names := [];
    for i := 0 to |items|
      invariant names == NonEmpty(Names(items)[..i])
    {
      NonEmptyAppend(Names(items)[..i], items[i].name);
      assert Names(items)[..i + 1] == Names(items)[..i] + [items[i].name];
      if items[i].name != "" {
        names := names + [items[i].name];
      }
    }
    assert Names(items)[..|items|] == Names(items);
  }

  ghost predicate SlotsFor(defs: ItemDefs, name: Name, slots: seq<Name>, found: seq<nat>) {
    && (forall j: nat :: j in found ==> j < |slots|)
    && (forall j: nat :: j < |slots| ==> (j in found <==> Matches(defs, name, slots[j])))
  }

  ghost predicate GraphFor(defs: ItemDefs, inputs: seq<Name>, slots: seq<Name>, graph: HopcroftKarp.Graph) {
    && |graph| == |inputs|
    && forall i :: 0 <= i < |graph| ==> SlotsFor(defs, inputs[i], slots, graph[i])
  }

  /** For each input item, the group slots it can satisfy. */
  method BuildGraph(defs: ItemDefs, inputs: seq<Name>, slots: seq<Name>) returns (graph: HopcroftKarp.Graph)
    ensures GraphFor(defs, inputs, slots, graph)
  {
    graph := [];
    for i := 0 to |inputs|
      invariant GraphFor(defs, inputs[..i], slots, graph)
    {
      var neighbours: seq<nat> := [];
      for j := 0 to |slots|
        invariant SlotsFor(defs, inputs[i], slots[..j], neighbours)
      {
        if Matches(defs, inputs[i], slots[j]) {
          neighbours := neighbours + [j];
        }
      }
      assert slots[..|slots|] == slots;
      graph := graph + [neighbours];
    }
    assert inputs[..|inputs|] == inputs;
  }

  lemma GraphDecidesPairing(defs: ItemDefs, inputs: seq<Name>, slots: seq<Name>, graph: HopcroftKarp.Graph)
    requires |inputs| == |slots| && GraphFor(defs, inputs, slots, graph)
    ensures |slots| <= HopcroftKarp.SHAPELESS_GROUPS_MAX ==> HopcroftKarp.ValidGraph(graph)
    ensures HopcroftKarp.CanMatchAll(graph) <==> Pairable(Allowed(defs), inputs, slots)
  {
    forall u, k | 0 <= u < |graph| && 0 <= k < |graph[u]|
      ensures graph[u][k] < |slots|
    {
      assert graph[u][k] in graph[u];
    }
    if f: seq<nat> :| HopcroftKarp.PerfectMatching(graph, f) {
      assert forall i :: 0 <= i < |f| ==> f[i] in graph[i] && f[i] < |slots|;
      assert PairsUp(Allowed(defs), inputs, slots, f);
    }
    if f: seq<nat> :| PairsUp(Allowed(defs), inputs, slots, f) {
      assert HopcroftKarp.PerfectMatching(graph, f);
    }
  }

  /** Accepts exactly the inputs whose items pair up with the slots, as long as no more than
      SHAPELESS_GROUPS_MAX slots are groups. */
  method Check(defs: ItemDefs, slots: seq<Name>, input: CraftInput) returns (ok: bool)
    ensures ok <==> Craftable(defs, slots, input) && |GroupSlots(slots)| <= HopcroftKarp.SHAPELESS_GROUPS_MAX
  {
    if !input.craft.Normal? {
      return false;
    }
    var filtered := FilterNames(input.items);
    if |filtered| != |slots| {
      return false;
    }
    var inputs := Sort(filtered);
    var recipe := Sort(slots);
    CheckOnSorted(defs, filtered, slots, inputs, recipe);
    var groups := GroupSlots(recipe);
    var plain := PlainSlots(recipe);
    var rest := Difference(inputs, plain);
    if |inputs| - |rest| != |plain| {
      return false;
    }
    assert |groups| == |rest|;
    if |groups| > HopcroftKarp.SHAPELESS_GROUPS_MAX {
      return false;
    }
    var graph := BuildGraph(defs, rest, groups);
    GraphDecidesPairing(defs, rest, groups, graph);
    ok := HopcroftKarp.CanMatchAllNodes(graph);
  }

  lemma PairableUpToOrder(defs: ItemDefs, a: seq<Name>, b: seq<Name>, a': seq<Name>, b': seq<Name>)
    requires multiset(a) == multiset(a') && multiset(b) == multiset(b')
    requires Pairable(Allowed(defs), a, b)
    ensures Pairable(Allowed(defs), a', b')
  {
    var f: seq<nat> :| PairsUp(Allowed(defs), a, b, f);
    var ps := PairsUpGivesCouples(Allowed(defs), a, b, f);
    CouplesGivePairing(Allowed(defs), a', b', ps);
  }

  lemma CheckOnSorted(defs: ItemDefs, filtered: seq<Name>, slots: seq<Name>, inputs: seq<Name>, recipe: seq<Name>)
    requires |filtered| == |slots| && inputs == Sort(filtered) && recipe == Sort(slots)
    ensures |inputs| == |recipe| && |GroupSlots(recipe)| == |GroupSlots(slots)|
    ensures var rest := Difference(inputs, PlainSlots(recipe));
            && (Pairable(Allowed(defs), filtered, slots) <==>
                  |inputs| - |rest| == |PlainSlots(recipe)| && Pairable(Allowed(defs), rest, GroupSlots(recipe)))
            && (|inputs| - |rest| == |PlainSlots(recipe)| ==> |rest| == |GroupSlots(recipe)|)
  {
    assert |multiset(inputs)| == |inputs| && |multiset(filtered)| == |filtered|;
    assert |multiset(recipe)| == |recipe| && |multiset(slots)| == |slots|;
    SplitIsByMultiset(recipe, slots);
    assert |multiset(GroupSlots(recipe))| == |GroupSlots(recipe)| && |multiset(GroupSlots(slots))| == |GroupSlots(slots)|;
    PlainSlotsSorted(recipe);
    DifferenceOfSorted(inputs, PlainSlots(recipe));
    PrefilterIsExact(defs, inputs, recipe, Difference(inputs, PlainSlots(recipe)));
    if Pairable(Allowed(defs), filtered, slots) {
      PairableUpToOrder(defs, filtered, slots, inputs, recipe);
    }
    if Pairable(Allowed(defs), inputs, recipe) {
      PairableUpToOrder(defs, inputs, recipe, filtered, slots);
    }
  }
}
