/** The kinds of recipes, what each accepts, and under which hash each is filed. */
module Recipes {
  import opened CraftItems
  import HopcroftKarp
  import Pairings
  import Shaped
  import Shapeless

  datatype Recipe =
    | ShapedRecipe(output: Name, width: nat, slots: seq<Name>)
    | ShapelessRecipe(output: Name, slots: seq<Name>)
    | ToolRepair(wear: int)  // the additional wear, rounded to the 65536 steps of an item's wear
    | Cooking(output: Name, slot: Name)
    | Fuel(slot: Name)

  datatype HashType = ItemNames | Count | Unhashed

  predicate HasGroup(slots: seq<Name>) {
    exists i :: 0 <= i < |slots| && IsGroup(slots[i])
  }

  const NO_RECIPE := 0

  /** Higher values win; a fuel recipe ranks as shapeless whether or not its slot is a group. */
  function Priority(r: Recipe): (p: nat)
    ensures NO_RECIPE < p <= 5
  {
    match r
    case ToolRepair(_) => 1
    case ShapelessRecipe(_, slots) => if HasGroup(slots) then 2 else 3
    case Cooking(_, slot) => if IsGroup(slot) then 2 else 3
    case Fuel(_) => 3
    case ShapedRecipe(_, _, slots) => if HasGroup(slots) then 4 else 5
  }

  // ----- what a recipe accepts -----

  const WEAR_MAX := 65536

  /** The tool made of two worn tools of the same kind. */
  function Repaired(defs: ItemDefs, a: ItemStack, b: ItemStack, wear: int): (r: ItemStack) {
    if a.count != 1 || b.count != 1 || a.name != b.name || a.name !in defs.tools ||
       (defs.IsKnown(a.name) && defs.Rating(a.name, "disable_repair") == 1) then NO_ITEM
    else
      var worn := WEAR_MAX - ((WEAR_MAX - a.wear) + (WEAR_MAX - b.wear)) + wear;
      if worn >= WEAR_MAX then NO_ITEM else a.(wear := if worn < 0 then 0 else worn)
  }

  const NO_ITEM := ItemStack("", 0, 0)

  /** The stacks that are not empty. */
  function Filled(items: seq<ItemStack>): (r: seq<ItemStack>) {
    if items == [] then [] else if items[0].Empty() then Filled(items[1..]) else [items[0]] + Filled(items[1..])
  }

  function Repair(defs: ItemDefs, wear: int, items: seq<ItemStack>): (r: ItemStack) {
    var filled := Filled(items);
    if |filled| == 2 then Repaired(defs, filled[0], filled[1], wear) else NO_ITEM
  }

  ghost predicate Accepts(defs: ItemDefs, r: Recipe, input: CraftInput) {
    match r
    case ShapedRecipe(_, width, slots) =>
      input.craft.Normal? && input.width > 0 && width > 0 &&
      Shaped.SameShape(defs, Shaped.Grid(Names(input.items), input.width), Shaped.Grid(slots, width))
    case ShapelessRecipe(_, slots) =>
      Shapeless.Craftable(defs, slots, input) && |Shapeless.GroupSlots(slots)| <= HopcroftKarp.SHAPELESS_GROUPS_MAX
    case ToolRepair(wear) =>
      input.craft.Normal? && !Repair(defs, wear, input.items).Empty()
    case Cooking(_, slot) =>
      input.craft.Cooking? && |NonEmpty(Names(input.items))| == 1 && Matches(defs, NonEmpty(Names(input.items))[0], slot)
    case Fuel(slot) =>
      input.craft.Fuel? && |NonEmpty(Names(input.items))| == 1 && Matches(defs, NonEmpty(Names(input.items))[0], slot)
  }

  /** The name of what the recipe makes of the input. */
  function Output(defs: ItemDefs, r: Recipe, items: seq<ItemStack>): (name: Name)
    ensures r.ShapedRecipe? || r.ShapelessRecipe? || r.Cooking? ==> name == r.output
    ensures r.Fuel? ==> name == ""
  {
    match r
    case ShapedRecipe(output, _, _) => output
    case ShapelessRecipe(output, _) => output
    case ToolRepair(wear) => Repair(defs, wear, items).name
    case Cooking(output, _) => output
    case Fuel(_) => ""
  }

  // ----- what tool repair makes -----

  /** Two of the stacks are not empty. */
  ghost predicate OnlyTwo(items: seq<ItemStack>, i: nat, j: nat) {
    && i < j < |items| && !items[i].Empty() && !items[j].Empty()
    && forall k :: 0 <= k < |items| && k != i && k != j ==> items[k].Empty()
  }

  lemma {:induction false} FilledNothing(items: seq<ItemStack>)
    requires forall k :: 0 <= k < |items| ==> items[k].Empty()
    ensures Filled(items) == []
  {
    if items != [] {
      FilledNothing(items[1..]);
    }
  }

  lemma {:induction false} FilledOne(items: seq<ItemStack>, i: nat)
    requires i < |items| && !items[i].Empty()
    requires forall k :: 0 <= k < |items| && k != i ==> items[k].Empty()
    ensures Filled(items) == [items[i]]
  {
    if i > 0 {
      FilledOne(items[1..], i - 1);
    } else {
      FilledNothing(items[1..]);
    }
  }

  lemma {:induction false} FilledTwo(items: seq<ItemStack>, i: nat, j: nat)
    requires OnlyTwo(items, i, j)
    ensures Filled(items) == [items[i], items[j]]
  {
    if i > 0 {
      FilledTwo(items[1..], i - 1, j - 1);
    } else {
      FilledOne(items[1..], j - 1);
    }
  }

  lemma {:induction false} FirstFilled(items: seq<ItemStack>) returns (i: nat)
    requires Filled(items) != []
    ensures i < |items| && !items[i].Empty() && forall k :: 0 <= k < i ==> items[k].Empty()
    ensures Filled(items[i + 1..]) == Filled(items)[1..]
  {
    if items[0].Empty() {
      var rest := items[1..];
      i := FirstFilled(rest);
      assert rest[i + 1..] == items[i + 2..];
      i := i + 1;
    } else {
      i := 0;
    }
  }

  /** Nothing is repaired of more or fewer than two stacks. */
  lemma RepairNeedsTwo(defs: ItemDefs, wear: int, items: seq<ItemStack>)
    requires !Repair(defs, wear, items).Empty()
    ensures exists i: nat, j: nat :: OnlyTwo(items, i, j)
  {
    var i, j := TwoFilled(items);
  }

  lemma TwoFilled(items: seq<ItemStack>) returns (i: nat, j: nat)
    requires |Filled(items)| == 2
    ensures OnlyTwo(items, i, j)
  {
    hide Filled;
    i := FirstFilled(items);
    var rest := items[i + 1..];
    var k := FirstFilled(rest);
    var last := rest[k + 1..];
    j := i + 1 + k;
    forall n | j < n < |items|
      ensures items[n].Empty()
    {
      assert items[n] == last[n - j - 1];
      if !items[n].Empty() {
        SomeFilled(last, n - j - 1);
        assert false;
      }
    }
    assert forall n :: i < n <= j ==> items[n] == rest[n - i - 1];
  }

  lemma {:induction false} SomeFilled(items: seq<ItemStack>, k: nat)
    requires k < |items| && !items[k].Empty()
    ensures Filled(items) != []
  {
    if k > 0 {
      SomeFilled(items[1..], k - 1);
    }
  }

  /** Two worn tools of a kind make one with the uses left in both, less what the repair costs and at most
      those of a new one. */
  lemma RepairAdds(defs: ItemDefs, wear: int, items: seq<ItemStack>, i: nat, j: nat)
    requires OnlyTwo(items, i, j)
    ensures var a, b := items[i], items[j];
            var left := (65536 - a.wear) + (65536 - b.wear) - wear;
            var repaired := Repair(defs, wear, items);
            && (!repaired.Empty() <==>
                && a.count == 1 && b.count == 1 && a.name == b.name && left > 0 && a.name in defs.tools
                && !(defs.IsKnown(a.name) && defs.Rating(a.name, "disable_repair") == 1))
            && (!repaired.Empty() ==>
                && repaired.name == a.name && repaired.count == 1
                && 65536 - repaired.wear == if left > 65536 then 65536 else left)
  {
    FilledTwo(items, i, j);
  }

  // ----- which of two recipes wins -----

  /** One kind goes before the other: recipes with an arrangement before those without, and among these
      and among those the ones without groups first; the repair of tools comes last. */
  ghost predicate Outranks(r: Recipe, s: Recipe) {
    match s
    case ToolRepair(_) => !r.ToolRepair?
    case ShapelessRecipe(_, slots) => r.ShapedRecipe? || (r.ShapelessRecipe? && HasGroup(slots) && !HasGroup(r.slots))
    case ShapedRecipe(_, _, slots) => r.ShapedRecipe? && HasGroup(slots) && !HasGroup(r.slots)
    case Cooking(_, slot) => r.Cooking? && IsGroup(slot) && !IsGroup(r.slot)
    case Fuel(_) => false
  }

  /** Of two recipes for the same input the one of the better kind has the higher rank. */
  lemma RankByKind(defs: ItemDefs, input: CraftInput, r: Recipe, s: Recipe)
    requires Accepts(defs, r, input) && Accepts(defs, s, input)
    ensures Priority(r) > Priority(s) <==> Outranks(r, s)
  {
    hide HasGroup, IsGroup, Shaped.SameShape, Matches, NonEmpty, Repair, Names, Shapeless.GroupSlots;
  }

  // ----- checking -----

  method FilterFilled(items: seq<ItemStack>) returns (ok: bool, a: ItemStack, b: ItemStack)
    ensures ok <==> |Filled(items)| <= 2
    ensures ok ==> a == (if |Filled(items)| > 0 then Filled(items)[0] else NO_ITEM)
    ensures ok ==> b == (if |Filled(items)| > 1 then Filled(items)[1] else NO_ITEM)
  {
    a, b := NO_ITEM, NO_ITEM;
    for i := 0 to |items|
      invariant |Filled(items[..i])| <= 2
      invariant a == (if |Filled(items[..i])| > 0 then Filled(items[..i])[0] else NO_ITEM)
      invariant b == (if |Filled(items[..i])| > 1 then Filled(items[..i])[1] else NO_ITEM)
      invariant |Filled(items[..i])| > 0 ==> !a.Empty()
      invariant |Filled(items[..i])| > 1 ==> !b.Empty()
    {
      FilledConcat(items[..i], items[i..]);
      FilledConcat(items[..i], [items[i]]);
      assert items[..i + 1] == items[..i] + [items[i]] && items == items[..i] + items[i..];
      if !items[i].Empty() {
        if a.Empty() {
          a := items[i];
        } else if b.Empty() {
          b := items[i];
        } else {
          return false, a, b;
        }
      }
    }
    assert items[..|items|] == items;
    ok := true;
  }

  lemma FilledUnfolds(items: seq<ItemStack>)
    requires items != []
    ensures Filled(items) == (if items[0].Empty() then [] else [items[0]]) + Filled(items[1..])
  {
  }

  lemma FilledNone()
    ensures Filled([]) == []
  {
  }

  lemma Associates<T>(a: seq<T>, b: seq<T>, c: seq<T>)
    ensures (a + b) + c == a + (b + c)
  {
  }

  lemma {:induction false} FilledConcat(a: seq<ItemStack>, b: seq<ItemStack>)
    ensures Filled(a + b) == Filled(a) + Filled(b)
  {
    hide Filled;
    if a == [] {
      FilledNone();
      assert a + b == b;
    } else {
      var front := if a[0].Empty() then [] else [a[0]];
      assert (a + b)[0] == a[0] && (a + b)[1..] == a[1..] + b;
      FilledUnfolds(a);
      FilledUnfolds(a + b);
      FilledConcat(a[1..], b);
      Associates(front, Filled(a[1..]), Filled(b));
    }
  }

  method Check(defs: ItemDefs, r: Recipe, input: CraftInput) returns (ok: bool)
    ensures ok <==> Accepts(defs, r, input)
  {
    match r
    case ShapedRecipe(_, width, slots) =>
      ok := Shaped.Check(defs, Shaped.Grid(slots, width), input);
    case ShapelessRecipe(_, slots) =>
      ok := Shapeless.Check(defs, slots, input);
    case ToolRepair(wear) =>
      if !input.craft.Normal? {
        return false;
      }
      var few, a, b := FilterFilled(input.items);
      if !few {
        return false;
      }
      ok := !Repaired(defs, a, b, wear).Empty();
    case Cooking(_, slot) =>
      if !input.craft.Cooking? {
        return false;
      }
      var filtered := Shapeless.FilterNames(input.items);
      ok := |filtered| == 1 && Matches(defs, filtered[0], slot);
    case Fuel(slot) =>
      if !input.craft.Fuel? {
        return false;
      }
      var filtered := Shapeless.FilterNames(input.items);
      ok := |filtered| == 1 && Matches(defs, filtered[0], slot);
  }

  // ----- hashing -----

  /** The names on lines of their own. */
  function Join(names: seq<Name>): (s: string) {
    if names == [] then "" else if |names| == 1 then names[0] else names[0] + "\n" + Join(names[1..])
  }

  ghost predicate OneLine(names: seq<Name>) {
    forall i :: 0 <= i < |names| ==> names[i] != "" && '\n' !in names[i]
  }

  /** Lists of names without line breaks are told apart by their lines. */
  lemma {:induction false} JoinIsUnique(a: seq<Name>, b: seq<Name>)
    requires OneLine(a) && OneLine(b) && Join(a) == Join(b)
    ensures a == b
  {
    if a != [] && b != [] {
      var tail, tail' := LinesAfter(a), LinesAfter(b);
      hide Join, LinesAfter;
      SameFirstLine(a[0], tail, b[0], tail');
      if tail != "" {
        JoinIsUnique(a[1..], b[1..]);
      }
      assert a == [a[0]] + a[1..] && b == [b[0]] + b[1..];
    }
  }

  ghost function LinesAfter(names: seq<Name>): (s: string)
    requires names != []
    ensures s == "" || s[0] == '\n'
    ensures Join(names) == names[0] + s
    ensures s == "" <==> |names| == 1
    ensures s != "" ==> s[1..] == Join(names[1..])
  {
    if |names| == 1 then "" else "\n" + Join(names[1..])
  }

  lemma SameFirstLine(x: Name, s: string, y: Name, t: string)
    requires x + s == y + t && '\n' !in x && '\n' !in y && (s == "" || s[0] == '\n') && (t == "" || t[0] == '\n')
    ensures x == y && s == t
  {
    LineEnds(x, s);
    LineEnds(y, t);
    assert |x| == |y|;
    assert x == (x + s)[..|x|] && s == (x + s)[|x|..] && y == (y + t)[..|y|] && t == (y + t)[|y|..];
  }

  lemma LineEnds(x: Name, s: string)
    requires '\n' !in x && (s == "" || s[0] == '\n')
    ensures forall k :: 0 <= k < |x| ==> (x + s)[k] != '\n'
    ensures |x| < |x + s| ==> (x + s)[|x|] == '\n'
  {
  }

  /** The hash under which a list of names is looked up in the layer `t`. */
  function GridHash(hash: string -> nat, t: HashType, names: seq<Name>): (h: nat) {
    match t
    case ItemNames => hash(Join(NonEmpty(names)))
    case Count => |NonEmpty(names)|
    case Unhashed => 0
  }

  function InputHash(hash: string -> nat, t: HashType, items: seq<ItemStack>): (h: nat) {
    GridHash(hash, t, Sort(Names(items)))
  }

  function HashTypeOf(r: Recipe): (t: HashType)
    ensures t != Unhashed
  {
    match r
    case ShapedRecipe(_, _, slots) => if HasGroup(slots) then Count else ItemNames
    case ShapelessRecipe(_, slots) => if HasGroup(slots) then Count else ItemNames
    case ToolRepair(_) => Count
    case Cooking(_, slot) => if IsGroup(slot) then Count else ItemNames
    case Fuel(slot) => if IsGroup(slot) then Count else ItemNames
  }

  function RecipeHash(hash: string -> nat, r: Recipe): (h: nat) {
    match r
    case ShapedRecipe(_, _, slots) => GridHash(hash, HashTypeOf(r), Sort(slots))
    case ShapelessRecipe(_, slots) => GridHash(hash, HashTypeOf(r), Sort(slots))
    case ToolRepair(_) => 2
    case Cooking(_, slot) => if IsGroup(slot) then 1 else hash(slot)
    case Fuel(slot) => if IsGroup(slot) then 1 else hash(slot)
  }

  /** Exactly the empty stacks have no name. */
  ghost predicate WellFormed(items: seq<ItemStack>) {
    forall i :: 0 <= i < |items| ==> (items[i].Empty() <==> items[i].name == "")
  }

  /** The item without a name, if it is registered at all, is in no group of any slot. */
  ghost predicate EmptyMatchesNoSlot(defs: ItemDefs) {
    forall slot :: slot != "" ==> !Matches(defs, "", slot)
  }

  /** The recipe is filed where this input looks for it, whatever the string hash. */
  ghost predicate FoundByHash(r: Recipe, items: seq<ItemStack>) {
    forall hash: string -> nat :: RecipeHash(hash, r) == InputHash(hash, HashTypeOf(r), items)
  }

  lemma {:induction false} FilledCount(items: seq<ItemStack>)
    requires WellFormed(items)
    ensures |Filled(items)| == |NonEmpty(Names(items))|
  {
    if items != [] {
      FilledCount(items[1..]);
      assert Names(items)[1..] == Names(items[1..]);
    }
  }

  lemma SortedCount(names: seq<Name>)
    ensures |NonEmpty(Sort(names))| == |NonEmpty(names)|
  {
    NonEmptyMultiset(names);
    NonEmptyMultiset(Sort(names));
    assert |multiset(NonEmpty(Sort(names)))| == |multiset(NonEmpty(names))|;
  }

  /** Lists with the same items, or with as many when some slot is a group, share their hash. */
  lemma SameGridHash(hash: string -> nat, slots: seq<Name>, names: seq<Name>)
    requires |NonEmpty(slots)| == |NonEmpty(names)|
    requires !HasGroup(slots) ==> multiset(NonEmpty(slots)) == multiset(NonEmpty(names))
    ensures var t := if HasGroup(slots) then Count else ItemNames;
            GridHash(hash, t, Sort(slots)) == GridHash(hash, t, Sort(names))
  {
    SortedCount(slots);
    SortedCount(names);
    if !HasGroup(slots) {
      SameNonEmptySorted(slots, names);
    }
  }

  lemma ShapedItems(defs: ItemDefs, width: nat, slots: seq<Name>, inputWidth: nat, names: seq<Name>)
    requires EmptyMatchesNoSlot(defs) && inputWidth > 0 && width > 0
    requires Shaped.SameShape(defs, Shaped.Grid(names, inputWidth), Shaped.Grid(slots, width))
    ensures |NonEmpty(slots)| == |NonEmpty(names)|
    ensures !HasGroup(slots) ==> NonEmpty(slots) == NonEmpty(names)
  {
    hide Shaped.SameShape;
    Shaped.AcceptedItems(defs, Shaped.Grid(names, inputWidth), Shaped.Grid(slots, width));
    if !HasGroup(slots) {
      NonEmptyMembers(slots);
      assert forall i :: 0 <= i < |NonEmpty(slots)| ==> !IsGroup(NonEmpty(slots)[i]);
    }
  }

  lemma {:induction false} NonEmptyMembers(names: seq<Name>)
    ensures forall i :: 0 <= i < |NonEmpty(names)| ==> NonEmpty(names)[i] in names && NonEmpty(names)[i] != ""
  {
    if names != [] {
      NonEmptyMembers(names[1..]);
    }
  }

  lemma ShapelessItems(defs: ItemDefs, slots: seq<Name>, names: seq<Name>)
    requires Pairings.Pairable(Shapeless.Allowed(defs), NonEmpty(names), slots)
    ensures |NonEmpty(slots)| == |NonEmpty(names)|
    ensures !HasGroup(slots) ==> multiset(NonEmpty(slots)) == multiset(NonEmpty(names))
  {
    var f: seq<nat> :| Pairings.PairsUp(Shapeless.Allowed(defs), NonEmpty(names), slots, f);
    NonEmptyMembers(names);
    forall j | 0 <= j < |slots|
      ensures slots[j] != ""
    {
      var i := Pairings.RearrangesOnto(f, |slots|, j);
      assert Matches(defs, NonEmpty(names)[i], slots[f[i]]);
    }
    NothingDropped(slots);
    if !HasGroup(slots) {
      assert NonEmpty(names) == Pairings.Picked(slots, f);
      Pairings.RearrangedMultiset(slots, f);
    }
  }

  lemma {:induction false} NothingDropped(names: seq<Name>)
    requires forall i :: 0 <= i < |names| ==> names[i] != ""
    ensures NonEmpty(names) == names
  {
    if names != [] {
      NothingDropped(names[1..]);
    }
  }

  lemma OneItem(hash: string -> nat, names: seq<Name>)
    requires |NonEmpty(names)| == 1
    ensures GridHash(hash, ItemNames, Sort(names)) == hash(NonEmpty(names)[0])
    ensures GridHash(hash, Count, Sort(names)) == 1
  {
    var x := NonEmpty(names);
    assert Sort(x) == x;
    NonEmptyMembers(names);
    NothingDropped(x);
    SortedCount(names);
    SameNonEmptySorted(names, x);
  }

  /** Whatever a recipe accepts is looked up where the recipe is filed. */
  lemma AcceptedIsFoundByHash(defs: ItemDefs, r: Recipe, input: CraftInput)
    requires EmptyMatchesNoSlot(defs) && WellFormed(input.items) && Accepts(defs, r, input)
    ensures FoundByHash(r, input.items)
  {
    var names := Names(input.items);
    forall hash: string -> nat
      ensures RecipeHash(hash, r) == InputHash(hash, HashTypeOf(r), input.items)
    {
      match r
      case ShapedRecipe(_, width, slots) =>
        ShapedItems(defs, width, slots, input.width, names);
        SameGridHash(hash, slots, names);
      case ShapelessRecipe(_, slots) =>
        ShapelessItems(defs, slots, names);
        SameGridHash(hash, slots, names);
      case ToolRepair(_) =>
        FilledCount(input.items);
        SortedCount(names);
      case Cooking(_, slot) =>
        OneItem(hash, names);
      case Fuel(slot) =>
        OneItem(hash, names);
    }
  }

  lemma ThreeCells(x: Name, y: Name, z: Name)
    requires x != "" && z != ""
    ensures var g := Shaped.Grid([x, y, z], 3);
            && (forall u, v :: Shaped.Cell(g, u, v) == if v == 0 && u == 0 then x else if v == 0 && u == 1 then y
                                                       else if v == 0 && u == 2 then z else "")
            && Shaped.IsBox(g, Shaped.Box(0, 2, 0, 0))
  {
    var g := Shaped.Grid([x, y, z], 3);
    assert Shaped.Cell(g, 0, 0) == x && Shaped.Cell(g, 2, 0) == z;
  }

  lemma ThreeCount(x: Name, y: Name, z: Name)
    requires x != "" && z != ""
    ensures |NonEmpty([x, y, z])| == if y == "" then 2 else 3
  {
    NonEmptyAppend([], x);
    NonEmptyAppend([x], y);
    NonEmptyAppend([x, y], z);
    assert [] + [x] == [x] && [x] + [y] == [x, y] && [x, y] + [z] == [x, y, z];
  }

  /** The middle one of three slots may stay empty. */
  ghost function SoftSlots(a: Name, slot: Name): (slots: seq<Name>)
    ensures |slots| == 3 && slots == [a, slot, a]
  {
    [a, slot, a]
  }

  ghost function SoftInput(a: Name): (input: CraftInput)
    requires a != ""
    ensures Names(input.items) == SoftSlots(a, "") && WellFormed(input.items)
    ensures input.craft == Normal && input.width == 3
  {
    CraftInput(Normal, 3, [ItemStack(a, 1, 0), NO_ITEM, ItemStack(a, 1, 0)])
  }

  lemma SoftCount(a: Name, slot: Name)
    requires a != ""
    ensures |NonEmpty(Sort(SoftSlots(a, slot)))| == if slot == "" then 2 else 3
  {
    ThreeCount(a, slot, a);
    SortedCount(SoftSlots(a, slot));
  }

  lemma SoftMiddleAccepted(defs: ItemDefs, a: Name, slot: Name)
    requires a != "" && slot != "" && Matches(defs, "", slot)
    ensures Shaped.SameShape(defs, Shaped.Grid(SoftSlots(a, ""), 3), Shaped.Grid(SoftSlots(a, slot), 3))
  {
    var b := Shaped.Box(0, 2, 0, 0);
    ThreeCells(a, "", a);
    ThreeCells(a, slot, a);
    assert Matches(defs, a, a);
    hide Matches, Shaped.Cell, Shaped.IsBox;
    assert Shaped.BoxesMatch(defs, Shaped.Grid(SoftSlots(a, ""), 3), Shaped.Grid(SoftSlots(a, slot), 3), b, b);
  }

  /** The recipe is filed under its three slots. */
  lemma SoftMiddleFiled(a: Name, slot: Name, hash: string -> nat)
    requires a != "" && slot != "" && HasGroup(SoftSlots(a, slot))
    ensures HashTypeOf(ShapedRecipe(a, 3, SoftSlots(a, slot))) == Count
    ensures RecipeHash(hash, ShapedRecipe(a, 3, SoftSlots(a, slot))) == 3
  {
    SoftCount(a, slot);
    hide NonEmpty, Sort, Join, HasGroup, SoftSlots;
  }

  /** Its input is looked up under its two items. */
  lemma SoftMiddleLookedUp(a: Name, hash: string -> nat)
    requires a != ""
    ensures InputHash(hash, Count, SoftInput(a).items) == 2
  {
    SoftCount(a, "");
    hide NonEmpty, Sort, Join;
  }

  lemma SoftMiddleMissed(a: Name, slot: Name, hash: string -> nat)
    requires a != "" && IsGroup(slot)
    ensures RecipeHash(hash, ShapedRecipe(a, 3, SoftSlots(a, slot))) == 3
    ensures InputHash(hash, HashTypeOf(ShapedRecipe(a, 3, SoftSlots(a, slot))), SoftInput(a).items) == 2
  {
    assert SoftSlots(a, slot)[1] == slot;
    hide SoftInput, SoftSlots, IsGroup, RecipeHash, InputHash, HashTypeOf;
    SoftMiddleFiled(a, slot, hash);
    SoftMiddleLookedUp(a, hash);
  }

  lemma SoftAccepted(defs: ItemDefs, a: Name, slot: Name)
    requires a != "" && slot != "" && Matches(defs, "", slot)
    ensures Accepts(defs, ShapedRecipe(a, 3, SoftSlots(a, slot)), SoftInput(a))
  {
    SoftMiddleAccepted(defs, a, slot);
    hide Matches, Shaped.SameShape, SoftSlots, SoftInput;
  }

  /** An interior slot that may stay empty gives a recipe that its own input does not find. */
  lemma SoftSlotIsMissed(defs: ItemDefs, a: Name, slot: Name)
    requires a != "" && slot != "" && Matches(defs, "", slot)
    ensures var r := ShapedRecipe(a, 3, SoftSlots(a, slot));
            WellFormed(SoftInput(a).items) && Accepts(defs, r, SoftInput(a)) && !FoundByHash(r, SoftInput(a).items)
  {
    hide SoftSlots, SoftInput, FoundByHash, Accepts, IsGroup, Matches, WellFormed;
    SoftAccepted(defs, a, slot);
    SoftNotFound(defs, a, slot);
  }

  lemma SoftNotFound(defs: ItemDefs, a: Name, slot: Name)
    requires a != "" && slot != "" && Matches(defs, "", slot)
    ensures !FoundByHash(ShapedRecipe(a, 3, SoftSlots(a, slot)), SoftInput(a).items)
  {
    assert IsGroup(slot);
    hide SoftSlots, SoftInput, FoundByHash, IsGroup, Matches, RecipeHash, InputHash, HashTypeOf;
    var hash := (text: string) => 0;
    SoftMiddleMissed(a, slot, hash);
    NotFound(ShapedRecipe(a, 3, SoftSlots(a, slot)), SoftInput(a).items, hash);
  }

  lemma NotFound(r: Recipe, items: seq<ItemStack>, hash: string -> nat)
    requires RecipeHash(hash, r) != InputHash(hash, HashTypeOf(r), items)
    ensures !FoundByHash(r, items)
  {
    hide RecipeHash, InputHash, HashTypeOf;
  }

  /** The hashed layers lose no match exactly when no slot accepts an empty stack. */
  lemma HashingIsComplete(defs: ItemDefs)
    ensures EmptyMatchesNoSlot(defs) <==>
              forall r, input: CraftInput :: WellFormed(input.items) && Accepts(defs, r, input) ==> FoundByHash(r, input.items)
  {
    if EmptyMatchesNoSlot(defs) {
      forall r, input: CraftInput | WellFormed(input.items) && Accepts(defs, r, input)
        ensures FoundByHash(r, input.items)
      {
        AcceptedIsFoundByHash(defs, r, input);
      }
    } else {
      var slot :| slot != "" && Matches(defs, "", slot);
      SoftSlotIsMissed(defs, "a", slot);
    }
  }
}
