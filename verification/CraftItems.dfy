/** Item names, recipe slots and the order that std::sort gives them. */
module CraftItems {

  type Name = string

  /** The registered items: the groups of each, with their ratings, and which are tools. */
  datatype ItemDefs = ItemDefs(groups: map<Name, map<string, int>>, tools: set<Name>) {

    predicate IsKnown(name: Name) {
      name in groups
    }

    /** A missing group has rating 0. */
    function Rating(name: Name, group: string): int
      requires IsKnown(name)
    {
      if group in groups[name] then groups[name][group] else 0
    }
  }

  /** A slot of the crafting grid. An empty stack has count 0 and no name. */
  datatype ItemStack = ItemStack(name: Name, count: nat, wear: nat) {
    predicate Empty() {
      count == 0
    }
  }

  datatype CraftMethod = Normal | Cooking | Fuel

  datatype CraftInput = CraftInput(craft: CraftMethod, width: nat, items: seq<ItemStack>)

  function Names(items: seq<ItemStack>): (r: seq<Name>)
    ensures |r| == |items| && forall i :: 0 <= i < |items| ==> r[i] == items[i].name
  {
    seq(|items|, i requires 0 <= i < |items| => items[i].name)
  }

  /** The names that are not empty, in their order. */
  function NonEmpty(names: seq<Name>): (r: seq<Name>) {
    if names == [] then [] else if names[0] == "" then NonEmpty(names[1..]) else [names[0]] + NonEmpty(names[1..])
  }

  lemma {:induction false} NonEmptyMultiset(names: seq<Name>)
    ensures multiset(NonEmpty(names)) == multiset(names)["" := 0]
  {
    if names != [] {
      NonEmptyMultiset(names[1..]);
      assert names == [names[0]] + names[1..];
    }
  }

  lemma {:induction false} NonEmptyAppend(names: seq<Name>, x: Name)
    ensures NonEmpty(names + [x]) == NonEmpty(names) + (if x == "" then [] else [x])
  {
    if names != [] {
      NonEmptyAppend(names[1..], x);
      assert (names + [x])[1..] == names[1..] + [x];
    }
  }

  // ----- matching one input item against one recipe slot -----

  const GROUP_PREFIX := "group:"

  predicate IsGroup(slot: Name) {
    GROUP_PREFIX <= slot
  }

  /** Position of the next comma at or after `pos`, or the end of the text. */
  function NextComma(s: string, pos: nat): (i: nat)
    requires pos <= |s|
    ensures pos <= i <= |s|
    ensures ',' !in s[pos..i] && (i < |s| ==> s[i] == ',')
    decreases |s| - pos
  {
    if pos == |s| || s[pos] == ',' then pos else NextComma(s, pos + 1)
  }

  /** Every group of the comma-separated list from `pos` on has a rating other than 0. An empty
      list is one group with the empty name; nothing follows a final comma. */
  predicate AllGroupsMatch(defs: ItemDefs, name: Name, list: string, pos: nat)
    requires defs.IsKnown(name) && pos <= |list|
    decreases |list| - pos
  {
    var comma := NextComma(list, pos);
    && defs.Rating(name, list[pos..comma]) != 0
    && (comma + 1 < |list| ==> AllGroupsMatch(defs, name, list, comma + 1))
  }

  predicate Matches(defs: ItemDefs, input: Name, slot: Name) {
    || input == slot
    || (IsGroup(slot) && defs.IsKnown(input) && AllGroupsMatch(defs, input, slot[|GROUP_PREFIX|..], 0))
  }

  /** The names separated by commas. */
  function Commas(names: seq<string>): (list: string) {
    if names == [] then "" else if |names| == 1 then names[0] else names[0] + ("," + Commas(names[1..]))
  }

  predicate NoComma(names: seq<string>) {
    forall i :: 0 <= i < |names| ==> ',' !in names[i]
  }

  /** The names of a list that are asked for: an empty one at the end is not, unless it is the only one. */
  function Asked(names: seq<string>): seq<string> {
    if |names| > 1 && names[|names| - 1] == "" then names[..|names| - 1] else names
  }

  /** The item is registered in all of these groups. */
  ghost predicate InGroups(defs: ItemDefs, x: Name, names: seq<string>) {
    x in defs.groups && forall i :: 0 <= i < |names| ==> names[i] in defs.groups[x] && defs.groups[x][names[i]] != 0
  }

  /** A slot of groups takes the items that are in every one of them, and nothing else but an item of the
      very name of the slot. */
  lemma GroupSlotTakes(defs: ItemDefs, x: Name, names: seq<string>)
    requires |names| > 0 && NoComma(names)
    ensures var slot := "group:" + Commas(names);
            Matches(defs, x, slot) <==> x == slot || InGroups(defs, x, Asked(names))
  {
    var slot := "group:" + Commas(names);
    assert slot[..6] == "group:" && slot[6..] == Commas(names) && Commas(names)[0..] == Commas(names);
    if x in defs.groups {
      ListTakes(defs, x, Commas(names), 0, names);
    }
    hide Commas, Asked, AllGroupsMatch;
  }

  /** Any other slot takes the item of its name only. */
  lemma PlainSlotTakes(defs: ItemDefs, x: Name, slot: Name)
    requires |slot| < 6 || slot[..6] != "group:"
    ensures Matches(defs, x, slot) <==> x == slot
  {
  }

  /** Every text is a list of names without commas. */
  lemma {:induction false} IsCommaList(list: string) returns (names: seq<string>)
    ensures |names| > 0 && NoComma(names) && Commas(names) == list
    decreases |list|
  {
    var comma := NextComma(list, 0);
    assert list[0..comma] == list[..comma];
    if comma == |list| {
      names := [list];
    } else {
      var rest := IsCommaList(list[comma + 1..]);
      names := [list[..comma]] + rest;
      assert names[1..] == rest && list == list[..comma] + ("," + list[comma + 1..]);
    }
  }

  lemma {:induction false} ListTakes(defs: ItemDefs, x: Name, list: string, pos: nat, names: seq<string>)
    requires x in defs.groups && |names| > 0 && NoComma(names) && pos <= |list| && list[pos..] == Commas(names)
    ensures AllGroupsMatch(defs, x, list, pos) <==> InGroups(defs, x, Asked(names))
    decreases |names|
  {
    hide Commas, NoComma, InGroups, Asked;
    NameEndsAtComma(list, pos, names);
    var comma := pos + |names[0]|;
    OneGroup(defs, x, names[0]);
    assert AllGroupsMatch(defs, x, list, pos) <==>
             defs.Rating(x, names[0]) != 0 && (comma + 1 < |list| ==> AllGroupsMatch(defs, x, list, comma + 1));
    hide AllGroupsMatch;
    if comma + 1 < |list| {
      ListTakes(defs, x, list, comma + 1, names[1..]);
      AskedNext(defs, x, names);
    }
  }

  lemma OneGroup(defs: ItemDefs, x: Name, name: string)
    requires x in defs.groups
    ensures defs.Rating(x, name) != 0 <==> InGroups(defs, x, [name])
  {
    assert [name][0] == name;
  }

  /** The first name ends where the next comma is, and what follows is the rest of the list. */
  lemma NameEndsAtComma(list: string, pos: nat, names: seq<string>)
    requires |names| > 0 && NoComma(names) && pos <= |list| && list[pos..] == Commas(names)
    ensures var comma := pos + |names[0]|;
            && comma <= |list| && NextComma(list, pos) == comma && list[pos..comma] == names[0]
            && (comma + 1 < |list| ==> |names| > 1 && NoComma(names[1..]) && list[comma + 1..] == Commas(names[1..]) && names[1..] != [""])
            && (comma + 1 >= |list| ==> Asked(names) == [names[0]])
  {
    var comma, tail := pos + |names[0]|, list[pos..];
    assert tail[..|names[0]|] == names[0];
    assert list[pos..comma] == names[0];
    if |names| > 1 {
      assert tail[|names[0]|] == ',' && list[comma] == ',';
      assert tail[|names[0]| + 1..] == Commas(names[1..]) && list[comma + 1..] == tail[|names[0]| + 1..];
      NotEmptyList(names[1..]);
      assert names[1..] == [""] ==> names[..1] == [names[0]];
    }
    CommaAt(list, pos, comma);
    hide Commas, NextComma;
  }

  lemma NotEmptyList(names: seq<string>)
    requires |names| > 0
    ensures Commas(names) == "" <==> names == [""]
  {
  }

  lemma CommaAt(list: string, pos: nat, comma: nat)
    requires pos <= comma <= |list| && ',' !in list[pos..comma] && (comma < |list| ==> list[comma] == ',')
    ensures NextComma(list, pos) == comma
  {
    var i := NextComma(list, pos);
    assert forall k :: pos <= k < comma ==> list[pos..comma][k - pos] == list[k];
    assert forall k :: pos <= k < i ==> list[pos..i][k - pos] == list[k];
    hide NextComma;
  }

  lemma AskedNext(defs: ItemDefs, x: Name, names: seq<string>)
    requires |names| > 1 && names[1..] != [""]
    ensures InGroups(defs, x, Asked(names)) <==> InGroups(defs, x, [names[0]]) && InGroups(defs, x, Asked(names[1..]))
  {
    assert Asked(names) == [names[0]] + Asked(names[1..]);
    OneMoreGroup(defs, x, names[0], Asked(names[1..]));
    hide Asked, InGroups;
  }

  lemma OneMoreGroup(defs: ItemDefs, x: Name, name: string, names: seq<string>)
    ensures InGroups(defs, x, [name] + names) <==> InGroups(defs, x, [name]) && InGroups(defs, x, names)
  {
    var all := [name] + names;
    assert forall i :: 0 <= i < |names| ==> all[i + 1] == names[i];
    assert all[0] == name && [name][0] == name;
  }

  // ----- sorting names -----

  predicate NameLess(a: Name, b: Name) {
    |b| > 0 && (|a| == 0 || a[0] < b[0] || (a[0] == b[0] && NameLess(a[1..], b[1..])))
  }

  lemma {:induction false} NameOrderTotal(a: Name, b: Name)
    ensures NameLess(a, b) || a == b || NameLess(b, a)
    ensures !(NameLess(a, b) && NameLess(b, a)) && !NameLess(a, a)
  {
    if |a| > 0 {
      NameOrderTotal(a[1..], a[1..]);
      if |b| > 0 && a[0] == b[0] {
        NameOrderTotal(a[1..], b[1..]);
        assert a[1..] == b[1..] ==> a == [a[0]] + a[1..] == [b[0]] + b[1..] == b;
      }
    }
  }

  lemma {:induction false} NameOrderTransitive(a: Name, b: Name, c: Name)
    requires NameLess(a, b) && NameLess(b, c)
    ensures NameLess(a, c)
  {
    if |a| > 0 && a[0] == b[0] == c[0] {
      NameOrderTransitive(a[1..], b[1..], c[1..]);
    }
  }

  ghost predicate Sorted(s: seq<Name>) {
    forall i, j :: 0 <= i < j < |s| ==> !NameLess(s[j], s[i])
  }

  lemma NotLessTransitive(a: Name, b: Name, c: Name)
    requires !NameLess(b, a) && !NameLess(c, b)
    ensures !NameLess(c, a)
  {
    NameOrderTotal(a, b);
    NameOrderTotal(b, c);
    NameOrderTotal(a, c);
    if NameLess(a, b) && NameLess(b, c) {
      NameOrderTransitive(a, b, c);
    }
  }

  function Insert(x: Name, s: seq<Name>): (r: seq<Name>) {
    if s == [] || !NameLess(s[0], x) then [x] + s else [s[0]] + Insert(x, s[1..])
  }

  lemma InsertLater(x: Name, s: seq<Name>, r: seq<Name>)
    requires s != [] && Sorted(s) && NameLess(s[0], x) && Sorted(r) && multiset(r) == multiset(s[1..]) + multiset{x}
    ensures Sorted([s[0]] + r) && multiset([s[0]] + r) == multiset(s) + multiset{x}
  {
    hide NameLess;
    assert s == [s[0]] + s[1..];
    NameOrderTotal(x, s[0]);
    forall j | 0 <= j < |r|
      ensures !NameLess(r[j], s[0])
    {
      assert r[j] in multiset(r);
      assert r[j] == x || r[j] in s[1..];
    }
  }

  lemma {:induction false} InsertKeepsSorted(x: Name, s: seq<Name>)
    requires Sorted(s)
    ensures Sorted(Insert(x, s)) && multiset(Insert(x, s)) == multiset(s) + multiset{x}
  {
    if s == [] {
    } else if NameLess(s[0], x) {
      InsertKeepsSorted(x, s[1..]);
      InsertLater(x, s, Insert(x, s[1..]));
    } else {
      forall j | 0 < j < |s|
        ensures !NameLess(s[j], x)
      {
        NotLessTransitive(x, s[0], s[j]);
      }
    }
  }

  function Sort(s: seq<Name>): (r: seq<Name>)
    ensures Sorted(r) && multiset(r) == multiset(s)
  {
    if s == [] then [] else
    assert s == [s[0]] + s[1..];
    InsertKeepsSorted(s[0], Sort(s[1..]));
    Insert(s[0], Sort(s[1..]))
  }

  /** What std::set_difference leaves of `a` after one pass over both lists. */
  function Difference(a: seq<Name>, b: seq<Name>): (r: seq<Name>) {
    if a == [] || b == [] then a
    else if NameLess(a[0], b[0]) then [a[0]] + Difference(a[1..], b)
    else if NameLess(b[0], a[0]) then Difference(a, b[1..])
    else Difference(a[1..], b[1..])
  }

  /** On sorted lists the single pass computes the difference of the two multisets. */
  lemma {:induction false} DifferenceOfSorted(a: seq<Name>, b: seq<Name>)
    requires Sorted(a) && Sorted(b)
    ensures multiset(Difference(a, b)) == multiset(a) - multiset(b)
    decreases |a| + |b|
  {
    if a != [] && b != [] {
      HeadAndTail(a);
      HeadAndTail(b);
      NameOrderTotal(a[0], b[0]);
      if NameLess(a[0], b[0]) {
        FirstIsAbsent(a[0], b);
        DifferenceOfSorted(a[1..], b);
      } else if NameLess(b[0], a[0]) {
        FirstIsAbsent(b[0], a);
        DifferenceOfSorted(a, b[1..]);
      } else {
        DifferenceOfSorted(a[1..], b[1..]);
      }
    }
  }

  lemma HeadAndTail(s: seq<Name>)
    requires s != [] && Sorted(s)
    ensures multiset(s) == multiset{s[0]} + multiset(s[1..]) && Sorted(s[1..])
  {
    assert s == [s[0]] + s[1..];
  }

  lemma FirstIsAbsent(x: Name, s: seq<Name>)
    requires Sorted(s) && |s| > 0 && NameLess(x, s[0])
    ensures x !in multiset(s)
  {
    if x in multiset(s) {
      var j :| 0 <= j < |s| && s[j] == x;
      NameOrderTotal(x, s[0]);
    }
  }

  /** A sorted list is determined by its multiset. */
  lemma {:induction false} SortedIsUnique(a: seq<Name>, b: seq<Name>)
    requires Sorted(a) && Sorted(b) && multiset(a) == multiset(b)
    ensures a == b
  {
    assert |a| == |multiset(a)| && |b| == |multiset(b)|;
    if a != [] {
      SameHead(a, b);
      TailIsSorted(a);
      TailIsSorted(b);
      hide Sorted, NameLess;
      TailsAgree(a, b);
      SortedIsUnique(a[1..], b[1..]);
      assert a == [a[0]] + a[1..] && b == [b[0]] + b[1..];
    }
  }

  lemma TailIsSorted(a: seq<Name>)
    requires Sorted(a) && a != []
    ensures Sorted(a[1..])
  {
  }

  lemma TailsAgree(a: seq<Name>, b: seq<Name>)
    requires a != [] && b != [] && a[0] == b[0] && multiset(a) == multiset(b)
    ensures multiset(a[1..]) == multiset(b[1..])
  {
    assert a == [a[0]] + a[1..] && b == [b[0]] + b[1..];
    assert multiset(a) == multiset{a[0]} + multiset(a[1..]) && multiset(b) == multiset{b[0]} + multiset(b[1..]);
    assert multiset(a[1..]) == multiset(a) - multiset{a[0]} && multiset(b[1..]) == multiset(b) - multiset{b[0]};
  }

  lemma SameHead(a: seq<Name>, b: seq<Name>)
    requires Sorted(a) && Sorted(b) && multiset(a) == multiset(b) && a != [] && b != []
    ensures a[0] == b[0]
  {
    assert a[0] in multiset(b) && b[0] in multiset(a);
    var i :| 0 <= i < |b| && b[i] == a[0];
    var j :| 0 <= j < |a| && a[j] == b[0];
    NameOrderTotal(a[0], b[0]);
    hide NameLess;
  }

  lemma {:induction false} NonEmptySorted(s: seq<Name>)
    requires Sorted(s)
    ensures Sorted(NonEmpty(s))
    ensures forall i :: 0 <= i < |NonEmpty(s)| ==> NonEmpty(s)[i] in s && NonEmpty(s)[i] != ""
  {
    if s != [] {
      NonEmptySorted(s[1..]);
    }
  }

  lemma {:induction false} NonEmptyConcat(a: seq<Name>, b: seq<Name>)
    ensures NonEmpty(a + b) == NonEmpty(a) + NonEmpty(b)
  {
    if a == [] {
      assert a + b == b;
    } else {
      assert (a + b)[1..] == a[1..] + b && (a + b)[0] == a[0];
      UnfoldNonEmpty(a + b);
      UnfoldNonEmpty(a);
      hide NonEmpty;
      NonEmptyConcat(a[1..], b);
      if a[0] != "" {
        assert [a[0]] + (NonEmpty(a[1..]) + NonEmpty(b)) == [a[0]] + NonEmpty(a[1..]) + NonEmpty(b);
      }
    }
  }

  lemma UnfoldNonEmpty(names: seq<Name>)
    requires names != []
    ensures names[0] == "" ==> NonEmpty(names) == NonEmpty(names[1..])
    ensures names[0] != "" ==> NonEmpty(names) == [names[0]] + NonEmpty(names[1..])
  {
  }

  lemma {:induction false} AllBlank(s: seq<Name>)
    requires forall i :: 0 <= i < |s| ==> s[i] == ""
    ensures NonEmpty(s) == []
  {
    if s != [] {
      AllBlank(s[1..]);
    }
  }

  /** Sorting and dropping the empty names commute, up to the choice of list. */
  lemma SameNonEmptySorted(a: seq<Name>, b: seq<Name>)
    requires multiset(NonEmpty(a)) == multiset(NonEmpty(b))
    ensures NonEmpty(Sort(a)) == NonEmpty(Sort(b))
  {
    NonEmptySorted(Sort(a));
    NonEmptySorted(Sort(b));
    NonEmptyMultiset(a);
    NonEmptyMultiset(b);
    NonEmptyMultiset(Sort(a));
    NonEmptyMultiset(Sort(b));
    SortedIsUnique(NonEmpty(Sort(a)), NonEmpty(Sort(b)));
  }
}
