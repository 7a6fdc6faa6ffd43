/** The registry of recipes: filed by hash, searched from the least to the most ambiguous layer. */
module CraftManager {
  import opened CraftItems
  import opened Recipes

  /** A registered recipe; `id` tells apart recipes that are otherwise equal. */
  datatype Entry = Entry(id: nat, recipe: Recipe)

  type Key = (HashType, nat)

  const UNHASHED: Key := (Unhashed, 0)

  /** The recipe applies to the input and makes a registered item. */
  ghost predicate Applies(defs: ItemDefs, e: Entry, input: CraftInput) {
    Accepts(defs, e.recipe, input) && defs.IsKnown(Output(defs, e.recipe, input.items))
  }

  // ----- the search order -----

  function Reversed(s: seq<Entry>): (r: seq<Entry>)
    ensures |r| == |s| && forall i :: 0 <= i < |s| ==> r[i] == s[|s| - 1 - i]
  {
    if s == [] then [] else Reversed(s[1..]) + [s[0]]
  }

  function Bucket(craftDefs: map<Key, seq<Entry>>, key: Key): (r: seq<Entry>) {
    if key in craftDefs then craftDefs[key] else []
  }

  function LayerKey(hash: string -> nat, t: HashType, items: seq<ItemStack>): (k: Key)
    ensures k.0 == t && (t == Unhashed ==> k == UNHASHED)
  {
    (t, InputHash(hash, t, items))
  }

  /** All entries the search looks at in the first `layers` layers, in its order: the latest
      registered of a bucket first. */
  function Candidates(craftDefs: map<Key, seq<Entry>>, hash: string -> nat, items: seq<ItemStack>, layers: nat): (r: seq<Entry>)
    requires layers <= 3
  {
    if layers == 0 then [] else
    Candidates(craftDefs, hash, items, layers - 1) + Reversed(Bucket(craftDefs, LayerKey(hash, LAYERS[layers - 1], items)))
  }

  const LAYERS := [ItemNames, Count, Unhashed]

  /** The first of the highest-ranking entries of `list` that apply. */
  ghost predicate IsBest(defs: ItemDefs, input: CraftInput, list: seq<Entry>, best: Entry) {
    exists i :: 0 <= i < |list| && list[i] == best && Applies(defs, best, input)
      && (forall j :: 0 <= j < |list| && Applies(defs, list[j], input) ==> Priority(list[j].recipe) <= Priority(best.recipe))
      && (forall j :: 0 <= j < i && Applies(defs, list[j], input) ==> Priority(list[j].recipe) < Priority(best.recipe))
  }

  ghost predicate NoneApplies(defs: ItemDefs, input: CraftInput, list: seq<Entry>) {
    forall j :: 0 <= j < |list| ==> !Applies(defs, list[j], input)
  }

  datatype Choice = NoChoice | Chosen(entry: Entry) {
    function Rank(): nat {
      if NoChoice? then NO_RECIPE else Priority(entry.recipe)
    }
  }

  ghost predicate BestSoFar(defs: ItemDefs, input: CraftInput, seen: seq<Entry>, c: Choice) {
    if c.NoChoice? then NoneApplies(defs, input, seen) else IsBest(defs, input, seen, c.entry)
  }

  lemma SeeEntry(defs: ItemDefs, input: CraftInput, seen: seq<Entry>, c: Choice, e: Entry)
    requires BestSoFar(defs, input, seen, c)
    ensures Priority(e.recipe) > c.Rank() && Applies(defs, e, input) ==>
              BestSoFar(defs, input, seen + [e], Chosen(e))
    ensures !(Priority(e.recipe) > c.Rank() && Applies(defs, e, input)) ==> BestSoFar(defs, input, seen + [e], c)
  {
    hide Applies;
    var all := seen + [e];
    assert forall j :: 0 <= j < |seen| ==> all[j] == seen[j];
    assert all[|seen|] == e;
    if c.Chosen? {
      var i :| 0 <= i < |seen| && seen[i] == c.entry
        && (forall j :: 0 <= j < |seen| && Applies(defs, seen[j], input) ==> Priority(seen[j].recipe) <= c.Rank())
        && (forall j :: 0 <= j < i && Applies(defs, seen[j], input) ==> Priority(seen[j].recipe) < c.Rank());
      assert all[i] == c.entry;
    }
  }

  function Remove(s: seq<Entry>, gone: set<Entry>): (r: seq<Entry>)
    ensures forall e :: e in r <==> e in s && e !in gone
  {
    if s == [] then [] else if s[0] in gone then Remove(s[1..], gone) else [s[0]] + Remove(s[1..], gone)
  }

  lemma RemoveUnfolds(s: seq<Entry>, gone: set<Entry>)
    requires s != []
    ensures Remove(s, gone) == (if s[0] in gone then [] else [s[0]]) + Remove(s[1..], gone)
  {
  }

  lemma {:induction false} RemoveSplit(a: seq<Entry>, b: seq<Entry>, gone: set<Entry>)
    ensures Remove(a + b, gone) == Remove(a, gone) + Remove(b, gone)
  {
    hide Remove;
    if a == [] {
      RemoveNone(gone);
      assert a + b == b;
    } else {
      RemoveUnfolds(a, gone);
      RemoveUnfolds(a + b, gone);
      RemoveSplit(a[1..], b, gone);
      assert (a + b)[1..] == a[1..] + b;
      EntriesAssoc(if a[0] in gone then [] else [a[0]], Remove(a[1..], gone), Remove(b, gone));
    }
  }

  lemma RemoveNext(entries: seq<Entry>, i: nat, gone: set<Entry>)
    requires i < |entries|
    ensures Remove(entries[..i + 1], gone) == Remove(entries[..i], gone) + if entries[i] in gone then [] else [entries[i]]
  {
    RemoveSplit(entries[..i], [entries[i]], gone);
    assert entries[..i + 1] == entries[..i] + [entries[i]];
    assert [entries[i]][1..] == [];
  }

  lemma {:induction false} RemoveTwice(s: seq<Entry>, a: set<Entry>, b: set<Entry>)
    ensures Remove(Remove(s, a), b) == Remove(s, a + b)
  {
    if s != [] {
      RemoveTwice(s[1..], a, b);
      assert ([s[0]] + Remove(s[1..], a))[1..] == Remove(s[1..], a);
    }
  }

  lemma {:induction false} RemoveNothing(s: seq<Entry>)
    ensures Remove(s, {}) == s
  {
    if s != [] {
      RemoveNothing(s[1..]);
    }
  }

  lemma RemoveNone(gone: set<Entry>)
    ensures Remove([], gone) == []
  {
  }

  predicate AllEmpty(items: seq<ItemStack>): (r: bool)
    ensures !r <==> exists i :: 0 <= i < |items| && items[i].count > 0
  {
    forall i :: 0 <= i < |items| ==> items[i].Empty()
  }

  // ----- the filing system -----

  function OwnKey(hash: string -> nat, e: Entry): Key {
    (HashTypeOf(e.recipe), RecipeHash(hash, e.recipe))
  }

  function OutputName(defs: ItemDefs, e: Entry): Name {
    Output(defs, e.recipe, [])
  }

  /** Every live recipe is filed in the unhashed layer or under its own hash, and only live ones are. */
  ghost predicate Filed(hash: string -> nat, filed: map<Key, seq<Entry>>, live: set<Entry>) {
    && (forall e :: e in live ==> e in Bucket(filed, UNHASHED) || e in Bucket(filed, OwnKey(hash, e)))
    && (forall k, e :: k in filed && e in filed[k] ==> e in live && (k == UNHASHED || k == OwnKey(hash, e)))
  }

  ghost predicate NoneHashed(filed: map<Key, seq<Entry>>) {
    forall k :: k in filed && k != UNHASHED ==> filed[k] == []
  }

  ghost predicate Indexed(defs: ItemDefs, index: map<Name, seq<Entry>>, live: set<Entry>) {
    && (forall e :: e in live ==> OutputName(defs, e) in index && e in index[OutputName(defs, e)])
    && (forall n, e :: n in index && e in index[n] ==> e in live && n == OutputName(defs, e))
  }

  lemma FileNew(hash: string -> nat, filed: map<Key, seq<Entry>>, live: set<Entry>, e: Entry)
    requires Filed(hash, filed, live)
    ensures var filed' := filed[UNHASHED := Bucket(filed, UNHASHED) + [e]];
            Filed(hash, filed', live + {e}) && (NoneHashed(filed) ==> NoneHashed(filed'))
  {
    hide OwnKey;
  }

  lemma IndexNew(defs: ItemDefs, index: map<Name, seq<Entry>>, live: set<Entry>, e: Entry)
    requires Indexed(defs, index, live)
    ensures var name := OutputName(defs, e);
            Indexed(defs, index[name := (if name in index then index[name] else []) + [e]], live + {e})
  {
    hide OutputName;
  }

  /** No recipe of the unhashed layer is hashed as well. */
  ghost predicate Apart(filed: map<Key, seq<Entry>>) {
    forall k, e :: k != UNHASHED && e in Bucket(filed, k) ==> e !in Bucket(filed, UNHASHED)
  }

  ghost predicate OnlyUnhashedLess(filed: map<Key, seq<Entry>>, filed': map<Key, seq<Entry>>, gone: set<Entry>) {
    && (forall k :: k != UNHASHED ==> Bucket(filed', k) == Bucket(filed, k))
    && forall e :: e in Bucket(filed', UNHASHED) <==> e in Bucket(filed, UNHASHED) && e !in gone
  }

  ghost predicate NoneIsHashed(filed: map<Key, seq<Entry>>, gone: set<Entry>) {
    forall k, e :: k != UNHASHED && e in Bucket(filed, k) ==> e !in gone
  }

  /** Dropping entries from the unhashed layer alone is right exactly if none of them is hashed. */
  lemma RefileUnhashed(hash: string -> nat, filed: map<Key, seq<Entry>>, filed': map<Key, seq<Entry>>, live: set<Entry>, gone: set<Entry>)
    requires Filed(hash, filed, live) && Apart(filed) && OnlyUnhashedLess(filed, filed', gone)
    ensures Filed(hash, filed', live - gone) <==> NoneIsHashed(filed, gone)
    ensures Apart(filed')
  {
    if NoneIsHashed(filed, gone) {
      LessIsFiled(hash, filed, filed', live, gone);
    } else {
      hide OwnKey;
      var k, e :| k != UNHASHED && e in Bucket(filed, k) && e in gone;
      assert e in Bucket(filed', k);
    }
  }

  lemma LessIsFiled(hash: string -> nat, filed: map<Key, seq<Entry>>, filed': map<Key, seq<Entry>>, live: set<Entry>, gone: set<Entry>)
    requires Filed(hash, filed, live) && OnlyUnhashedLess(filed, filed', gone) && NoneIsHashed(filed, gone)
    ensures Filed(hash, filed', live - gone)
  {
    assert forall e :: OwnKey(hash, e) != UNHASHED;
    hide OwnKey;
    forall k, e | k in filed' && e in filed'[k]
      ensures e in live - gone && (k == UNHASHED || k == OwnKey(hash, e))
    {
      assert e in Bucket(filed', k);
      assert e in Bucket(filed, k);
    }
  }

  lemma NewStaysApart(hash: string -> nat, filed: map<Key, seq<Entry>>, live: set<Entry>, e: Entry)
    requires Filed(hash, filed, live) && Apart(filed) && e !in live
    ensures Apart(filed[UNHASHED := Bucket(filed, UNHASHED) + [e]])
  {
    hide OwnKey;
    var filed' := filed[UNHASHED := Bucket(filed, UNHASHED) + [e]];
    assert forall k :: k != UNHASHED ==> Bucket(filed', k) == Bucket(filed, k);
    assert forall k :: e !in Bucket(filed, k);
  }

  lemma FileUnderOwnKey(hash: string -> nat, filed: map<Key, seq<Entry>>, live: set<Entry>, e: Entry)
    requires Filed(hash, filed, live) && e in Bucket(filed, UNHASHED)
    ensures var key := OwnKey(hash, e);
            var filed' := filed[key := Bucket(filed, key) + [e]];
            && Filed(hash, filed', live) && Bucket(filed', UNHASHED) == Bucket(filed, UNHASHED)
            && e in Bucket(filed', key)
            && forall x, k :: x in Bucket(filed, k) ==> x in Bucket(filed', k)
  {
    var key := OwnKey(hash, e);
    assert key != UNHASHED;
    hide OwnKey;
    var filed' := filed[key := Bucket(filed, key) + [e]];
    assert forall k :: k != key ==> Bucket(filed', k) == Bucket(filed, k);
    assert Bucket(filed', key) == Bucket(filed, key) + [e];
    assert forall x, k :: x in Bucket(filed, k) ==> x in Bucket(filed', k);
    FiledStays(hash, filed, live, e, key);
  }

  lemma FiledStays(hash: string -> nat, filed: map<Key, seq<Entry>>, live: set<Entry>, e: Entry, key: Key)
    requires Filed(hash, filed, live) && e in live && key == OwnKey(hash, e)
    ensures Filed(hash, filed[key := Bucket(filed, key) + [e]], live)
  {
    hide OwnKey;
    var filed' := filed[key := Bucket(filed, key) + [e]];
    forall k, x | k in filed' && x in filed'[k]
      ensures x in live && (k == UNHASHED || k == OwnKey(hash, x))
    {
      assert k != key ==> filed'[k] == filed[k];
      assert k == key && key in filed ==> x == e || x in filed[key];
    }
  }

  /** The entries filed under one hash, in their order. */
  function OfKey(hash: string -> nat, entries: seq<Entry>, k: Key): (r: seq<Entry>) {
    if entries == [] then []
    else OfKey(hash, entries[..|entries| - 1], k) +
         if OwnKey(hash, entries[|entries| - 1]) == k then [entries[|entries| - 1]] else []
  }

  lemma NothingFiled(hash: string -> nat, entries: seq<Entry>)
    ensures forall k :: OfKey(hash, entries[..0], k) == []
  {
  }

  lemma FiledNext(hash: string -> nat, before: map<Key, seq<Entry>>, filed: map<Key, seq<Entry>>, entries: seq<Entry>, i: nat)
    requires i < |entries| && forall k :: k != UNHASHED ==> Bucket(filed, k) == Bucket(before, k) + OfKey(hash, entries[..i], k)
    ensures var key := OwnKey(hash, entries[i]);
            var filed' := filed[key := Bucket(filed, key) + [entries[i]]];
            forall k :: k != UNHASHED ==> Bucket(filed', k) == Bucket(before, k) + OfKey(hash, entries[..i + 1], k)
  {
    hide OwnKey;
    assert entries[..i + 1][..i] == entries[..i];
    var key := OwnKey(hash, entries[i]);
    forall k | k != UNHASHED
      ensures Bucket(filed[key := Bucket(filed, key) + [entries[i]]], k) == Bucket(before, k) + OfKey(hash, entries[..i + 1], k)
    {
      EntriesAssoc(Bucket(before, k), OfKey(hash, entries[..i], k), [entries[i]]);
      assert OfKey(hash, entries[..i + 1], k) == OfKey(hash, entries[..i], k) + if key == k then [entries[i]] else [];
    }
  }

  lemma BucketUpdated(filed: map<Key, seq<Entry>>, s: seq<Entry>)
    ensures Bucket(filed[UNHASHED := s], UNHASHED) == s
    ensures forall k :: k != UNHASHED ==> Bucket(filed[UNHASHED := s], k) == Bucket(filed, k)
  {
  }

  lemma EntriesAssoc(a: seq<Entry>, b: seq<Entry>, c: seq<Entry>)
    ensures (a + b) + c == a + (b + c)
  {
  }

  lemma EmptyUnhashed(hash: string -> nat, filed: map<Key, seq<Entry>>, live: set<Entry>)
    requires Filed(hash, filed, live)
    requires forall e :: e in Bucket(filed, UNHASHED) ==> e in Bucket(filed, OwnKey(hash, e))
    ensures Filed(hash, filed[UNHASHED := []], live)
  {
    assert forall e :: OwnKey(hash, e) != UNHASHED;
    hide OwnKey;
  }

  function DropAll(index: map<Name, seq<Entry>>, gone: set<Entry>): (r: map<Name, seq<Entry>>) {
    map n | n in index :: Remove(index[n], gone)
  }

  lemma DropFromIndex(defs: ItemDefs, index: map<Name, seq<Entry>>, live: set<Entry>, gone: set<Entry>)
    requires Indexed(defs, index, live)
    ensures Indexed(defs, DropAll(index, gone), live - gone)
  {
    hide OutputName;
  }

  lemma DropKeyFromIndex(defs: ItemDefs, index: map<Name, seq<Entry>>, live: set<Entry>, name: Name, gone: set<Entry>)
    requires Indexed(defs, index, live) && name in index
    requires forall e :: e in gone <==> e in index[name]
    ensures Indexed(defs, index - {name}, live - gone)
    ensures live - gone == set e | e in live && OutputName(defs, e) != name
  {
    hide OutputName;
    var index' := index - {name};
    forall e | e in live - gone
      ensures OutputName(defs, e) in index' && e in index'[OutputName(defs, e)]
    {
      assert e in index[OutputName(defs, e)];
    }
    forall n, e | n in index' && e in index'[n]
      ensures e in live - gone && n == OutputName(defs, e)
    {
      assert e in index[n];
      assert e in gone ==> name == OutputName(defs, e);
    }
  }

  lemma FiledIsLive(hash: string -> nat, filed: map<Key, seq<Entry>>, live: set<Entry>)
    requires Filed(hash, filed, live)
    ensures forall k, e :: e in Bucket(filed, k) ==> e in live
    ensures NoneHashed(filed) ==> forall e :: e in live ==> e in Bucket(filed, UNHASHED)
  {
    hide OwnKey;
  }

  lemma IndexedUnder(defs: ItemDefs, index: map<Name, seq<Entry>>, live: set<Entry>, name: Name)
    requires Indexed(defs, index, live)
    ensures forall e :: e in live && OutputName(defs, e) == name <==> name in index && e in index[name]
  {
    hide OutputName;
  }

  lemma NothingLess(filed: map<Key, seq<Entry>>)
    ensures OnlyUnhashedLess(filed, filed, {})
  {
  }

  lemma OneLess(before: map<Key, seq<Entry>>, filed: map<Key, seq<Entry>>, gone: set<Entry>, e: Entry, kept: seq<Entry>)
    requires OnlyUnhashedLess(before, filed, gone)
    requires kept == Remove(Bucket(filed, UNHASHED), {e})
    ensures OnlyUnhashedLess(before, filed[UNHASHED := kept], gone + {e})
  {
  }

  lemma RestLess(filed: map<Key, seq<Entry>>, gone: set<Entry>, kept: seq<Entry>)
    requires forall e :: e in kept <==> e in Bucket(filed, UNHASHED) && e !in gone
    ensures OnlyUnhashedLess(filed, filed[UNHASHED := kept], gone)
  {
  }

  ghost function AcceptedOf(defs: ItemDefs, entries: seq<Entry>, input: CraftInput): set<Entry> {
    set e | e in entries && Accepts(defs, e.recipe, input)
  }

  ghost function Unaccepted(defs: ItemDefs, live: set<Entry>, input: CraftInput): set<Entry> {
    set e | e in live && !Accepts(defs, e.recipe, input)
  }

  lemma AcceptedIsApart(defs: ItemDefs, hash: string -> nat, filed: map<Key, seq<Entry>>, live: set<Entry>,
                        gone: set<Entry>, input: CraftInput)
    requires Filed(hash, filed, live) && Apart(filed) && gone == AcceptedOf(defs, Bucket(filed, UNHASHED), input)
    ensures NoneIsHashed(filed, gone) && gone <= live
    ensures NoneHashed(filed) ==> live - gone == Unaccepted(defs, live, input)
  {
    FiledIsLive(hash, filed, live);
    hide Accepts, Filed, Bucket, NoneHashed;
  }

  // ----- the hashed lookup against a plain scan -----

  /** What a scan of all live recipes would find: one of the highest rank among those that apply. */
  ghost predicate BestOfAll(defs: ItemDefs, live: set<Entry>, input: CraftInput, best: Entry) {
    && best in live && Applies(defs, best, input)
    && forall e :: e in live && Applies(defs, e, input) ==> Priority(e.recipe) <= Priority(best.recipe)
  }

  /** That is one for which no other that applies is of a better kind. */
  lemma BestByKind(defs: ItemDefs, live: set<Entry>, input: CraftInput, best: Entry)
    ensures BestOfAll(defs, live, input, best) <==>
            best in live && Applies(defs, best, input) &&
            forall e :: e in live && Applies(defs, e, input) ==> !Outranks(e.recipe, best.recipe)
  {
    hide Accepts, Priority, Outranks, Output;
    forall e, f | Applies(defs, e, input) && Applies(defs, f, input)
      ensures Priority(e.recipe) > Priority(f.recipe) <==> Outranks(e.recipe, f.recipe)
    {
      RankByKind(defs, input, e.recipe, f.recipe);
    }
  }

  lemma CandidatesByLayer(filed: map<Key, seq<Entry>>, hash: string -> nat, items: seq<ItemStack>)
    ensures forall e :: e in Candidates(filed, hash, items, 3) <==>
              || e in Bucket(filed, LayerKey(hash, ItemNames, items))
              || e in Bucket(filed, LayerKey(hash, Count, items))
              || e in Bucket(filed, LayerKey(hash, Unhashed, items))
  {
    var b0 := Bucket(filed, LayerKey(hash, ItemNames, items));
    var b1 := Bucket(filed, LayerKey(hash, Count, items));
    var b2 := Bucket(filed, LayerKey(hash, Unhashed, items));
    ReversedMembers(b0);
    ReversedMembers(b1);
    ReversedMembers(b2);
    assert Candidates(filed, hash, items, 1) == Reversed(b0);
    assert Candidates(filed, hash, items, 2) == Reversed(b0) + Reversed(b1);
  }

  lemma {:induction false} ReversedMembers(s: seq<Entry>)
    ensures forall e :: e in Reversed(s) <==> e in s
  {
    if s != [] {
      ReversedMembers(s[1..]);
      assert s == [s[0]] + s[1..];
    }
  }

  lemma CandidateIsLive(hash: string -> nat, filed: map<Key, seq<Entry>>, live: set<Entry>, items: seq<ItemStack>, e: Entry)
    requires Filed(hash, filed, live) && e in Candidates(filed, hash, items, 3)
    ensures e in live
  {
    hide OwnKey, Candidates, LayerKey;
    CandidatesByLayer(filed, hash, items);
  }

  lemma AppliesIsCandidate(defs: ItemDefs, hash: string -> nat, filed: map<Key, seq<Entry>>, live: set<Entry>,
                           input: CraftInput, e: Entry)
    requires Filed(hash, filed, live) && WellFormed(input.items) && EmptyMatchesNoSlot(defs)
    requires e in live && Applies(defs, e, input)
    ensures e in Candidates(filed, hash, input.items, 3)
  {
    AcceptedIsFoundByHash(defs, e.recipe, input);
    assert OwnKey(hash, e) == LayerKey(hash, HashTypeOf(e.recipe), input.items);
    assert UNHASHED == LayerKey(hash, Unhashed, input.items);
    hide OwnKey, Candidates, LayerKey, InputHash, RecipeHash;
    CandidatesByLayer(filed, hash, input.items);
  }

  /** When no slot accepts an empty stack, the hashed lookup finds a recipe exactly when a scan of
      all live recipes would, and finds one of the highest rank. */
  lemma LookupRefinesScan(defs: ItemDefs, hash: string -> nat, filed: map<Key, seq<Entry>>, live: set<Entry>, input: CraftInput)
    requires Filed(hash, filed, live) && WellFormed(input.items) && EmptyMatchesNoSlot(defs)
    ensures var found := Candidates(filed, hash, input.items, 3);
            && (NoneApplies(defs, input, found) <==> forall e :: e in live ==> !Applies(defs, e, input))
            && (forall best :: IsBest(defs, input, found, best) ==> BestOfAll(defs, live, input, best))
  {
    var found := Candidates(filed, hash, input.items, 3);
    forall e | e in found
      ensures e in live
    {
      CandidateIsLive(hash, filed, live, input.items, e);
    }
    forall e | e in live && Applies(defs, e, input)
      ensures e in found
    {
      AppliesIsCandidate(defs, hash, filed, live, input, e);
    }
    hide Applies, Candidates, Filed;
  }

  // ----- all fuel recipes rank alike -----

  /** The first entry of the list that applies. */
  ghost predicate IsFirst(defs: ItemDefs, input: CraftInput, list: seq<Entry>, first: Entry) {
    exists i :: 0 <= i < |list| && list[i] == first && Applies(defs, first, input) &&
      forall j :: 0 <= j < i ==> !Applies(defs, list[j], input)
  }

  /** For fuel the best of a list is the first that applies, be its slot a group or not. */
  lemma FuelIsFirst(defs: ItemDefs, input: CraftInput, list: seq<Entry>, best: Entry)
    requires input.craft.Fuel?
    ensures IsBest(defs, input, list, best) <==> IsFirst(defs, input, list, best)
  {
    assert forall e :: Applies(defs, e, input) ==> Priority(e.recipe) == Priority(Recipe.Fuel(""));
    hide Applies, Priority;
  }

  lemma FirstIsAmong(defs: ItemDefs, input: CraftInput, front: seq<Entry>, back: seq<Entry>, e: Entry, first: Entry)
    requires e in front && Applies(defs, e, input) && IsFirst(defs, input, front + back, first)
    ensures first in front
  {
    hide Applies;
    var i :| 0 <= i < |front + back| && (front + back)[i] == first &&
      forall j :: 0 <= j < i ==> !Applies(defs, (front + back)[j], input);
    var j :| 0 <= j < |front| && front[j] == e;
    assert (front + back)[j] == e;
  }

  lemma LayersInTurn(filed: map<Key, seq<Entry>>, hash: string -> nat, items: seq<ItemStack>)
    ensures Candidates(filed, hash, items, 3) ==
            Reversed(Bucket(filed, LayerKey(hash, ItemNames, items))) +
            (Reversed(Bucket(filed, LayerKey(hash, Count, items))) + Reversed(Bucket(filed, LayerKey(hash, Unhashed, items))))
  {
    hide Reversed, Bucket, LayerKey;
    assert Candidates(filed, hash, items, 1) == Reversed(Bucket(filed, LayerKey(hash, ItemNames, items)));
    assert Candidates(filed, hash, items, 2) == Candidates(filed, hash, items, 1) + Reversed(Bucket(filed, LayerKey(hash, Count, items)));
  }

  lemma PlainFuelKey(defs: ItemDefs, hash: string -> nat, input: CraftInput, e: Entry)
    requires input.craft.Fuel? && Applies(defs, e, input) && !IsGroup(e.recipe.slot)
    ensures OwnKey(hash, e) == LayerKey(hash, ItemNames, input.items)
  {
    OneItem(hash, Names(input.items));
    hide GridHash, Sort, NonEmpty;
  }

  lemma HashedIsFiled(hash: string -> nat, filed: map<Key, seq<Entry>>, live: set<Entry>, e: Entry)
    requires Filed(hash, filed, live) && Bucket(filed, UNHASHED) == [] && e in live
    ensures e in Bucket(filed, OwnKey(hash, e))
  {
    hide OwnKey;
  }

  lemma FiledIsHashed(hash: string -> nat, filed: map<Key, seq<Entry>>, live: set<Entry>, k: Key, e: Entry)
    requires Filed(hash, filed, live) && k != UNHASHED && e in Bucket(filed, k)
    ensures HashTypeOf(e.recipe) == k.0
  {
    hide HashTypeOf, RecipeHash;
    assert k == OwnKey(hash, e);
  }

  /** Once recipes are hashed, a fuel recipe for the item itself is looked at before those for a group. */
  lemma PlainFuelWins(defs: ItemDefs, hash: string -> nat, filed: map<Key, seq<Entry>>, live: set<Entry>,
                      input: CraftInput, e: Entry, best: Entry)
    requires Filed(hash, filed, live) && Bucket(filed, UNHASHED) == [] && input.craft.Fuel?
    requires e in live && Applies(defs, e, input) && !IsGroup(e.recipe.slot)
    requires IsBest(defs, input, Candidates(filed, hash, input.items, 3), best)
    ensures best.recipe.Fuel? && !IsGroup(best.recipe.slot)
  {
    var key := LayerKey(hash, ItemNames, input.items);
    assert key.0 == ItemNames && key != UNHASHED;
    assert Applies(defs, best, input) && best.recipe.Fuel?;
    var exact := Bucket(filed, key);
    var back := Reversed(Bucket(filed, LayerKey(hash, Count, input.items))) + Reversed(Bucket(filed, LayerKey(hash, Unhashed, input.items)));
    HashedIsFiled(hash, filed, live, e);
    PlainFuelKey(defs, hash, input, e);
    hide Applies, Candidates, Reversed, IsBest, IsFirst, LayerKey, Bucket, Filed, OwnKey, IsGroup;
    FuelIsFirst(defs, input, Candidates(filed, hash, input.items, 3), best);
    LayersInTurn(filed, hash, input.items);
    ReversedMembers(exact);
    FirstIsAmong(defs, input, Reversed(exact), back, e, best);
    FiledIsHashed(hash, filed, live, key, best);
  }

  lemma NothingUnder(filed: map<Key, seq<Entry>>, key: Key)
    requires NoneHashed(filed) && key != UNHASHED
    ensures Reversed(Bucket(filed, key)) == []
  {
  }

  lemma OnlyUnhashed(filed: map<Key, seq<Entry>>, hash: string -> nat, items: seq<ItemStack>)
    requires NoneHashed(filed)
    ensures Candidates(filed, hash, items, 3) == Reversed(Bucket(filed, UNHASHED))
  {
    LayersInTurn(filed, hash, items);
    hide *;
    NothingUnder(filed, LayerKey(hash, ItemNames, items));
    NothingUnder(filed, LayerKey(hash, Count, items));
  }

  /** The last entry of the list that applies. */
  ghost predicate IsLast(defs: ItemDefs, input: CraftInput, list: seq<Entry>, last: Entry) {
    exists i :: 0 <= i < |list| && list[i] == last && Applies(defs, last, input) &&
      forall j :: i < j < |list| ==> !Applies(defs, list[j], input)
  }

  /** The entry at one place of a list read backwards. */
  lemma ReadBackwards(list: seq<Entry>, i: int)
    requires 0 <= i < |list|
    ensures Reversed(list)[|list| - 1 - i] == list[i]
  {
  }

  lemma LastIsFirstReversed(defs: ItemDefs, input: CraftInput, list: seq<Entry>, e: Entry)
    ensures IsLast(defs, input, list, e) <==> IsFirst(defs, input, Reversed(list), e)
  {
    var n, r := |list|, Reversed(list);
    assert |r| == n;
    hide Applies, Reversed;
    if IsLast(defs, input, list, e) {
      var i :| 0 <= i < n && list[i] == e && Applies(defs, e, input) && forall j :: i < j < n ==> !Applies(defs, list[j], input);
      ReadBackwards(list, i);
      forall j | 0 <= j < n - 1 - i
        ensures !Applies(defs, r[j], input)
      {
        ReadBackwards(list, n - 1 - j);
      }
    }
    if IsFirst(defs, input, r, e) {
      var i :| 0 <= i < n && r[i] == e && Applies(defs, e, input) && forall j :: 0 <= j < i ==> !Applies(defs, r[j], input);
      ReadBackwards(list, n - 1 - i);
      forall j | n - 1 - i < j < n
        ensures !Applies(defs, list[j], input)
      {
        ReadBackwards(list, j);
      }
    }
  }

  /** Before that, of the fuel recipes that apply the one registered last wins, also one for a group
      over one for the item. */
  lemma LatestFuelWins(defs: ItemDefs, hash: string -> nat, filed: map<Key, seq<Entry>>, input: CraftInput, best: Entry)
    requires NoneHashed(filed) && input.craft.Fuel?
    ensures IsBest(defs, input, Candidates(filed, hash, input.items, 3), best) <==> IsLast(defs, input, Bucket(filed, UNHASHED), best)
  {
    hide *;
    OnlyUnhashed(filed, hash, input.items);
    FuelIsFirst(defs, input, Candidates(filed, hash, input.items, 3), best);
    LastIsFirstReversed(defs, input, Bucket(filed, UNHASHED), best);
  }

  class CraftDefManager {
    const defs: ItemDefs
    const hash: string -> nat
    var craftDefs: map<Key, seq<Entry>>
    var byOutput: map<Name, seq<Entry>>
    var nextId: nat
    ghost var live: set<Entry>  // registered and not cleared since

    ghost predicate Valid()
      reads this
    {
      && Filed(hash, craftDefs, live) && Apart(craftDefs) && Indexed(defs, byOutput, live)
      && forall e :: e in live ==> e.id < nextId
    }

    constructor (defs: ItemDefs, hash: string -> nat)
      ensures Valid() && NoneHashed(craftDefs) && live == {} && this.defs == defs && this.hash == hash
    {
      this.defs, this.hash := defs, hash;
      craftDefs, byOutput, nextId, live := map[], map[], 0, {};
    }

    method RegisterCraft(recipe: Recipe) returns (e: Entry)
      requires Valid()
      modifies this
      ensures Valid() && e.recipe == recipe && e !in old(live) && live == old(live) + {e}
      ensures craftDefs == old(craftDefs)[UNHASHED := old(Bucket(craftDefs, UNHASHED)) + [e]]
      ensures var name := OutputName(defs, e);
              byOutput == old(byOutput)[name := (if name in old(byOutput) then old(byOutput)[name] else []) + [e]]
      ensures old(NoneHashed(craftDefs)) ==> NoneHashed(craftDefs)
    {
      hide OwnKey, OutputName, Filed, Apart, Indexed, NoneHashed;
      e := Entry(nextId, recipe);
      FileNew(hash, craftDefs, live, e);
      NewStaysApart(hash, craftDefs, live, e);
      IndexNew(defs, byOutput, live, e);
      nextId := nextId + 1;
      craftDefs := craftDefs[UNHASHED := Bucket(craftDefs, UNHASHED) + [e]];
      var name := OutputName(defs, e);
      byOutput := byOutput[name := (if name in byOutput then byOutput[name] else []) + [e]];
      live := live + {e};
    }

    /** Drops every recipe for the item, but takes it out of the unhashed layer only. */
    method ClearCraftsByOutput(output: Name) returns (ok: bool)
      requires Valid()
      modifies this
      ensures live == set e | e in old(live) && OutputName(defs, e) != output
      ensures OnlyUnhashedLess(old(craftDefs), craftDefs, set e | e in old(live) && OutputName(defs, e) == output)
      ensures Valid() <==> NoneIsHashed(old(craftDefs), set e | e in old(live) && OutputName(defs, e) == output)
      ensures Bucket(craftDefs, UNHASHED) == Remove(Bucket(old(craftDefs), UNHASHED), set e | e in old(live) && OutputName(defs, e) == output)
      ensures byOutput == old(byOutput) - {output}
      ensures ok <==> output in old(byOutput)
    {
      hide OutputName, OwnKey, Filed, Indexed, Apart, OnlyUnhashedLess, NoneIsHashed;
      ghost var dropped := set e | e in live && OutputName(defs, e) == output;
      IndexedUnder(defs, byOutput, live, output);
      NothingLess(craftDefs);
      RemoveNothing(Bucket(craftDefs, UNHASHED));
      if output !in byOutput {
        assert dropped == {} && live - {} == live;
        RefileUnhashed(hash, craftDefs, craftDefs, live, dropped);
        return false;
      }
      var gone := byOutput[output];
      ghost var cleared: set<Entry> := {};
      for i := 0 to |gone|
        invariant byOutput == old(byOutput) && nextId == old(nextId)
        invariant live == old(live) - cleared && forall e :: e in cleared <==> e in gone[..i]
        invariant OnlyUnhashedLess(old(craftDefs), craftDefs, cleared)
        invariant Bucket(craftDefs, UNHASHED) == Remove(Bucket(old(craftDefs), UNHASHED), cleared)
      {
        var kept := Remove(Bucket(craftDefs, UNHASHED), {gone[i]});
        RemoveTwice(Bucket(old(craftDefs), UNHASHED), cleared, {gone[i]});
        OneLess(old(craftDefs), craftDefs, cleared, gone[i], kept);
        craftDefs := craftDefs[UNHASHED := kept];
        live, cleared := live - {gone[i]}, cleared + {gone[i]};
      }
      assert cleared == dropped;
      DropKeyFromIndex(defs, byOutput, old(live), output, dropped);
      byOutput := byOutput - {output};
      RefileUnhashed(hash, old(craftDefs), craftDefs, old(live), dropped);
      ok := true;
    }

    /** Drops every recipe of the unhashed layer that accepts the input. */
    method ClearCraftsByInput(input: CraftInput) returns (ok: bool)
      requires Valid()
      modifies this
      ensures Valid()
      ensures live == if AllEmpty(input.items) then old(live) else old(live) - AcceptedOf(defs, Bucket(old(craftDefs), UNHASHED), input)
      ensures old(NoneHashed(craftDefs)) && !AllEmpty(input.items) ==> live == Unaccepted(defs, old(live), input)
      ensures OnlyUnhashedLess(old(craftDefs), craftDefs, old(live) - live)
      ensures Bucket(craftDefs, UNHASHED) == Remove(Bucket(old(craftDefs), UNHASHED), old(live) - live)
      ensures byOutput == if ok then DropAll(old(byOutput), old(live) - live) else old(byOutput)
      ensures ok <==> live != old(live)
    {
      NothingLess(craftDefs);
      RemoveNothing(Bucket(craftDefs, UNHASHED));
      hide Accepts, OwnKey, Filed, Indexed, NoneHashed, NoneIsHashed, Apart, Bucket, DropAll, OnlyUnhashedLess, AllEmpty, AcceptedOf, Unaccepted, Remove;
      if AllEmpty(input.items) {
        assert live - live == {};
        return false;
      }
      var gone, kept := SplitByInput(Bucket(craftDefs, UNHASHED), input);
      AcceptedIsApart(defs, hash, craftDefs, live, gone, input);
      ok := gone != {};
      if ok {
        RestLess(craftDefs, gone, kept);
        BucketUpdated(craftDefs, kept);
        DropFromIndex(defs, byOutput, live, gone);
        craftDefs := craftDefs[UNHASHED := kept];
        byOutput := DropAll(byOutput, gone);
        live := live - gone;
        RefileUnhashed(hash, old(craftDefs), craftDefs, old(live), gone);
      }
      assert old(live) - live == gone;
    }

    method SplitByInput(entries: seq<Entry>, input: CraftInput) returns (gone: set<Entry>, kept: seq<Entry>)
      ensures gone == AcceptedOf(defs, entries, input)
      ensures kept == Remove(entries, gone)
    {
      hide Accepts, Remove;
      gone, kept := {}, [];
      ghost var all := AcceptedOf(defs, entries, input);
      RemoveNone(all);
      for i := 0 to |entries|
        invariant forall e :: e in gone <==> e in entries[..i] && Accepts(defs, e.recipe, input)
        invariant kept == Remove(entries[..i], all)
      {
        RemoveNext(entries, i, all);
        var accepted := Check(defs, entries[i].recipe, input);
        if accepted {
          gone := gone + {entries[i]};
        } else {
          kept := kept + [entries[i]];
        }
      }
      assert entries[..|entries|] == entries;
    }

    /** Moves every recipe of the unhashed layer to the bucket of its own hash. */
    method InitHashes()
      requires Valid()
      modifies this
      ensures Valid() && live == old(live)
      ensures Bucket(craftDefs, UNHASHED) == []
      ensures forall k :: k != UNHASHED ==> Bucket(craftDefs, k) == Bucket(old(craftDefs), k) + OfKey(hash, Bucket(old(craftDefs), UNHASHED), k)
      ensures byOutput == old(byOutput)
    {
      hide OutputName, OwnKey, Filed, Indexed, Bucket, OfKey;
      var unhashed := Bucket(craftDefs, UNHASHED);
      NothingFiled(hash, unhashed);
      for i := 0 to |unhashed|
        invariant live == old(live) && byOutput == old(byOutput) && nextId == old(nextId)
        invariant Filed(hash, craftDefs, live) && Bucket(craftDefs, UNHASHED) == unhashed
        invariant forall j :: 0 <= j < i ==> unhashed[j] in Bucket(craftDefs, OwnKey(hash, unhashed[j]))
        invariant forall k :: k != UNHASHED ==> Bucket(craftDefs, k) == Bucket(old(craftDefs), k) + OfKey(hash, unhashed[..i], k)
      {
        FiledNext(hash, old(craftDefs), craftDefs, unhashed, i);
        var key := OwnKey(hash, unhashed[i]);
        FileUnderOwnKey(hash, craftDefs, live, unhashed[i]);
        craftDefs := craftDefs[key := Bucket(craftDefs, key) + [unhashed[i]]];
      }
      EmptyUnhashed(hash, craftDefs, live);
      BucketUpdated(craftDefs, []);
      assert unhashed[..|unhashed|] == unhashed;
      craftDefs := craftDefs[UNHASHED := []];
    }

    /** Finds a recipe for the input: the one met first among those of the highest rank. */
    method GetCraftResult(input: CraftInput) returns (found: bool, output: Name, best: Choice)
      ensures found ==> best.Chosen? && (exists i :: 0 <= i < |input.items| && input.items[i].count > 0)
                        && IsBest(defs, input, Candidates(craftDefs, hash, input.items, 3), best.entry)
                        && output == Output(defs, best.entry.recipe, input.items)
      ensures !found ==> (forall i :: 0 <= i < |input.items| ==> input.items[i].count == 0) || NoneApplies(defs, input, Candidates(craftDefs, hash, input.items, 3))
      ensures Valid() && WellFormed(input.items) && EmptyMatchesNoSlot(defs) ==>
                if found then BestOfAll(defs, live, input, best.entry)
                else (forall i :: 0 <= i < |input.items| ==> input.items[i].count == 0) || forall e :: e in live ==> !Applies(defs, e, input)
    {
      if AllEmpty(input.items) {
        return false, "", NoChoice;
      }
      best, output := NoChoice, "";
      assert BestSoFar(defs, input, [], best);
      hide BestSoFar, LayerKey, Output, Applies, Filed, Indexed, EmptyMatchesNoSlot, WellFormed;
      for layer := 0 to 3
        invariant BestSoFar(defs, input, Candidates(craftDefs, hash, input.items, layer), best)
        invariant best.Chosen? ==> output == Output(defs, best.entry.recipe, input.items)
      {
        var collisions := Bucket(craftDefs, LayerKey(hash, LAYERS[layer], input.items));
        output, best := SearchBucket(input, collisions, Candidates(craftDefs, hash, input.items, layer), output, best);
      }
      found := best.Chosen?;
      BestIsBest(defs, input, Candidates(craftDefs, hash, input.items, 3), best);
      if Valid() && WellFormed(input.items) && EmptyMatchesNoSlot(defs) {
        LookupRefinesScan(defs, hash, craftDefs, live, input);
      }
    }

    /** Walks one bucket from its latest entry to its first. */
    method SearchBucket(input: CraftInput, collisions: seq<Entry>, ghost seen: seq<Entry>, output: Name, best: Choice)
      returns (output': Name, best': Choice)
      requires BestSoFar(defs, input, seen, best)
      requires best.Chosen? ==> output == Output(defs, best.entry.recipe, input.items)
      ensures BestSoFar(defs, input, seen + Reversed(collisions), best')
      ensures best'.Chosen? ==> output' == Output(defs, best'.entry.recipe, input.items)
    {
      hide BestSoFar, Accepts, Reversed;
      output', best' := output, best;
      ghost var now := seen;
      for i := |collisions| downto 0
        invariant now == seen + Reversed(collisions)[..|collisions| - i]
        invariant BestSoFar(defs, input, now, best')
        invariant best'.Chosen? ==> output' == Output(defs, best'.entry.recipe, input.items)
      {
        var e := collisions[i];
        SeeEntry(defs, input, now, best', e);
        if Priority(e.recipe) > best'.Rank() {
          var accepted := Check(defs, e.recipe, input);
          var made := Output(defs, e.recipe, input.items);
          if accepted && defs.IsKnown(made) {
            output', best' := made, Chosen(e);
          }
        }
        now := now + [e];
      }
      assert Reversed(collisions)[..|collisions|] == Reversed(collisions);
    }
  }

  lemma BestIsBest(defs: ItemDefs, input: CraftInput, seen: seq<Entry>, c: Choice)
    requires BestSoFar(defs, input, seen, c)
    ensures if c.Chosen? then IsBest(defs, input, seen, c.entry) else NoneApplies(defs, input, seen)
  {
  }
}
