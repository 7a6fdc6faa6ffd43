/** The pyramid of ever coarser blocks for distant views, and its rebuilding after changes. */
module WorldMerge {
  import Arithmetic
  import opened Blocks
  import FarOctree
  import opened Wrappers

  /** The levels of the pyramid: the blocks themselves, and each time half as fine. */
  const STEPS := 16

  type Level<B> = map<BlockPos, B>

  function Lookup<B>(level: Level<B>, p: BlockPos): Option<B> {
    if p in level then Some(level[p]) else None
  }

  // ----- places -----

  function AlignOne(c: int, k: nat): int {
    c - c % FarOctree.Pow2(k)
  }

  /** The place of the block of level `k` that covers `p`. */
  function Align(p: BlockPos, k: nat): BlockPos {
    BlockPos(AlignOne(p.x, k), AlignOne(p.y, k), AlignOne(p.z, k))
  }

  predicate IsAligned(p: BlockPos, k: nat) {
    Align(p, k) == p
  }

  /** Child number `i` of eight, in the order in which they are read. */
  function Child(a: BlockPos, step: nat, i: nat): BlockPos
    requires i < 8
  {
    var s := FarOctree.Pow2(step);
    BlockPos(a.x + i / 4 * s, a.y + i / 2 % 2 * s, a.z + i % 2 * s)
  }

  lemma AlignOffset(c: int, k: nat, bit: nat)
    requires AlignOne(c, k + 1) == c && bit < 2
    ensures AlignOne(c + bit * FarOctree.Pow2(k), k + 1) == c
    ensures AlignOne(c + bit * FarOctree.Pow2(k), k) == c + bit * FarOctree.Pow2(k)
  {
    var s := FarOctree.Pow2(k);
    var d := FarOctree.Pow2(k + 1);
    var q := c / d;
    assert d == 2 * s && c == q * d;
    Arithmetic.DivisionUnique(c + bit * s, q, d, bit * s);
    assert q * d == (2 * q) * s;
    assert (2 * q + bit) * s == (2 * q) * s + bit * s;
    Arithmetic.DivisionUnique(c + bit * s, 2 * q + bit, s, 0);
  }

  /** A child is covered by its parent. */
  lemma ChildAligns(a: BlockPos, step: nat, i: nat)
    requires i < 8 && IsAligned(a, step + 1)
    ensures Align(Child(a, step, i), step + 1) == a && IsAligned(Child(a, step, i), step)
  {
    AlignOffset(a.x, step, i / 4);
    AlignOffset(a.y, step, i / 2 % 2);
    AlignOffset(a.z, step, i % 2);
    hide FarOctree.Pow2, AlignOne;
  }

  /** What lies at the places of the eight children. */
  function Children<B>(level: Level<B>, a: BlockPos, step: nat): (c: seq<Option<B>>)
    ensures |c| == 8 && forall i: nat :: i < 8 ==> c[i] == Lookup(level, Child(a, step, i))
  {
    seq(8, i requires 0 <= i < 8 => Lookup(level, Child(a, step, i)))
  }

  function Nothing<B>(): seq<Option<B>> {
    [None, None, None, None, None, None, None, None]
  }

  // ----- when a pyramid is right -----

  /** Makes one block of eight, or none when all of them are empty or missing. */
  type Merge<!B> = seq<Option<B>> -> Option<B>

  ghost predicate ProperMerge<B>(merge: Merge<B>) {
    merge(Nothing()) == None
  }

  /** The blocks of a level lie where blocks of this level lie. */
  ghost predicate Shaped<B>(levels: seq<Level<B>>) {
    |levels| == STEPS && forall k: nat, p :: k < STEPS && p in levels[k] ==> IsAligned(p, k)
  }

  /** The block at `a` is what its children on the level below make. */
  predicate RightAt<B(==)>(merge: Merge<B>, levels: seq<Level<B>>, step: nat, a: BlockPos)
    requires step + 1 < |levels|
  {
    Lookup(levels[step + 1], a) == merge(Children(levels[step], a, step))
  }

  /** Every block above the ground level is what its children make. */
  ghost predicate Consistent<B>(merge: Merge<B>, levels: seq<Level<B>>)
    requires |levels| == STEPS
  {
    forall step: nat, a {:trigger RightAt(merge, levels, step, a)} ::
      step + 1 < STEPS && IsAligned(a, step + 1) ==> RightAt(merge, levels, step, a)
  }

  // ----- one step -----

  function Parents(blocks: set<BlockPos>, step: nat): set<BlockPos> {
    set p | p in blocks :: Align(p, step + 1)
  }

  /** A level after the blocks at the given places have been made anew, the others left alone. */
  ghost predicate Rebuilt<B>(merge: Merge<B>, below: Level<B>, old_: Level<B>, new_: Level<B>, places: set<BlockPos>, step: nat) {
    forall a :: Lookup(new_, a) == if a in places then merge(Children(below, a, step)) else Lookup(old_, a)
  }

  /** The setting that forces a full load on every level. */
  const FORCE := 1

  /** The blocks whose parents a step visits: those to be done, or all of them in a full load. */
  function Source<B>(level: Level<B>, todo: set<BlockPos>, loadAll: int): set<BlockPos> {
    if loadAll != 0 && todo == {} then level.Keys else todo
  }

  /** What is to be done on the next level. */
  function TodoNext(visited: set<BlockPos>, loadAll: int): set<BlockPos> {
    if loadAll == FORCE then {} else visited
  }

  /** One step of a run: the level above is rebuilt over the parents of what is visited. */
  ghost predicate StepDone<B>(merge: Merge<B>, loadAll: int, before: seq<Level<B>>, after: seq<Level<B>>, todos: seq<set<BlockPos>>, step: nat) {
    && step + 1 < |before| == |after| && step + 1 < |todos|
    && var visited := Parents(Source(after[step], todos[step], loadAll), step);
    && Rebuilt(merge, after[step], before[step + 1], after[step + 1], visited, step)
    && todos[step + 1] == TodoNext(visited, loadAll)
  }

  /** A whole run, from the ground up; `todos[k]` is to be done on level `k`. */
  ghost predicate IsRun<B>(merge: Merge<B>, loadAll: int, before: seq<Level<B>>, after: seq<Level<B>>, todos: seq<set<BlockPos>>) {
    && |before| == |after| == |todos| == STEPS && after[0] == before[0]
    && forall step: nat :: step + 1 < STEPS ==> StepDone(merge, loadAll, before, after, todos, step)
  }

  // ----- a run after changes restores the pyramid -----

  /** The levels differ at most in the given places. */
  ghost predicate DifferIn<B>(a: Level<B>, b: Level<B>, places: set<BlockPos>) {
    forall p :: p !in places ==> Lookup(a, p) == Lookup(b, p)
  }

  /** If nothing below a place has changed, neither has what the children make. */
  lemma SameChildren<B>(a: Level<B>, b: Level<B>, places: set<BlockPos>, step: nat, p: BlockPos)
    requires DifferIn(a, b, places) && IsAligned(p, step + 1) && p !in Parents(places, step)
    ensures Children(a, p, step) == Children(b, p, step)
  {
    forall i: nat | i < 8
      ensures Lookup(a, Child(p, step, i)) == Lookup(b, Child(p, step, i))
    {
      ChildAligns(p, step, i);
      ParentOf(places, Child(p, step, i), step);
    }
  }

  lemma ParentOf(blocks: set<BlockPos>, p: BlockPos, step: nat)
    ensures p in blocks ==> Align(p, step + 1) in Parents(blocks, step)
  {
  }

  /** Suppose the pyramid was right and ground blocks have changed since, all of them listed. Then after
      a run every level is right again, and each level differs from before only where it had to be done. */
  lemma {:induction false} RunRestores<B>(merge: Merge<B>, loadAll: int, was: seq<Level<B>>, before: seq<Level<B>>, after: seq<Level<B>>,
                                          todos: seq<set<BlockPos>>, k: nat)
    requires IsRun(merge, loadAll, before, after, todos) && loadAll != FORCE && k < STEPS
    requires |was| == STEPS && Consistent(merge, was) && Shaped(was) && Shaped(after)
    requires DifferIn(was[0], before[0], todos[0]) && forall i: nat :: 0 < i < STEPS ==> before[i] == was[i]
    ensures DifferIn(was[k], after[k], todos[k])
    ensures forall step: nat, a {:trigger RightAt(merge, after, step, a)} ::
              step < k && IsAligned(a, step + 1) ==> RightAt(merge, after, step, a)
  {
    if k > 0 {
      RunRestores(merge, loadAll, was, before, after, todos, k - 1);
      var step := k - 1;
      assert StepDone(merge, loadAll, before, after, todos, step);
      var source := Source(after[step], todos[step], loadAll);
      var visited := Parents(source, step);
      forall a | IsAligned(a, k)
        ensures RightAt(merge, after, step, a) && (a !in visited ==> Lookup(was[k], a) == Lookup(after[k], a))
      {
        if a !in visited {
          assert DifferIn(was[step], after[step], source);
          SameChildren(was[step], after[step], source, step, a);
          assert RightAt(merge, was, step, a);
        }
      }
      forall p | p !in visited
        ensures Lookup(was[k], p) == Lookup(after[k], p)
      {
        if !IsAligned(p, k) {
          assert p !in was[k] && p !in after[k];
        }
      }
    }
  }

  /** A run over the changed blocks makes a pyramid that was right before the changes right again. */
  lemma ChangesRestored<B>(merge: Merge<B>, loadAll: int, was: seq<Level<B>>, before: seq<Level<B>>, after: seq<Level<B>>,
                           todos: seq<set<BlockPos>>)
    requires IsRun(merge, loadAll, before, after, todos) && loadAll != FORCE
    requires |was| == STEPS && Consistent(merge, was) && Shaped(was) && Shaped(after)
    requires DifferIn(was[0], before[0], todos[0]) && forall i: nat :: 0 < i < STEPS ==> before[i] == was[i]
    ensures Consistent(merge, after)
  {
    RunRestores(merge, loadAll, was, before, after, todos, STEPS - 1);
  }

  // ----- a full rebuild -----

  /** The places of level `k` that lie over ground blocks. */
  function Covered<B>(ground: Level<B>, k: nat): set<BlockPos> {
    if k == 0 then ground.Keys else Parents(Covered(ground, k - 1), k - 1)
  }

  /** Every stored block lies over a ground block. */
  ghost predicate NoOrphans<B>(levels: seq<Level<B>>)
    requires |levels| == STEPS
  {
    forall k: nat :: 0 < k < STEPS ==> levels[k].Keys <= Covered(levels[0], k)
  }

  /** Without children below there is nothing to store. */
  lemma NoChildren<B>(merge: Merge<B>, below: Level<B>, step: nat, a: BlockPos)
    requires ProperMerge(merge) && IsAligned(a, step + 1)
    requires forall p :: p in below ==> Align(p, step + 1) != a
    ensures merge(Children(below, a, step)) == None
  {
    forall i: nat | i < 8
      ensures Lookup(below, Child(a, step, i)) == None
    {
      ChildAligns(a, step, i);
    }
    assert Children(below, a, step) == Nothing();
  }

  /** In a full load the visited places lie over ground blocks if the stored ones do. */
  lemma VisitedIsCovered<B>(ground: Level<B>, level: Level<B>, todo: set<BlockPos>, loadAll: int, step: nat)
    requires level.Keys <= Covered(ground, step) && todo <= Covered(ground, step)
    ensures Parents(Source(level, todo, loadAll), step) <= Covered(ground, step + 1)
  {
    forall a | a in Parents(Source(level, todo, loadAll), step)
      ensures a in Covered(ground, step + 1)
    {
      var p :| p in Source(level, todo, loadAll) && a == Align(p, step + 1);
      assert p in Covered(ground, step);
    }
  }

  /** If no old block is an orphan, a full load stores only blocks over the ground and visits all places
      over it, so that it ends in a right pyramid. */
  lemma {:induction false} FullLoadWorks<B>(merge: Merge<B>, loadAll: int, before: seq<Level<B>>, after: seq<Level<B>>,
                                            todos: seq<set<BlockPos>>, k: nat)
    requires IsRun(merge, loadAll, before, after, todos) && loadAll != 0 && loadAll != FORCE && todos[0] == {} && k < STEPS
    requires ProperMerge(merge) && Shaped(before) && Shaped(after) && NoOrphans(before)
    ensures after[k].Keys <= Covered(before[0], k) && todos[k] <= Covered(before[0], k)
    ensures Source(after[k], todos[k], loadAll) == Covered(before[0], k) || (after[k] == map[] && Covered(before[0], k) == {})
    ensures forall step: nat, a {:trigger RightAt(merge, after, step, a)} ::
              step < k && IsAligned(a, step + 1) ==> RightAt(merge, after, step, a)
  {
    if k > 0 {
      var step := k - 1;
      FullLoadWorks(merge, loadAll, before, after, todos, step);
      assert StepDone(merge, loadAll, before, after, todos, step);
      var source := Source(after[step], todos[step], loadAll);
      var visited := Parents(source, step);
      VisitedIsCovered(before[0], after[step], todos[step], loadAll, step);
      assert visited == Covered(before[0], k);
      forall a | IsAligned(a, k)
        ensures RightAt(merge, after, step, a)
      {
        if a !in visited {
          assert a !in before[k];
          assert forall p :: p in after[step] ==> p in source && Align(p, step + 1) in visited;
          NoChildren(merge, after[step], step, a);
        }
      }
      forall p | p in after[k]
        ensures p in visited
      {
        assert p in visited || Lookup(after[k], p) == Lookup(before[k], p);
      }
    }
  }

  /** In a right pyramid every block lies over the ground. */
  lemma {:induction false} RightIsCovered<B>(merge: Merge<B>, levels: seq<Level<B>>, k: nat)
    requires |levels| == STEPS && k < STEPS && ProperMerge(merge) && Shaped(levels) && Consistent(merge, levels)
    ensures levels[k].Keys <= Covered(levels[0], k)
  {
    if k > 0 {
      RightIsCovered(merge, levels, k - 1);
      forall a | a in levels[k]
        ensures a in Covered(levels[0], k)
      {
        assert RightAt(merge, levels, k - 1, a);
        if forall p :: p in levels[k - 1] ==> Align(p, k) != a {
          NoChildren(merge, levels[k - 1], k - 1, a);
        }
      }
    }
  }

  ghost predicate AllCovered<B>(ground: Level<B>, levels: seq<Level<B>>) {
    |levels| == STEPS && forall i: nat :: i < STEPS ==> levels[i].Keys <= Covered(ground, i)
  }

  lemma CoveredAt<B>(ground: Level<B>, levels: seq<Level<B>>, k: nat)
    requires AllCovered(ground, levels) && k < STEPS
    ensures levels[k].Keys <= Covered(ground, k)
  {
    hide Covered;
  }

  /** What a full load does not visit it leaves stored: it visits only places over the ground. */
  lemma {:induction false} TodoIsCovered<B>(merge: Merge<B>, loadAll: int, before: seq<Level<B>>, after: seq<Level<B>>,
                                            todos: seq<set<BlockPos>>, k: nat)
    requires IsRun(merge, loadAll, before, after, todos) && todos[0] == {} && k < STEPS
    requires AllCovered(before[0], after)
    ensures todos[k] <= Covered(before[0], k)
  {
    if k > 0 {
      assert StepDone(merge, loadAll, before, after, todos, k - 1);
      hide Covered, Source, Parents, Rebuilt, IsRun, AllCovered;
      TodoIsCovered(merge, loadAll, before, after, todos, k - 1);
      CoveredAt(before[0], after, k - 1);
      VisitedIsCovered(before[0], after[k - 1], todos[k - 1], loadAll, k - 1);
    }
  }

  /** A full load that hands on what it visits ends in a right pyramid exactly if none of the blocks
      stored before is an orphan: blocks over ground that has gone are not visited, and stay. */
  lemma AutomaticLoadExact<B>(merge: Merge<B>, loadAll: int, before: seq<Level<B>>, after: seq<Level<B>>, todos: seq<set<BlockPos>>)
    requires IsRun(merge, loadAll, before, after, todos) && loadAll != 0 && loadAll != FORCE && todos[0] == {}
    requires ProperMerge(merge) && Shaped(before) && Shaped(after)
    ensures Consistent(merge, after) <==> NoOrphans(before)
  {
    if NoOrphans(before) {
      FullLoadWorks(merge, loadAll, before, after, todos, STEPS - 1);
    }
    if Consistent(merge, after) {
      forall i: nat | i < STEPS
        ensures after[i].Keys <= Covered(before[0], i)
      {
        RightIsCovered(merge, after, i);
      }
      assert AllCovered(before[0], after);
      forall k: nat | 0 < k < STEPS
        ensures before[k].Keys <= Covered(before[0], k)
      {
        OrphansStay(merge, loadAll, before, after, todos, k);
      }
    }
  }

  lemma OrphansStay<B>(merge: Merge<B>, loadAll: int, before: seq<Level<B>>, after: seq<Level<B>>, todos: seq<set<BlockPos>>, k: nat)
    requires IsRun(merge, loadAll, before, after, todos) && todos[0] == {} && 0 < k < STEPS
    requires AllCovered(before[0], after)
    ensures before[k].Keys <= Covered(before[0], k)
  {
    var step := k - 1;
    assert StepDone(merge, loadAll, before, after, todos, step);
    hide Covered, Source, Parents, IsRun, AllCovered, Children;
    TodoIsCovered(merge, loadAll, before, after, todos, step);
    CoveredAt(before[0], after, step);
    CoveredAt(before[0], after, k);
    VisitedIsCovered(before[0], after[step], todos[step], loadAll, step);
    var visited := Parents(Source(after[step], todos[step], loadAll), step);
    forall a | a in before[k]
      ensures a in Covered(before[0], k)
    {
      if a !in visited {
        assert Lookup(after[k], a) == Lookup(before[k], a);
      }
    }
  }

  // ----- the pyramid over a ground -----

  /** What all blocks of a level make on the next. */
  function Merged<B>(merge: Merge<B>, below: Level<B>, step: nat): Level<B> {
    map a | a in Parents(below.Keys, step) && merge(Children(below, a, step)).Some? :: merge(Children(below, a, step)).value
  }

  /** Level `k` of the full rebuild from the ground. */
  function Pyramid<B>(merge: Merge<B>, ground: Level<B>, k: nat): Level<B> {
    if k == 0 then ground else Merged(merge, Pyramid(merge, ground, k - 1), k - 1)
  }

  lemma AlignTwice(p: BlockPos, k: nat)
    ensures IsAligned(Align(p, k), k)
  {
    AlignOneTwice(p.x, k);
    AlignOneTwice(p.y, k);
    AlignOneTwice(p.z, k);
  }

  lemma AlignOneTwice(c: int, k: nat)
    ensures AlignOne(AlignOne(c, k), k) == AlignOne(c, k)
  {
    var d := FarOctree.Pow2(k);
    assert c - c % d == c / d * d;
    Arithmetic.DivisionUnique(c / d * d, c / d, d, 0);
  }

  /** A level that is right above the full rebuild is the next level of it. */
  lemma PyramidGrows<B>(merge: Merge<B>, levels: seq<Level<B>>, step: nat)
    requires ProperMerge(merge) && Shaped(levels) && step + 1 < STEPS && levels[step] == Pyramid(merge, levels[0], step)
    requires forall a :: IsAligned(a, step + 1) ==> RightAt(merge, levels, step, a)
    ensures levels[step + 1] == Pyramid(merge, levels[0], step + 1)
  {
    var above, full := levels[step + 1], Pyramid(merge, levels[0], step + 1);
    assert full == Merged(merge, levels[step], step);
    forall a
      ensures Lookup(above, a) == Lookup(full, a)
    {
      hide Pyramid;
      MergedAt(merge, levels[step], step, a);
      if IsAligned(a, step + 1) {
        assert RightAt(merge, levels, step, a);
      } else {
        assert a !in above;
      }
    }
    SameLookups(above, full);
  }

  lemma MergedAt<B>(merge: Merge<B>, below: Level<B>, step: nat, a: BlockPos)
    requires ProperMerge(merge)
    ensures Lookup(Merged(merge, below, step), a) == if IsAligned(a, step + 1) then merge(Children(below, a, step)) else None
  {
    hide Children;
    if a in Parents(below.Keys, step) {
      var p :| p in below && a == Align(p, step + 1);
      AlignTwice(p, step + 1);
    } else if IsAligned(a, step + 1) {
      assert forall p :: p in below ==> Align(p, step + 1) in Parents(below.Keys, step);
      NoChildren(merge, below, step, a);
    }
  }

  lemma SameLookups<B>(a: Level<B>, b: Level<B>)
    requires forall p :: Lookup(a, p) == Lookup(b, p)
    ensures a == b
  {
    forall p
      ensures p in a <==> p in b
      ensures p in a ==> a[p] == b[p]
    {
      assert Lookup(a, p) == Lookup(b, p);
    }
  }

  /** A right pyramid is the full rebuild from its ground. */
  lemma {:induction false} RightIsPyramid<B>(merge: Merge<B>, levels: seq<Level<B>>, k: nat)
    requires ProperMerge(merge) && Shaped(levels) && Consistent(merge, levels) && k < STEPS
    ensures levels[k] == Pyramid(merge, levels[0], k)
  {
    if k > 0 {
      RightIsPyramid(merge, levels, k - 1);
      PyramidGrows(merge, levels, k - 1);
    }
  }

  /** Rebuilding over the changed blocks gives what a full rebuild would give. */
  lemma IncrementalIsFull<B>(merge: Merge<B>, loadAll: int, was: seq<Level<B>>, before: seq<Level<B>>, after: seq<Level<B>>,
                             todos: seq<set<BlockPos>>, k: nat)
    requires IsRun(merge, loadAll, before, after, todos) && loadAll != FORCE && ProperMerge(merge) && k < STEPS
    requires |was| == STEPS && Consistent(merge, was) && Shaped(was) && Shaped(after)
    requires DifferIn(was[0], before[0], todos[0]) && forall i: nat :: 0 < i < STEPS ==> before[i] == was[i]
    ensures after[k] == Pyramid(merge, before[0], k)
  {
    ChangesRestored(merge, loadAll, was, before, after, todos);
    RightIsPyramid(merge, after, k);
  }

  // ----- a forced load -----

  ghost predicate HasChild<B>(below: Level<B>, step: nat, a: BlockPos) {
    exists p :: p in below && Align(p, step + 1) == a
  }

  /** Every block stored above level `from` has a child in the full rebuild from the ground. */
  ghost predicate ChildrenRemain<B>(merge: Merge<B>, before: seq<Level<B>>, from: nat)
    requires |before| == STEPS
  {
    forall step: nat, a {:trigger HasChild(Pyramid(merge, before[0], step), step, a)} ::
      from <= step && step + 1 < STEPS && a in before[step + 1] ==> HasChild(Pyramid(merge, before[0], step), step, a)
  }

  /** On the first level, what is not visited over the ground blocks to be done is right already. */
  ghost predicate OthersRight<B>(merge: Merge<B>, before: seq<Level<B>>, todo: set<BlockPos>)
    requires |before| == STEPS
  {
    forall a {:trigger RightAt(merge, before, 0, a)} ::
      IsAligned(a, 1) ==> a in Parents(Source(before[0], todo, FORCE), 0) || RightAt(merge, before, 0, a)
  }

  /** When a full load is forced on every level, a list is used for the first level only, and above it
      the parents of what is stored below are visited. It ends in a right pyramid exactly if on the first
      level all that is not visited was right, and every block stored above it has a child in the full
      rebuild; one that has none is not visited, and stays. */
  lemma ForcedLoadExact<B>(merge: Merge<B>, before: seq<Level<B>>, after: seq<Level<B>>, todos: seq<set<BlockPos>>)
    requires IsRun(merge, FORCE, before, after, todos) && ProperMerge(merge) && Shaped(after)
    ensures Consistent(merge, after) <==> OthersRight(merge, before, todos[0]) && ChildrenRemain(merge, before, 1)
  {
    if Consistent(merge, after) {
      forall a {:trigger RightAt(merge, before, 0, a)} | IsAligned(a, 1)
        ensures a in Parents(Source(before[0], todos[0], FORCE), 0) || RightAt(merge, before, 0, a)
      {
        assert RightAt(merge, after, 0, a);
        ForcedGroundAt(merge, before, after, todos, a);
      }
      forall step: nat, a {:trigger HasChild(Pyramid(merge, before[0], step), step, a)} |
        1 <= step && step + 1 < STEPS && a in before[step + 1]
        ensures HasChild(Pyramid(merge, before[0], step), step, a)
      {
        StoredIsAligned(merge, before, after, todos, step, a);
        RightIsPyramid(merge, after, step);
        assert RightAt(merge, after, step, a);
        ForcedLoadAt(merge, before, after, todos, step, a);
      }
    }
    if OthersRight(merge, before, todos[0]) && ChildrenRemain(merge, before, 1) {
      forall step: nat, a {:trigger RightAt(merge, after, step, a)} | step + 1 < STEPS && IsAligned(a, step + 1)
        ensures RightAt(merge, after, step, a)
      {
        ForcedLoadWorks(merge, before, after, todos, step);
        ForcedRightAt(merge, before, after, todos, step, a);
      }
    }
  }

  /** A block that does not lie where blocks of its level lie is not visited, so that there was none before. */
  lemma StoredIsAligned<B>(merge: Merge<B>, before: seq<Level<B>>, after: seq<Level<B>>, todos: seq<set<BlockPos>>, step: nat, a: BlockPos)
    requires IsRun(merge, FORCE, before, after, todos) && Shaped(after) && step + 1 < STEPS && a in before[step + 1]
    ensures IsAligned(a, step + 1)
  {
    assert StepDone(merge, FORCE, before, after, todos, step);
    var source := Source(after[step], todos[step], FORCE);
    if a in Parents(source, step) {
      ParentsAligned(source, step, a);
    } else {
      assert Lookup(after[step + 1], a) == Lookup(before[step + 1], a);
    }
  }

  lemma ParentsAligned(blocks: set<BlockPos>, step: nat, a: BlockPos)
    requires a in Parents(blocks, step)
    ensures IsAligned(a, step + 1)
  {
    var p :| p in blocks && a == Align(p, step + 1);
    AlignTwice(p, step + 1);
  }

  lemma {:induction false} ForcedLoadWorks<B>(merge: Merge<B>, before: seq<Level<B>>, after: seq<Level<B>>,
                                              todos: seq<set<BlockPos>>, step: nat)
    requires IsRun(merge, FORCE, before, after, todos) && ProperMerge(merge) && Shaped(after) && step < STEPS
    requires OthersRight(merge, before, todos[0]) && ChildrenRemain(merge, before, 1)
    ensures after[step] == Pyramid(merge, before[0], step)
  {
    if step > 0 {
      ForcedLoadWorks(merge, before, after, todos, step - 1);
      forall a | IsAligned(a, step)
        ensures RightAt(merge, after, step - 1, a)
      {
        ForcedRightAt(merge, before, after, todos, step - 1, a);
      }
      PyramidGrows(merge, after, step - 1);
    }
  }

  lemma ForcedRightAt<B>(merge: Merge<B>, before: seq<Level<B>>, after: seq<Level<B>>, todos: seq<set<BlockPos>>, step: nat, a: BlockPos)
    requires IsRun(merge, FORCE, before, after, todos) && ProperMerge(merge) && step + 1 < STEPS && IsAligned(a, step + 1)
    requires OthersRight(merge, before, todos[0]) && ChildrenRemain(merge, before, 1) && after[step] == Pyramid(merge, before[0], step)
    ensures RightAt(merge, after, step, a)
  {
    if step == 0 {
      ForcedGroundAt(merge, before, after, todos, a);
      assert a in Parents(Source(before[0], todos[0], FORCE), 0) || RightAt(merge, before, 0, a);
    } else {
      ForcedLoadAt(merge, before, after, todos, step, a);
      assert a in before[step + 1] ==> HasChild(Pyramid(merge, before[0], step), step, a);
    }
  }

  lemma ForcedGroundAt<B>(merge: Merge<B>, before: seq<Level<B>>, after: seq<Level<B>>, todos: seq<set<BlockPos>>, a: BlockPos)
    requires IsRun(merge, FORCE, before, after, todos)
    ensures RightAt(merge, after, 0, a) <==> a in Parents(Source(before[0], todos[0], FORCE), 0) || RightAt(merge, before, 0, a)
  {
    assert StepDone(merge, FORCE, before, after, todos, 0);
    hide Parents, Source, Children;
  }

  lemma ForcedLoadAt<B>(merge: Merge<B>, before: seq<Level<B>>, after: seq<Level<B>>, todos: seq<set<BlockPos>>, step: nat, a: BlockPos)
    requires IsRun(merge, FORCE, before, after, todos) && ProperMerge(merge)
    requires 0 < step && step + 1 < STEPS && IsAligned(a, step + 1)
    ensures RightAt(merge, after, step, a) <==> (a in before[step + 1] ==> HasChild(after[step], step, a))
  {
    assert StepDone(merge, FORCE, before, after, todos, step);
    assert StepDone(merge, FORCE, before, after, todos, step - 1);
    var visited := Parents(after[step].Keys, step);
    assert Source(after[step], todos[step], FORCE) == after[step].Keys;
    if a in visited {
      var p :| p in after[step] && a == Align(p, step + 1);
    } else {
      assert forall p :: p in after[step] ==> Align(p, step + 1) in visited;
      NoChildren(merge, after[step], step, a);
    }
  }

  /** Suppose the pyramid was right and ground blocks have changed since, all of them listed: then only
      blocks above the first level can stay behind. */
  lemma ForcedAfterChanges<B>(merge: Merge<B>, was: seq<Level<B>>, before: seq<Level<B>>, after: seq<Level<B>>, todos: seq<set<BlockPos>>)
    requires IsRun(merge, FORCE, before, after, todos)
    requires |was| == STEPS && ProperMerge(merge) && Consistent(merge, was) && Shaped(was) && Shaped(after)
    requires DifferIn(was[0], before[0], todos[0]) && forall i: nat :: 0 < i < STEPS ==> before[i] == was[i]
    ensures Consistent(merge, after) <==> ChildrenRemain(merge, before, 1)
  {
    ForcedLoadExact(merge, before, after, todos);
    var source := Source(before[0], todos[0], FORCE);
    assert DifferIn(was[0], before[0], source);
    forall a {:trigger RightAt(merge, before, 0, a)} | IsAligned(a, 1)
      ensures a in Parents(source, 0) || RightAt(merge, before, 0, a)
    {
      if a !in Parents(source, 0) {
        SameChildren(was[0], before[0], source, 0, a);
        assert RightAt(merge, was, 0, a);
      }
    }
  }

  lemma GroundOthers<B>(merge: Merge<B>, before: seq<Level<B>>, a: BlockPos)
    requires |before| == STEPS && ProperMerge(merge) && IsAligned(a, 1)
    ensures a in Parents(Source(before[0], {}, FORCE), 0) || RightAt(merge, before, 0, a) <==>
            (a in before[1] ==> HasChild(before[0], 0, a))
  {
    assert Source(before[0], {}, FORCE) == before[0].Keys;
    if a in Parents(before[0].Keys, 0) {
      var p :| p in before[0] && a == Align(p, 1);
    } else {
      assert forall p :: p in before[0] ==> Align(p, 1) in Parents(before[0].Keys, 0);
      NoChildren(merge, before[0], 0, a);
    }
  }

  /** With nothing listed, as a full load begins, every stored block needs a child in the full rebuild,
      also on the first level. */
  lemma NothingListed<B>(merge: Merge<B>, before: seq<Level<B>>)
    requires |before| == STEPS && ProperMerge(merge) && Shaped(before)
    ensures OthersRight(merge, before, {}) && ChildrenRemain(merge, before, 1) <==> ChildrenRemain(merge, before, 0)
  {
    hide Parents, Source, RightAt, Children, HasChild;
    assert Pyramid(merge, before[0], 0) == before[0];
    if OthersRight(merge, before, {}) && ChildrenRemain(merge, before, 1) {
      forall step: nat, a {:trigger HasChild(Pyramid(merge, before[0], step), step, a)} | step + 1 < STEPS && a in before[step + 1]
        ensures HasChild(Pyramid(merge, before[0], step), step, a)
      {
        if step == 0 {
          GroundOthers(merge, before, a);
          assert a in Parents(Source(before[0], {}, FORCE), 0) || RightAt(merge, before, 0, a);
        }
      }
    }
    if ChildrenRemain(merge, before, 0) {
      forall a {:trigger RightAt(merge, before, 0, a)} | IsAligned(a, 1)
        ensures a in Parents(Source(before[0], {}, FORCE), 0) || RightAt(merge, before, 0, a)
      {
        GroundOthers(merge, before, a);
        assert a in before[1] ==> HasChild(Pyramid(merge, before[0], 0), 0, a);
      }
    }
  }

  /** A full load over any stored pyramid. One that hands on what it visits is right exactly if there
      are no orphans, a forced one exactly if every stored block has a child in the full rebuild. */
  lemma FullLoadExact<B>(merge: Merge<B>, loadAll: int, before: seq<Level<B>>, after: seq<Level<B>>, todos: seq<set<BlockPos>>)
    requires IsRun(merge, loadAll, before, after, todos) && loadAll != 0 && todos[0] == {}
    requires ProperMerge(merge) && Shaped(before) && Shaped(after)
    ensures loadAll != FORCE ==> (Consistent(merge, after) <==> NoOrphans(before))
    ensures loadAll == FORCE ==> (Consistent(merge, after) <==> ChildrenRemain(merge, before, 0))
  {
    if loadAll != FORCE {
      AutomaticLoadExact(merge, loadAll, before, after, todos);
    } else {
      ForcedLoadExact(merge, before, after, todos);
      NothingListed(merge, before);
    }
  }

  // ----- a block that a forced load leaves behind -----

  const ORIGIN := BlockPos(0, 0, 0)

  /** A ground block and a block two levels above it, with none between. */
  function Gap(): (levels: seq<Level<int>>)
    ensures |levels| == STEPS
    ensures forall i: nat :: i < STEPS ==> levels[i] == if i == 0 || i == 2 then map[ORIGIN := 0] else map[]
  {
    seq(STEPS, i => if i == 0 || i == 2 then map[ORIGIN := 0] else map[])
  }

  function NothingToDo(): (todos: seq<set<BlockPos>>)
    ensures |todos| == STEPS && forall i: nat :: i < STEPS ==> todos[i] == {}
  {
    seq(STEPS, i => {})
  }

  lemma OriginAligned(k: nat)
    ensures Align(ORIGIN, k) == ORIGIN
  {
    assert 0 % FarOctree.Pow2(k) == 0;
  }

  lemma OriginParents(step: nat)
    ensures Parents({ORIGIN}, step) == {ORIGIN} && Parents({}, step) == {}
  {
    OriginAligned(step + 1);
    hide Align;
  }

  lemma {:induction false} OriginCovered(ground: Level<int>, k: nat)
    requires ground.Keys == {ORIGIN}
    ensures Covered(ground, k) == {ORIGIN}
  {
    hide Parents;
    if k > 0 {
      OriginCovered(ground, k - 1);
      OriginParents(k - 1);
    }
  }

  lemma GapAt(i: nat, a: BlockPos)
    requires i < STEPS
    ensures |Gap()| == STEPS && Lookup(Gap()[i], a) == if (i == 0 || i == 2) && a == ORIGIN then Some(0) else None
  {
  }

  lemma GapKeys(i: nat)
    requires i < STEPS
    ensures |Gap()| == STEPS && Gap()[i].Keys == if i == 0 || i == 2 then {ORIGIN} else {}
  {
  }

  /** Merging nothing. */
  function Blank(blocks: seq<Option<int>>): Option<int> {
    None
  }

  lemma GapStep(step: nat)
    requires step + 1 < STEPS
    ensures StepDone(Blank, FORCE, Gap(), Gap(), NothingToDo(), step)
  {
    hide Parents, Children, Gap, Lookup;
    GapKeys(step);
    OriginParents(step);
    GapAt(step + 1, ORIGIN);
  }

  lemma GapCovered()
    ensures |Gap()| == STEPS && NoOrphans(Gap())
  {
    hide Gap, Covered;
    GapKeys(0);
    OriginCovered(Gap()[0], 2);
    forall k: nat | 0 < k < STEPS
      ensures Gap()[k].Keys <= Covered(Gap()[0], k)
    {
      GapKeys(k);
    }
  }

  lemma GapShaped()
    ensures Shaped(Gap())
  {
    hide Gap, Align;
    GapKeys(0);
    forall k: nat, p | k < STEPS && p in Gap()[k]
      ensures IsAligned(p, k)
    {
      GapKeys(k);
      OriginAligned(k);
    }
  }

  lemma GapIsWrong()
    ensures |Gap()| == STEPS && !Consistent(Blank, Gap())
  {
    hide Gap, Align, Children, Lookup;
    GapAt(2, ORIGIN);
    OriginAligned(2);
    assert !RightAt(Blank, Gap(), 1, ORIGIN);
  }

  /** If the ground block makes nothing, the forced load changes nothing, and the upper block stays,
      although it lies over the ground. */
  lemma ForcedLoadLeavesStale()
    ensures ProperMerge(Blank) && Shaped(Gap()) && NoOrphans(Gap()) && NothingToDo()[0] == {}
    ensures IsRun(Blank, FORCE, Gap(), Gap(), NothingToDo()) && !Consistent(Blank, Gap())
  {
    hide Gap, Shaped, NoOrphans, Consistent, StepDone;
    GapCovered();
    GapShaped();
    GapIsWrong();
    forall step: nat | step + 1 < STEPS
      ensures StepDone(Blank, FORCE, Gap(), Gap(), NothingToDo(), step)
    {
      GapStep(step);
    }
  }

  // ----- the program -----

  class WorldMerger<B(!new)> {
    const merge: Merge<B>
    const loadAll: int
    var levels: seq<Level<B>>

    constructor (merge: Merge<B>, loadAll: int, levels: seq<Level<B>>)
      requires Shaped(levels)
      ensures this.merge == merge && this.loadAll == loadAll && this.levels == levels
    {
      this.merge, this.loadAll, this.levels := merge, loadAll, levels;
    }

    /** Makes one block of its eight children, and stores it or deletes it when there is nothing in it. */
    method MergeOneBlock(a: BlockPos, step: nat)
      requires step + 1 < |levels|
      modifies this`levels
      ensures |levels| == |old(levels)| && forall i :: 0 <= i < |levels| && i != step + 1 ==> levels[i] == old(levels[i])
      ensures Rebuilt(merge, levels[step], old(levels[step + 1]), levels[step + 1], {a}, step)
    {
      var blocks: seq<Option<B>> := [];
      var s := FarOctree.Pow2(step);
      for x := 0 to 2
        invariant |blocks| == 4 * x && forall i: nat :: i < |blocks| ==> blocks[i] == Lookup(levels[step], Child(a, step, i))
      {
        for y := 0 to 2
          invariant |blocks| == 4 * x + 2 * y && forall i: nat :: i < |blocks| ==> blocks[i] == Lookup(levels[step], Child(a, step, i))
        {
          for z := 0 to 2
            invariant |blocks| == 4 * x + 2 * y + z
            invariant forall i: nat :: i < |blocks| ==> blocks[i] == Lookup(levels[step], Child(a, step, i))
          {
            var i := 4 * x + 2 * y + z;
            assert i / 4 == x && i / 2 % 2 == y && i % 2 == z;
            blocks := blocks + [Lookup(levels[step], BlockPos(a.x + x * s, a.y + y * s, a.z + z * s))];
          }
        }
      }
      assert blocks == Children(levels[step], a, step);
      var up := merge(blocks);
      var above := levels[step + 1];
      levels := levels[step + 1 := if up.Some? then above[a := up.value] else above - {a}];
    }

    /** Makes the parent of one block anew, unless this has been done. */
    method MergeParent(p: BlockPos, step: nat, processed0: set<BlockPos>, made0: seq<BlockPos>, ghost first: seq<Level<B>>, ghost done: set<BlockPos>)
      returns (processed: set<BlockPos>, made: seq<BlockPos>)
      requires Progress(merge, first, levels, step, done, processed0, made0)
      modifies this`levels
      ensures Progress(merge, first, levels, step, done + {p}, processed, made)
    {
      processed, made := processed0, made0;
      var a := Align(p, step + 1);
      ParentsGrow(done, p, step);
      if a in processed {
        return;
      }
      MadeGrows(made, a);
      ghost var above := levels[step + 1];
      hide Rebuilt, Parents, Align, Distinct, Elements;
      MergeOneBlock(a, step);
      RebuiltMore(merge, first[step], first[step + 1], above, levels[step + 1], processed, a, step);
      processed := processed + {a};
      made := made + [a];
    }

    /** Makes the parents of the blocks to be done anew, in any order, each of them once. */
    method MergeOneStep(step: nat, todo: set<BlockPos>) returns (todoNext: set<BlockPos>, made: seq<BlockPos>)
      requires step + 1 < |levels|
      modifies this`levels
      ensures |levels| == |old(levels)| && forall i :: 0 <= i < |levels| && i != step + 1 ==> levels[i] == old(levels[i])
      ensures var visited := Parents(Source(levels[step], todo, loadAll), step);
              && Rebuilt(merge, levels[step], old(levels[step + 1]), levels[step + 1], visited, step)
              && todoNext == TodoNext(visited, loadAll)
              && Distinct(made) && Elements(made) == visited
    {
      todoNext := todo;
      if loadAll != 0 && todoNext == {} {
        todoNext := levels[step].Keys;
      }
      hide Rebuilt, Parents, Distinct, Elements;
      todoNext, made := MergeParents(step, todoNext);
      if loadAll == FORCE {
        todoNext := {};
      }
    }

    /** Goes through the blocks in any order. */
    method MergeParents(step: nat, source: set<BlockPos>) returns (processed: set<BlockPos>, made: seq<BlockPos>)
      requires step + 1 < |levels|
      modifies this`levels
      ensures |levels| == |old(levels)| && forall i :: 0 <= i < |levels| && i != step + 1 ==> levels[i] == old(levels[i])
      ensures processed == Parents(source, step) && Distinct(made) && Elements(made) == processed
      ensures Rebuilt(merge, levels[step], old(levels[step + 1]), levels[step + 1], processed, step)
    {
      made, processed := [], {};
      ghost var first := levels;
      var rest := source;
      ProgressStarts(merge, levels, step);
      assert source - rest == {};
      hide Progress, Parents, Rebuilt, Distinct, Elements;
      while rest != {}
        invariant rest <= source && Progress(merge, first, levels, step, source - rest, processed, made)
        decreases |rest|
      {
        var p :| p in rest;
        ghost var done := source - rest;
        rest := rest - {p};
        assert source - rest == done + {p};
        processed, made := MergeParent(p, step, processed, made, first, done);
      }
      assert source - rest == source;
      ProgressEnds(merge, first, levels, step, source, processed, made);
    }

    /** Rebuilds all levels, from the ground up. */
    method MergeList(todo: set<BlockPos>) returns (ghost todos: seq<set<BlockPos>>)
      requires Shaped(levels)
      modifies this`levels
      ensures Shaped(levels) && IsRun(merge, loadAll, old(levels), levels, todos) && todos[0] == todo
    {
      var next := todo;
      todos := [todo];
      for step := 0 to STEPS - 1
        invariant |levels| == STEPS && |todos| == step + 1 && todos[0] == todo && todos[step] == next
        invariant levels[0] == old(levels[0]) && forall k: nat :: step < k < STEPS ==> levels[k] == old(levels[k])
        invariant Shaped(levels)
        invariant forall k: nat :: k < step ==> StepDone(merge, loadAll, old(levels), levels, todos, k)
      {
        ghost var before, before_ := levels, todos;
        var made;
        next, made := MergeOneStep(step, next);
        StaysShaped(merge, loadAll, before, levels, todos[step], step);
        todos := todos + [next];
        hide Rebuilt, Parents, Source, Shaped;
        forall k: nat | k < step
          ensures StepDone(merge, loadAll, old(levels), levels, todos, k)
        {
          assert StepDone(merge, loadAll, old(levels), before, before_, k);
        }
      }
    }
  }

  /** So far the parents of `done` have been made anew, each once. */
  ghost predicate Progress<B>(merge: Merge<B>, first: seq<Level<B>>, now: seq<Level<B>>, step: nat, done: set<BlockPos>,
                              processed: set<BlockPos>, made: seq<BlockPos>) {
    && |now| == |first| && step + 1 < |first| && (forall i :: 0 <= i < |now| && i != step + 1 ==> now[i] == first[i])
    && Rebuilt(merge, first[step], first[step + 1], now[step + 1], processed, step)
    && processed == Parents(done, step) && Distinct(made) && Elements(made) == processed
  }

  lemma ProgressStarts<B>(merge: Merge<B>, levels: seq<Level<B>>, step: nat)
    requires step + 1 < |levels|
    ensures Progress(merge, levels, levels, step, {}, {}, [])
  {
    assert Parents({}, step) == {};
  }

  lemma ProgressEnds<B>(merge: Merge<B>, first: seq<Level<B>>, now: seq<Level<B>>, step: nat, done: set<BlockPos>,
                        processed: set<BlockPos>, made: seq<BlockPos>)
    requires Progress(merge, first, now, step, done, processed, made)
    ensures |now| == |first| && step + 1 < |first| && (forall i :: 0 <= i < |now| && i != step + 1 ==> now[i] == first[i])
    ensures Rebuilt(merge, first[step], first[step + 1], now[step + 1], processed, step)
    ensures processed == Parents(done, step) && Distinct(made) && Elements(made) == processed
  {
    hide Rebuilt, Parents;
  }

  ghost predicate Distinct(places: seq<BlockPos>) {
    forall i, j :: 0 <= i < j < |places| ==> places[i] != places[j]
  }

  lemma ParentsGrow(blocks: set<BlockPos>, p: BlockPos, step: nat)
    ensures Parents(blocks + {p}, step) == Parents(blocks, step) + {Align(p, step + 1)}
  {
  }

  lemma RebuiltMore<B>(merge: Merge<B>, below: Level<B>, first: Level<B>, second: Level<B>, third: Level<B>, places: set<BlockPos>,
                       a: BlockPos, step: nat)
    requires Rebuilt(merge, below, first, second, places, step) && Rebuilt(merge, below, second, third, {a}, step)
    ensures Rebuilt(merge, below, first, third, places + {a}, step)
  {
    hide Children;
  }

  function Elements(places: seq<BlockPos>): set<BlockPos> {
    set p | p in places
  }

  lemma MadeGrows(made: seq<BlockPos>, a: BlockPos)
    ensures Elements(made + [a]) == Elements(made) + {a}
    ensures Distinct(made) && a !in Elements(made) ==> Distinct(made + [a])
  {
  }

  lemma StaysShaped<B>(merge: Merge<B>, loadAll: int, before: seq<Level<B>>, after: seq<Level<B>>, todo: set<BlockPos>, step: nat)
    requires Shaped(before) && |after| == STEPS && step + 1 < STEPS
    requires forall i :: 0 <= i < STEPS && i != step + 1 ==> after[i] == before[i]
    requires Rebuilt(merge, after[step], before[step + 1], after[step + 1], Parents(Source(after[step], todo, loadAll), step), step)
    ensures Shaped(after)
  {
    var top := after[step + 1];
    forall p | p in top
      ensures IsAligned(p, step + 1)
    {
      if p in Parents(Source(after[step], todo, loadAll), step) {
        ParentsAligned(Source(after[step], todo, loadAll), step, p);
      } else {
        assert Lookup(after[step + 1], p) == Lookup(before[step + 1], p);
        assert p in before[step + 1];
      }
    }
  }
}
