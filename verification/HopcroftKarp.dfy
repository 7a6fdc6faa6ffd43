/** The perfect-matching test behind shapeless recipes.

    `graph[u]` lists the right-hand nodes that the left-hand node `u` may be paired with;
    both sides have `|graph|` nodes, and `|graph|` itself stands for "unpaired". */
module HopcroftKarp {

  const SHAPELESS_GROUPS_MAX := 30000

  /** Larger than any distance a search can assign; the largest 16-bit value. */
  const INF: nat := 0xFFFF

  type Graph = seq<seq<nat>>

  // ----- what the test decides -----

  ghost predicate ValidGraph(graph: Graph) {
    && |graph| <= SHAPELESS_GROUPS_MAX
    && forall u, k :: 0 <= u < |graph| && 0 <= k < |graph[u]| ==> graph[u][k] < |graph|
  }

  /** `f` pairs every left-hand node with a neighbour of its own. */
  ghost predicate PerfectMatching(graph: Graph, f: seq<nat>) {
    && |f| == |graph|
    && (forall u :: 0 <= u < |graph| ==> f[u] in graph[u])
    && (forall u, w :: 0 <= u < w < |graph| ==> f[u] != f[w])
  }

  ghost predicate CanMatchAll(graph: Graph) {
    exists f: seq<nat> :: PerfectMatching(graph, f)
  }

  ghost function Nodes(n: nat): (r: set<nat>)
    ensures |r| == n
    ensures forall u: nat :: u in r <==> u < n
  {
    if n == 0 then {} else Nodes(n - 1) + {n - 1}
  }

  ghost function Neighbours(graph: Graph, s: set<nat>): set<nat> {
    set u, v | u in s && u < |graph| && v in graph[u] :: v
  }

  /** Hall's condition fails on `s`: fewer neighbours than nodes. */
  ghost predicate HallViolator(graph: Graph, s: set<nat>) {
    && (forall u :: u in s ==> u < |graph|)
    && |Neighbours(graph, s)| < |s|
  }

  // ----- counting -----

  /** `f` sends the members of `a` to different members of `b`. */
  ghost predicate InjectiveInto(f: seq<nat>, a: set<nat>, b: set<nat>) {
    && (forall x :: x in a ==> x < |f| && f[x] in b)
    && (forall x, y :: x in a && y in a && x != y ==> f[x] != f[y])
  }

  lemma {:induction false} InjectionBoundsSize(f: seq<nat>, a: set<nat>, b: set<nat>)
    requires InjectiveInto(f, a, b)
    ensures |a| <= |b|
    decreases a
  {
    if a != {} {
      var x :| x in a;
      InjectionBoundsSize(f, a - {x}, b - {f[x]});
    }
  }

  lemma SubsetSize(a: set<nat>, b: set<nat>)
    requires a <= b
    ensures |a| <= |b|
    ensures |a| == |b| ==> a == b
  {
    assert |b| == |a| + |b - a| by { assert b == a + (b - a); }
  }

  /** A Hall violator rules out every perfect matching. */
  lemma HallViolatorBlocks(graph: Graph, s: set<nat>)
    requires HallViolator(graph, s)
    ensures !CanMatchAll(graph)
  {
    if f: seq<nat> :| PerfectMatching(graph, f) {
      InjectionBoundsSize(f, s, Neighbours(graph, s));
    }
  }

  // ----- invariants of the search -----

  ghost predicate Pairs(n: nat, pu: seq<nat>, pv: seq<nat>) {
    && |pu| == |pv| == n + 1
    && (forall u :: 0 <= u < n ==> pu[u] <= n)
    && (forall v :: 0 <= v < n ==> pv[v] <= n)
  }

  /** `pu` and `pv` describe one matching along edges of the graph; only the entry of `pv` at
      `stale` may still name a node that has moved elsewhere. */
  ghost predicate Matching(graph: Graph, pu: seq<nat>, pv: seq<nat>, stale: nat)
    requires Pairs(|graph|, pu, pv)
  {
    var n := |graph|;
    && (forall u :: 0 <= u < n && pu[u] < n ==> pu[u] != stale && pv[pu[u]] == u && pu[u] in graph[u])
    && (forall v :: 0 <= v < n && v != stale && pv[v] < n ==> pu[pv[v]] == v)
  }

  /** The left-hand node now paired with the `k`-th neighbour of `u`; `|graph|` if there is none. */
  ghost function Back(graph: Graph, pv: seq<nat>, u: nat, k: nat): (x: nat)
    requires ValidGraph(graph) && |pv| == |graph| + 1 && u < |graph| && k < |graph[u]|
  {
    pv[graph[u][k]]
  }

  ghost predicate ValidDist(n: nat, d: seq<nat>) {
    && |d| == n + 1
    && forall x :: 0 <= x <= n ==> d[x] <= n || d[x] == INF
  }

  // ----- breadth-first search -----

  ghost predicate Distinct(s: seq<nat>) {
    forall i, j :: 0 <= i < j < |s| ==> s[i] != s[j]
  }

  lemma {:induction false} DistinctBound(s: seq<nat>, n: nat)
    requires Distinct(s) && forall i :: 0 <= i < |s| ==> s[i] < n
    ensures |s| <= n
  {
    InjectionBoundsSize(s, Nodes(|s|), Nodes(n));
  }

  /** `x` is a root (distance 0) or lies one step behind some edge of a labelled node. */
  ghost predicate Supported(graph: Graph, pv: seq<nat>, d: seq<nat>, x: nat)
    requires ValidGraph(graph) && |pv| == |d| == |graph| + 1 && x <= |graph|
  {
    d[x] > 0 ==> exists u, k :: 0 <= u < |graph| && 0 <= k < |graph[u]| && Back(graph, pv, u, k) == x && d[u] + 1 == d[x]
  }

  /** `order` lists the labelled nodes in the order they were queued. */
  ghost predicate Queued(n: nat, d: seq<nat>, order: seq<nat>) {
    && |d| == n + 1
    && Distinct(order)
    && (forall i :: 0 <= i < |order| ==> order[i] <= n && d[order[i]] <= i && d[order[i]] != INF)
    && (forall x :: 0 <= x <= n && d[x] != INF ==> x in order)
  }

  /** The distances are those of a search from the unpaired nodes. */
  ghost predicate Layered(graph: Graph, pu: seq<nat>, pv: seq<nat>, d: seq<nat>)
    requires ValidGraph(graph) && |pu| == |pv| == |d| == |graph| + 1
  {
    && (forall u :: 0 <= u < |graph| ==> (pu[u] == |graph| <==> d[u] == 0))
    && d[|graph|] != 0
    && (forall x {:trigger Supported(graph, pv, d, x)} :: 0 <= x <= |graph| && d[x] != INF ==> Supported(graph, pv, d, x))
  }

  /** No edge leads out of the labelled nodes. */
  ghost predicate Closed(graph: Graph, pv: seq<nat>, d: seq<nat>)
    requires ValidGraph(graph) && |pv| == |d| == |graph| + 1
    requires forall v :: 0 <= v < |graph| ==> pv[v] <= |graph|
  {
    forall u, k :: 0 <= u < |graph| && d[u] != INF && 0 <= k < |graph[u]| ==> d[Back(graph, pv, u, k)] != INF
  }

  /** Every edge of the first `head` queued nodes leads to a labelled node. */
  ghost predicate Explored(graph: Graph, pv: seq<nat>, d: seq<nat>, order: seq<nat>, head: nat)
    requires ValidGraph(graph) && |pv| == |d| == |graph| + 1
    requires forall v :: 0 <= v < |graph| ==> pv[v] <= |graph|
  {
    forall i, k :: 0 <= i < head && i < |order| && order[i] < |graph| && 0 <= k < |graph[order[i]]| ==>
      d[Back(graph, pv, order[i], k)] != INF
  }

  lemma SupportStep(graph: Graph, pv: seq<nat>, d: seq<nat>, x: nat, y: nat, u: nat, k: nat)
    requires ValidGraph(graph) && |pv| == |d| == |graph| + 1 && x <= |graph| && y <= |graph|
    requires u < |graph| && k < |graph[u]| && Back(graph, pv, u, k) == x && d[x] == INF && d[u] < INF
    requires ValidDist(|graph|, d)
    requires y != x ==> d[y] != INF && Supported(graph, pv, d, y)
    ensures Supported(graph, pv, d[x := d[u] + 1], y)
  {
    var d' := d[x := d[u] + 1];
    if y == x {
      assert Back(graph, pv, u, k) == y && d'[u] + 1 == d'[y];
    } else if d[y] > 0 {
      var w, j :| 0 <= w < |graph| && 0 <= j < |graph[w]| && Back(graph, pv, w, j) == y && d[w] + 1 == d[y];
      assert Back(graph, pv, w, j) == y && d'[w] + 1 == d'[y];
    }
  }

  lemma QueuedIsValid(n: nat, d: seq<nat>, order: seq<nat>)
    requires Queued(n, d, order)
    ensures |order| <= n + 1 && ValidDist(n, d)
  {
    DistinctBound(order, n + 1);
    forall x | 0 <= x <= n
      ensures d[x] <= n || d[x] == INF
    {
      if d[x] != INF {
        assert x in order;
      }
    }
  }

  lemma QueuedAt(n: nat, d: seq<nat>, order: seq<nat>, i: nat)
    requires Queued(n, d, order) && i < |order| && n < INF
    ensures |d| == n + 1 && order[i] <= n && d[order[i]] <= n < INF
    ensures ValidDist(n, d)
  {
    QueuedIsValid(n, d, order);
  }

  lemma QueueStep(n: nat, d: seq<nat>, order: seq<nat>, i: nat, x: nat)
    requires Queued(n, d, order) && i < |order| && x <= n && d[x] == INF && n < INF - 1
    ensures ValidDist(n, d)
    ensures Queued(n, d[x := d[order[i]] + 1], order + [x])
  {
    QueuedIsValid(n, d, order);
    var order' := order + [x];
    assert order'[|order|] == x;
    assert forall y :: y in order ==> y in order';
  }

  lemma LayerStep(graph: Graph, pu: seq<nat>, pv: seq<nat>, d: seq<nat>, u: nat, k: nat)
    requires ValidGraph(graph) && Pairs(|graph|, pu, pv) && Matching(graph, pu, pv, |graph|)
    requires ValidDist(|graph|, d) && Layered(graph, pu, pv, d)
    requires u < |graph| && k < |graph[u]| && d[u] < INF - 1 && d[Back(graph, pv, u, k)] == INF
    ensures Layered(graph, pu, pv, d[Back(graph, pv, u, k) := d[u] + 1])
  {
    var x := Back(graph, pv, u, k);
    var d' := d[x := d[u] + 1];
    forall y | 0 <= y <= |graph| && d'[y] != INF
      ensures Supported(graph, pv, d', y)
    {
      if y != x { assert Supported(graph, pv, d, y); }
      SupportStep(graph, pv, d, x, y, u, k);
    }
  }

  lemma ExploredGrows(graph: Graph, pv: seq<nat>, d: seq<nat>, order: seq<nat>, head: nat, x: nat, dx: nat)
    requires ValidGraph(graph) && Pairs(|graph|, pv, pv) && |d| == |graph| + 1 && head <= |order|
    requires Explored(graph, pv, d, order, head) && x <= |graph| && dx != INF
    ensures Explored(graph, pv, d[x := dx], order + [x], head)
  {
    assert forall i :: 0 <= i < head ==> (order + [x])[i] == order[i];
  }

  lemma ExploredNode(graph: Graph, pv: seq<nat>, d: seq<nat>, order: seq<nat>, head: nat)
    requires ValidGraph(graph) && Pairs(|graph|, pv, pv) && |d| == |graph| + 1 && head < |order|
    requires Explored(graph, pv, d, order, head)
    requires order[head] < |graph| ==> forall k :: 0 <= k < |graph[order[head]]| ==> d[Back(graph, pv, order[head], k)] != INF
    ensures Explored(graph, pv, d, order, head + 1)
  {
  }

  lemma ExploredAll(graph: Graph, pv: seq<nat>, d: seq<nat>, order: seq<nat>)
    requires ValidGraph(graph) && Pairs(|graph|, pv, pv) && Queued(|graph|, d, order)
    requires Explored(graph, pv, d, order, |order|)
    ensures Closed(graph, pv, d)
  {
    forall u, k | 0 <= u < |graph| && d[u] != INF && 0 <= k < |graph[u]|
      ensures d[Back(graph, pv, u, k)] != INF
    {
      var i :| 0 <= i < |order| && order[i] == u;
      assert d[Back(graph, pv, order[i], k)] != INF;
    }
  }

  /** The distances and the nodes queued so far, of which the first `head` have been looked at. */
  ghost predicate Searched(graph: Graph, pu: seq<nat>, pv: seq<nat>, d: seq<nat>, order: seq<nat>, head: nat)
    requires ValidGraph(graph) && Pairs(|graph|, pu, pv) && |d| == |graph| + 1
  {
    && head <= |order| && Queued(|graph|, d, order) && Layered(graph, pu, pv, d)
    && (d[|graph|] == INF ==> Explored(graph, pv, d, order, head))
  }

  lemma SearchBegins(graph: Graph, pu: seq<nat>, pv: seq<nat>, d: seq<nat>, order: seq<nat>)
    requires ValidGraph(graph) && Pairs(|graph|, pu, pv) && Queued(|graph|, d, order)
    requires Layered(graph, pu, pv, d) && Explored(graph, pv, d, order, 0)
    ensures Searched(graph, pu, pv, d, order, 0)
  {
    hide Layered, Queued, Explored;
  }

  lemma SearchedAt(graph: Graph, pu: seq<nat>, pv: seq<nat>, d: seq<nat>, order: seq<nat>, head: nat)
    requires ValidGraph(graph) && Pairs(|graph|, pu, pv) && |d| == |graph| + 1
    requires Searched(graph, pu, pv, d, order, head) && head < |order|
    ensures order[head] <= |graph| && d[order[head]] < INF && |order| <= |graph| + 1
  {
    hide Layered, Explored;
    QueuedAt(|graph|, d, order, head);
    QueuedIsValid(|graph|, d, order);
  }

  /** A node met for the first time is labelled and queued. */
  lemma SearchStep(graph: Graph, pu: seq<nat>, pv: seq<nat>, d: seq<nat>, order: seq<nat>, head: nat, k: nat)
    requires ValidGraph(graph) && Pairs(|graph|, pu, pv) && Matching(graph, pu, pv, |graph|) && |d| == |graph| + 1
    requires Searched(graph, pu, pv, d, order, head) && head < |order|
    requires order[head] < |graph| && k < |graph[order[head]]| && d[Back(graph, pv, order[head], k)] == INF
    ensures var x, dx := Back(graph, pv, order[head], k), d[order[head]] + 1;
            dx < INF && Searched(graph, pu, pv, d[x := dx], order + [x], head)
  {
    hide Layered, Queued, Explored, Matching, ValidDist;
    var u, x := order[head], Back(graph, pv, order[head], k);
    QueuedAt(|graph|, d, order, head);
    QueueStep(|graph|, d, order, head, x);
    LayerStep(graph, pu, pv, d, u, k);
    if d[|graph|] == INF { ExploredGrows(graph, pv, d, order, head, x, d[u] + 1); }
  }

  lemma SearchedNode(graph: Graph, pu: seq<nat>, pv: seq<nat>, d: seq<nat>, order: seq<nat>, head: nat)
    requires ValidGraph(graph) && Pairs(|graph|, pu, pv) && |d| == |graph| + 1
    requires Searched(graph, pu, pv, d, order, head) && head < |order|
    requires d[|graph|] == INF && order[head] < |graph| ==>
               forall k :: 0 <= k < |graph[order[head]]| ==> d[Back(graph, pv, order[head], k)] != INF
    ensures Searched(graph, pu, pv, d, order, head + 1)
  {
    hide Layered, Queued, Explored;
    if d[|graph|] == INF { ExploredNode(graph, pv, d, order, head); }
  }

  lemma SearchEnds(graph: Graph, pu: seq<nat>, pv: seq<nat>, d: seq<nat>, order: seq<nat>)
    requires ValidGraph(graph) && Pairs(|graph|, pu, pv) && |d| == |graph| + 1
    requires Searched(graph, pu, pv, d, order, |order|)
    ensures ValidDist(|graph|, d) && Layered(graph, pu, pv, d) && (d[|graph|] == INF ==> Closed(graph, pv, d))
  {
    hide Layered, Queued, Explored, Closed;
    QueuedIsValid(|graph|, d, order);
    if d[|graph|] == INF { ExploredAll(graph, pv, d, order); }
  }

  /** Queues the unpaired left-hand nodes as roots and clears all other distances. */
  method EnqueueUnmatched(graph: Graph, pairU: array<nat>, ghost pv: seq<nat>, dist: array<nat>) returns (queue: seq<nat>)
    requires ValidGraph(graph) && dist != pairU
    requires dist.Length == |graph| + 1 && Pairs(|graph|, pairU[..], pv)
    modifies dist
    ensures Queued(|graph|, dist[..], queue) && Layered(graph, pairU[..], pv, dist[..])
    ensures Explored(graph, pv, dist[..], queue, 0)
  {
    var n := |graph|;
    queue := [];
    for u := 0 to n
      invariant forall w :: 0 <= w < u ==> dist[w] == (if pairU[w] == n then 0 else INF)
      invariant Distinct(queue)
      invariant forall i :: 0 <= i < |queue| ==> queue[i] < u && dist[queue[i]] == 0
      invariant forall w :: 0 <= w < u && dist[w] != INF ==> w in queue
    {
      if pairU[u] == n {
        dist[u] := 0;
        queue := queue + [u];
        assert queue[|queue| - 1] == u;
      } else {
        dist[u] := INF;
      }
    }
    dist[n] := INF;
  }

  /** Labels every node with its distance from the unpaired left-hand nodes until the
      dummy is reached; false when it cannot be reached. */
  method Bfs(graph: Graph, pairU: array<nat>, pairV: array<nat>, dist: array<nat>) returns (found: bool)
    requires ValidGraph(graph) && Pairs(|graph|, pairU[..], pairV[..]) && Matching(graph, pairU[..], pairV[..], |graph|)
    requires dist.Length == |graph| + 1 && dist != pairU && dist != pairV
    modifies dist
    ensures found <==> dist[|graph|] != INF
    ensures ValidDist(|graph|, dist[..]) && Layered(graph, pairU[..], pairV[..], dist[..])
    ensures !found ==> Closed(graph, pairV[..], dist[..])
  {
    hide Layered, Queued, Explored, Closed, Matching, ValidDist, Searched;
    var n := |graph|;
    ghost var pu, pv := pairU[..], pairV[..];
    var queue := EnqueueUnmatched(graph, pairU, pv, dist);
    ghost var order := queue;
    ghost var head := 0;
    SearchBegins(graph, pu, pv, dist[..], order);
    while queue != []
      invariant head <= |order| && queue == order[head..]
      invariant pairU[..] == pu && pairV[..] == pv
      invariant Searched(graph, pu, pv, dist[..], order, head)
      decreases n + 1 - head
    {
      SearchedAt(graph, pu, pv, dist[..], order, head);
      var u := queue[0];
      queue := queue[1..];
      if dist[u] < dist[n] {
        for k := 0 to |graph[u]|
          invariant head < |order| && u == order[head] && queue == order[head + 1..]
          invariant pairU[..] == pu && pairV[..] == pv
          invariant Searched(graph, pu, pv, dist[..], order, head)
          invariant forall j :: 0 <= j < k ==> dist[Back(graph, pv, u, j)] != INF
        {
          var back := pairV[graph[u][k]];
          if dist[back] == INF {
            ghost var d := dist[..];
            SearchStep(graph, pu, pv, d, order, head, k);
            dist[back] := dist[u] + 1;
            assert dist[..] == d[back := d[u] + 1];
            queue := queue + [back];
            order := order + [back];
          }
        }
      }
      SearchedNode(graph, pu, pv, dist[..], order, head);
      head := head + 1;
    }
    SearchEnds(graph, pu, pv, dist[..], order);
    found := dist[n] != INF;
  }

  // ----- depth-first search -----

  /** `d` is `d0` with some left-hand nodes given up (set to INF). */
  ghost predicate GivenUp(d: seq<nat>, d0: seq<nat>, n: nat) {
    && |d| == |d0| == n + 1
    && d[n] == d0[n]
    && forall x :: 0 <= x < n ==> d[x] == d0[x] || d[x] == INF
  }

  /** What a depth-first search from `u` leaves alone: it gives up only `u` and nodes further out. */
  ghost predicate Kept(n: nat, d: seq<nat>, d': seq<nat>, u: nat) {
    && |d| == |d'| == n + 1 && u <= n
    && GivenUp(d', d, n) && ValidDist(n, d')
    && forall x :: 0 <= x <= n && x != u && d[x] <= d[u] ==> d'[x] == d[x]
  }

  lemma KeptNothing(n: nat, d: seq<nat>, u: nat)
    requires ValidDist(n, d) && u <= n
    ensures Kept(n, d, d, u)
  {
  }

  lemma KeptGiveUp(n: nat, d: seq<nat>, d': seq<nat>, u: nat)
    requires Kept(n, d, d', u) && u < n
    ensures Kept(n, d, d'[u := INF], u)
  {
  }

  lemma KeptStep(n: nat, d: seq<nat>, d1: seq<nat>, d2: seq<nat>, d0: seq<nat>, u: nat, x: nat)
    requires Kept(n, d, d1, u) && d1[u] == d[u] && GivenUp(d1, d0, n)
    requires Kept(n, d1, d2, x) && d1[x] == d1[u] + 1
    ensures Kept(n, d, d2, u) && d2[u] == d[u] && GivenUp(d2, d1, n) && GivenUp(d2, d0, n)
  {
  }

  /** Nodes given up are dead ends: so is every node one layer further along their edges. */
  ghost predicate DeadEnds(graph: Graph, pv: seq<nat>, d: seq<nat>, d0: seq<nat>)
    requires ValidGraph(graph) && |pv| == |d| == |d0| == |graph| + 1
    requires forall v :: 0 <= v < |graph| ==> pv[v] <= |graph|
  {
    forall x, k :: 0 <= x < |graph| && 0 <= k < |graph[x]| && d[x] == INF && d0[x] != INF ==>
      DeadEdge(graph, pv, d, d0, x, k)
  }

  ghost predicate DeadEdge(graph: Graph, pv: seq<nat>, d: seq<nat>, d0: seq<nat>, x: nat, k: nat)
    requires ValidGraph(graph) && |pv| == |d| == |d0| == |graph| + 1 && x < |graph| && k < |graph[x]|
    requires forall v :: 0 <= v < |graph| ==> pv[v] <= |graph|
  {
    var y := Back(graph, pv, x, k);
    d0[y] == d0[x] + 1 ==> d[y] == INF
  }

  /** What one call of the depth-first search from `u` does to the matching when it succeeds. */
  ghost predicate Augmented(graph: Graph, pu: seq<nat>, d: seq<nat>, u: nat, pu': seq<nat>, pv': seq<nat>)
    requires |pu| == |d| == |graph| + 1 && u < |graph|
  {
    && Pairs(|graph|, pu', pv') && Matching(graph, pu', pv', pu[u])
    && pu'[u] < |graph|
    && (forall x :: 0 <= x < |graph| && x != u ==> (pu'[x] < |graph| <==> pu[x] < |graph|))
    && (forall x :: 0 <= x < |graph| && x != u && d[x] <= d[u] ==> pu'[x] == pu[x])
  }

  lemma AugmentStep(graph: Graph, pu: seq<nat>, pv: seq<nat>, d: seq<nat>, d1: seq<nat>, u: nat, k: nat,
                    pu': seq<nat>, pv': seq<nat>)
    requires ValidGraph(graph) && Pairs(|graph|, pu, pv) && Matching(graph, pu, pv, |graph|)
    requires u < |graph| && k < |graph[u]|
    requires Kept(|graph|, d, d1, u) && d1[u] == d[u]
    requires var x := Back(graph, pv, u, k);
             && d1[x] == d1[u] + 1
             && if x == |graph| then pu' == pu && pv' == pv else Augmented(graph, pu, d1, x, pu', pv')
    ensures |pu'| == |pv'| == |graph| + 1
    ensures Augmented(graph, pu, d, u, pu'[u := graph[u][k]], pv'[graph[u][k] := u])
  {
  }

  lemma DeadEndsStep(graph: Graph, pv: seq<nat>, d: seq<nat>, d0: seq<nat>, u: nat)
    requires ValidGraph(graph) && |pv| == |d| == |d0| == |graph| + 1 && u < |graph|
    requires forall v :: 0 <= v < |graph| ==> pv[v] <= |graph|
    requires DeadEnds(graph, pv, d, d0)
    requires forall k :: 0 <= k < |graph[u]| ==> DeadEdge(graph, pv, d, d0, u, k)
    ensures DeadEnds(graph, pv, d[u := INF], d0)
  {
    var d' := d[u := INF];
    forall x, k | 0 <= x < |graph| && 0 <= k < |graph[x]| && d'[x] == INF && d0[x] != INF
      ensures DeadEdge(graph, pv, d', d0, x, k)
    {
      assert DeadEdge(graph, pv, d, d0, x, k);
    }
  }

  lemma DeadEdgesStay(graph: Graph, pv: seq<nat>, d: seq<nat>, d': seq<nat>, d0: seq<nat>, u: nat, k: nat)
    requires ValidGraph(graph) && Pairs(|graph|, pv, pv) && u < |graph| && k <= |graph[u]|
    requires GivenUp(d, d0, |graph|) && GivenUp(d', d, |graph|)
    requires forall j :: 0 <= j < k ==> DeadEdge(graph, pv, d, d0, u, j)
    ensures GivenUp(d', d0, |graph|)
    ensures forall j :: 0 <= j < k ==> DeadEdge(graph, pv, d', d0, u, j)
  {
    forall j | 0 <= j < k
      ensures DeadEdge(graph, pv, d', d0, u, j)
    {
      assert DeadEdge(graph, pv, d, d0, u, j);
    }
  }

  /** An edge the search does not follow, or follows in vain, is dead. */
  lemma EdgeRefused(graph: Graph, pv: seq<nat>, d: seq<nat>, d0: seq<nat>, u: nat, k: nat)
    requires ValidGraph(graph) && Pairs(|graph|, pv, pv) && u < |graph| && k < |graph[u]|
    requires GivenUp(d, d0, |graph|) && d[u] != INF
    requires d[Back(graph, pv, u, k)] != d[u] + 1 || d[Back(graph, pv, u, k)] == INF
    ensures DeadEdge(graph, pv, d, d0, u, k)
  {
  }

  /** Looks for a way from `u` to the dummy along increasing distances, re-pairing the nodes on
      it; nodes without one are given up. */
  method Dfs(graph: Graph, pairU: array<nat>, pairV: array<nat>, dist: array<nat>, u: nat, ghost d0: seq<nat>)
    returns (ok: bool)
    requires ValidGraph(graph) && Pairs(|graph|, pairU[..], pairV[..]) && Matching(graph, pairU[..], pairV[..], |graph|)
    requires dist.Length == |graph| + 1 && dist != pairU && dist != pairV && pairU != pairV
    requires ValidDist(|graph|, dist[..]) && GivenUp(dist[..], d0, |graph|)
    requires u <= |graph| && (u < |graph| ==> dist[u] != INF)
    modifies pairU, pairV, dist
    ensures Kept(|graph|, old(dist[..]), dist[..], u)
    ensures ok && u == |graph| ==> pairU[..] == old(pairU[..]) && pairV[..] == old(pairV[..])
    ensures ok && u < |graph| ==> Augmented(graph, old(pairU[..]), old(dist[..]), u, pairU[..], pairV[..])
    ensures !ok ==> u < |graph| && dist[u] == INF
    ensures !ok ==> pairU[..] == old(pairU[..]) && pairV[..] == old(pairV[..])
    ensures !ok && old(DeadEnds(graph, pairV[..], dist[..], d0)) ==> DeadEnds(graph, pairV[..], dist[..], d0)
    decreases if u == |graph| then 0 else INF - dist[u]
  {
    hide Matching, Augmented, DeadEnds, DeadEdge, Kept;
    if u == |graph| {
      KeptNothing(|graph|, dist[..], u);
      return true;
    }
    hide GivenUp;
    ghost var pu, pv, d := pairU[..], pairV[..], dist[..];
    ghost var n := |graph|;
    KeptNothing(n, d, u);
    for k := 0 to |graph[u]|
      invariant pairU[..] == pu && pairV[..] == pv
      invariant Kept(n, d, dist[..], u) && dist[u] == d[u]
      invariant ValidDist(n, dist[..]) && GivenUp(dist[..], d0, n)
      invariant DeadEnds(graph, pv, d, d0) ==> DeadEnds(graph, pv, dist[..], d0)
      invariant forall j :: 0 <= j < k ==> DeadEdge(graph, pv, dist[..], d0, u, j)
    {
      var v := graph[u][k];
      var back := pairV[v];
      assert back == Back(graph, pv, u, k);
      if dist[back] != dist[u] + 1 {
        EdgeRefused(graph, pv, dist[..], d0, u, k);
        continue;
      }
      ghost var d1 := dist[..];
      var walked := Dfs(graph, pairU, pairV, dist, back, d0);
      KeptStep(n, d, d1, dist[..], d0, u, back);
      if walked {
        AugmentStep(graph, pu, pv, d, d1, u, k, pairU[..], pairV[..]);
        ghost var pu1, pv1 := pairU[..], pairV[..];
        pairV[v] := u;
        pairU[u] := v;
        assert pairU[..] == pu1[u := v] && pairV[..] == pv1[v := u];
        return true;
      }
      DeadEdgesStay(graph, pv, d1, dist[..], d0, u, k);
      EdgeRefused(graph, pv, dist[..], d0, u, k);
    }
    if DeadEnds(graph, pv, dist[..], d0) {
      DeadEndsStep(graph, pv, dist[..], d0, u);
    }
    ghost var d1 := dist[..];
    dist[u] := INF;
    assert dist[..] == d1[u := INF];
    KeptGiveUp(n, d, d1, u);
    return false;
  }

  // ----- the test -----

  /** Follows the layering back from a live node to a live root. */
  lemma {:induction false} LiveRoot(graph: Graph, pu: seq<nat>, pv: seq<nat>, d: seq<nat>, d0: seq<nat>, x: nat)
    returns (root: nat)
    requires ValidGraph(graph) && |pu| == |pv| == |graph| + 1 && x <= |graph|
    requires forall v :: 0 <= v < |graph| ==> pv[v] <= |graph|
    requires ValidDist(|graph|, d0) && Layered(graph, pu, pv, d0)
    requires GivenUp(d, d0, |graph|) && DeadEnds(graph, pv, d, d0)
    requires d[x] != INF
    ensures root < |graph| && pu[root] == |graph| && d[root] != INF
    decreases d0[x]
  {
    if d0[x] == 0 {
      root := x;
    } else {
      assert Supported(graph, pv, d0, x);
      var u, k :| 0 <= u < |graph| && 0 <= k < |graph[u]| && Back(graph, pv, u, k) == x && d0[u] + 1 == d0[x];
      assert d[u] == INF ==> DeadEdge(graph, pv, d, d0, u, k);
      root := LiveRoot(graph, pu, pv, d, d0, u);
    }
  }

  ghost function Paired(pu: seq<nat>, n: nat): (s: set<nat>)
    ensures |s| <= n
  {
    var paired := set u | u in Nodes(n) && u < |pu| && pu[u] < n;
    SubsetSize(paired, Nodes(n));
    paired
  }

  lemma NothingPaired(graph: Graph)
    ensures var none := seq(|graph| + 1, _ => |graph|);
            Pairs(|graph|, none, none) && Matching(graph, none, none, |graph|) && Paired(none, |graph|) == {}
  {
  }

  lemma UnpairedAtZero(graph: Graph, pu: seq<nat>, pv: seq<nat>, d: seq<nat>)
    requires ValidGraph(graph) && |pu| == |pv| == |d| == |graph| + 1 && Layered(graph, pu, pv, d)
    ensures forall u :: 0 <= u < |graph| && pu[u] == |graph| ==> d[u] == 0
  {
  }

  lemma NothingGivenUp(graph: Graph, pv: seq<nat>, d: seq<nat>)
    requires ValidGraph(graph) && |pv| == |d| == |graph| + 1
    requires forall v :: 0 <= v < |graph| ==> pv[v] <= |graph|
    ensures DeadEnds(graph, pv, d, d)
  {
  }

  lemma RootPaired(graph: Graph, pu: seq<nat>, d: seq<nat>, u: nat, pu': seq<nat>, pv': seq<nat>)
    requires |pu| == |d| == |graph| + 1 && u < |graph| && pu[u] == |graph|
    requires forall w :: 0 <= w < |graph| ==> pu[w] <= |graph|
    requires Augmented(graph, pu, d, u, pu', pv')
    ensures Pairs(|graph|, pu', pv') && Matching(graph, pu', pv', |graph|)
    ensures |Paired(pu', |graph|)| == |Paired(pu, |graph|)| + 1
    ensures forall w :: 0 <= w < |graph| && pu'[w] == |graph| ==> pu[w] == |graph| && w != u
  {
    assert Paired(pu', |graph|) == Paired(pu, |graph|) + {u};
  }

  /** One phase: tries to pair every unpaired left-hand node along the layering. A phase whose
      layering reaches the dummy always pairs at least one more node. */
  method MatchRoots(graph: Graph, pairU: array<nat>, pairV: array<nat>, dist: array<nat>, matched: nat)
    returns (m: nat)
    requires ValidGraph(graph) && Pairs(|graph|, pairU[..], pairV[..]) && Matching(graph, pairU[..], pairV[..], |graph|)
    requires dist.Length == |graph| + 1 && dist != pairU && dist != pairV && pairU != pairV
    requires ValidDist(|graph|, dist[..]) && Layered(graph, pairU[..], pairV[..], dist[..]) && dist[|graph|] != INF
    requires matched == |Paired(pairU[..], |graph|)|
    modifies pairU, pairV, dist
    ensures Pairs(|graph|, pairU[..], pairV[..]) && Matching(graph, pairU[..], pairV[..], |graph|)
    ensures m == |Paired(pairU[..], |graph|)| && m > matched
  {
    hide Matching, Layered, DeadEnds, Augmented, Paired;
    var n := |graph|;
    ghost var pu, pv, d0 := pairU[..], pairV[..], dist[..];
    assert forall u :: 0 <= u < n && pu[u] == n ==> d0[u] == 0 by { UnpairedAtZero(graph, pu, pv, d0); }
    NothingGivenUp(graph, pv, d0);
    m := matched;
    for u := 0 to n
      invariant Pairs(n, pairU[..], pairV[..]) && Matching(graph, pairU[..], pairV[..], n)
      invariant ValidDist(n, dist[..]) && GivenUp(dist[..], d0, n)
      invariant m == |Paired(pairU[..], n)| && m >= matched
      invariant forall w :: u <= w < n && pairU[w] == n ==> dist[w] == 0
      invariant m == matched ==> pairU[..] == pu && pairV[..] == pv && DeadEnds(graph, pv, dist[..], d0)
      invariant m == matched ==> forall w :: 0 <= w < u && pu[w] == n ==> dist[w] == INF
    {
      if pairU[u] == n {
        ghost var pu1, d1 := pairU[..], dist[..];
        var ok := Dfs(graph, pairU, pairV, dist, u, d0);
        if ok {
          RootPaired(graph, pu1, d1, u, pairU[..], pairV[..]);
          m := m + 1;
        }
      }
    }
    if m == matched {
      var root := LiveRoot(graph, pu, pv, dist[..], d0, n);
    }
  }

  ghost function Reached(d: seq<nat>, n: nat): set<nat>
    requires |d| == n + 1
  {
    set u | u in Nodes(n) && d[u] != INF
  }

  lemma NeighbourPaired(graph: Graph, pu: seq<nat>, pv: seq<nat>, d: seq<nat>, v: nat)
    requires ValidGraph(graph) && Pairs(|graph|, pu, pv) && Matching(graph, pu, pv, |graph|)
    requires ValidDist(|graph|, d) && Closed(graph, pv, d) && d[|graph|] == INF
    requires v in Neighbours(graph, Reached(d, |graph|))
    ensures v < |graph| && pv[v] < |graph| && pv[v] in Reached(d, |graph|) && pu[pv[v]] == v
  {
    var u :| u in Reached(d, |graph|) && u < |graph| && v in graph[u];
    var k :| 0 <= k < |graph[u]| && graph[u][k] == v;
    assert d[Back(graph, pv, u, k)] != INF;
  }

  /** When the search cannot reach the dummy although a left-hand node is unpaired, the labelled
      left-hand nodes have too few neighbours. */
  lemma ClosedGivesViolator(graph: Graph, pu: seq<nat>, pv: seq<nat>, d: seq<nat>, root: nat) returns (s: set<nat>)
    requires ValidGraph(graph) && Pairs(|graph|, pu, pv) && Matching(graph, pu, pv, |graph|)
    requires ValidDist(|graph|, d) && Layered(graph, pu, pv, d) && Closed(graph, pv, d) && d[|graph|] == INF
    requires root < |graph| && pu[root] == |graph|
    ensures HallViolator(graph, s)
  {
    s := Reached(d, |graph|);
    assert root in s && forall u :: u in s ==> u < |graph|;
    hide Matching, Layered, Closed, Neighbours, Reached, ValidGraph;
    var ns := Neighbours(graph, s);
    forall v | v in ns
      ensures v < |graph| && pv[v] < |graph| && pv[v] in s - {root} && pu[pv[v]] == v
    {
      NeighbourPaired(graph, pu, pv, d, v);
    }
    InjectionBoundsSize(pv, ns, s - {root});
  }

  lemma AllPaired(graph: Graph, pu: seq<nat>, pv: seq<nat>)
    requires Pairs(|graph|, pu, pv) && Matching(graph, pu, pv, |graph|)
    requires |Paired(pu, |graph|)| == |graph|
    ensures PerfectMatching(graph, pu[..|graph|])
  {
    SubsetSize(Paired(pu, |graph|), Nodes(|graph|));
    forall u | 0 <= u < |graph|
      ensures pu[u] < |graph|
    {
      assert u in Paired(pu, |graph|);
    }
  }

  lemma Unpaired(graph: Graph, pu: seq<nat>) returns (root: nat)
    requires |pu| == |graph| + 1 && |Paired(pu, |graph|)| != |graph|
    requires forall u :: 0 <= u < |graph| ==> pu[u] <= |graph|
    ensures root < |graph| && pu[root] == |graph|
  {
    var nodes, paired := Nodes(|graph|), Paired(pu, |graph|);
    assert nodes - paired == {} ==> paired == nodes;
    root :| root in nodes - paired;
  }

  /** True exactly when every left-hand node can be given a neighbour of its own; otherwise some
      set of nodes has too few neighbours. */
  method CanMatchAllNodes(graph: Graph) returns (ok: bool)
    requires ValidGraph(graph)
    ensures ok <==> CanMatchAll(graph)
    ensures !ok ==> exists s: set<nat> :: HallViolator(graph, s)
  {
    NothingPaired(graph);
    hide Matching, Layered, Closed, Paired, HallViolator, PerfectMatching;
    var n := |graph|;
    var pairU := new nat[n + 1](_ => n);
    var pairV := new nat[n + 1](_ => n);
    assert pairU[..] == pairV[..] == seq(n + 1, _ => n);
    var dist := new nat[n + 1];
    var matched := 0;
    var found := Bfs(graph, pairU, pairV, dist);
    while found
      invariant Pairs(n, pairU[..], pairV[..]) && Matching(graph, pairU[..], pairV[..], n)
      invariant ValidDist(n, dist[..]) && Layered(graph, pairU[..], pairV[..], dist[..])
      invariant matched == |Paired(pairU[..], n)| <= n
      invariant found <==> dist[n] != INF
      invariant !found ==> Closed(graph, pairV[..], dist[..])
      decreases n - matched, found
    {
      matched := MatchRoots(graph, pairU, pairV, dist, matched);
      found := Bfs(graph, pairU, pairV, dist);
    }
    ok := matched == n;
    if ok {
      AllPaired(graph, pairU[..], pairV[..]);
      assert PerfectMatching(graph, pairU[..][..n]);
    } else {
      var root := Unpaired(graph, pairU[..]);
      var s := ClosedGivesViolator(graph, pairU[..], pairV[..], dist[..], root);
      HallViolatorBlocks(graph, s);
    }
  }
}
