/** The queue of blocks waiting to be loaded or generated, shared by several worker threads. Every method
    is one critical section: what happens under the lock of the queue is one step. */
module Emerge {
  import opened Blocks
  import opened Wrappers

  /** A function to be called when the block is done, with its parameter. */
  type Callback = nat

  type Peer = nat

  /** Stands for the server itself, which asks for the blocks around active objects. */
  const PEER_ID_INEXISTENT: Peer := 0

  datatype Flags = Flags(allowGen: bool, force: bool) {
    function Union(other: Flags): Flags {
      Flags(allowGen || other.allowGen, force || other.force)
    }
  }

  /** What is known of a waiting block. */
  datatype BlockEmergeData = BlockEmergeData(peer: Peer, flags: Flags, callbacks: seq<Callback>)

  /** One accepted request for a block. */
  datatype Request = Request(peer: Peer, flags: Flags, callback: Option<Callback>)

  // ----- what the requests for a block amount to -----

  function AllFlags(requests: seq<Request>): Flags {
    if requests == [] then Flags(false, false)
    else AllFlags(requests[..|requests| - 1]).Union(requests[|requests| - 1].flags)
  }

  function AllCallbacks(requests: seq<Request>): seq<Callback> {
    if requests == [] then []
    else AllCallbacks(requests[..|requests| - 1]) +
         match requests[|requests| - 1].callback case None => [] case Some(c) => [c]
  }

  /** The block is charged to whoever asked first; the flags and callbacks of all are kept. */
  function Gathered(requests: seq<Request>): BlockEmergeData
    requires requests != []
  {
    BlockEmergeData(requests[0].peer, AllFlags(requests), AllCallbacks(requests))
  }

  function Added(data: BlockEmergeData, r: Request): BlockEmergeData {
    data.(flags := data.flags.Union(r.flags),
          callbacks := data.callbacks + match r.callback case None => [] case Some(c) => [c])
  }

  lemma GatheredOne(r: Request)
    ensures Gathered([r]) == BlockEmergeData(r.peer, r.flags, match r.callback case None => [] case Some(c) => [c])
  {
    assert [r][..0] == [];
    assert AllFlags([r]) == Flags(false, false).Union(r.flags) == r.flags;
    var own := match r.callback case None => [] case Some(c) => [c];
    assert AllCallbacks([r]) == [] + own == own;
  }

  lemma GatheredMore(requests: seq<Request>, r: Request)
    requires requests != []
    ensures Gathered(requests + [r]) == Added(Gathered(requests), r)
  {
    assert (requests + [r])[..|requests|] == requests;
  }

  /** A block is generated, or its limits are ignored, if any of its requests asks for it; the callbacks
      kept are those that were given. */
  lemma {:induction false} AnyRequest(requests: seq<Request>)
    ensures AllFlags(requests).allowGen <==> exists i :: 0 <= i < |requests| && requests[i].flags.allowGen
    ensures AllFlags(requests).force <==> exists i :: 0 <= i < |requests| && requests[i].flags.force
    ensures forall i, c :: 0 <= i < |requests| && requests[i].callback == Some(c) ==> c in AllCallbacks(requests)
    ensures forall c :: c in AllCallbacks(requests) ==> exists i :: 0 <= i < |requests| && requests[i].callback == Some(c)
  {
    if requests != [] {
      AnyRequest(requests[..|requests| - 1]);
    }
  }

  // ----- counting -----

  function ChargedTo(blocks: map<BlockPos, BlockEmergeData>, peer: Peer): set<BlockPos> {
    set p | p in blocks && blocks[p].peer == peer
  }

  function CountOf(counts: map<Peer, nat>, peer: Peer): nat {
    if peer in counts then counts[peer] else 0
  }

  /** How often a block is in the queues. */
  function Occurrences(queues: seq<seq<BlockPos>>, p: BlockPos): nat {
    if queues == [] then 0 else multiset(queues[0])[p] + Occurrences(queues[1..], p)
  }

  lemma {:induction false} OccurrencesUpdate(queues: seq<seq<BlockPos>>, t: nat, q: seq<BlockPos>, p: BlockPos)
    requires t < |queues|
    ensures Occurrences(queues[t := q], p) == Occurrences(queues, p) - multiset(queues[t])[p] + multiset(q)[p]
    ensures Occurrences(queues, p) >= multiset(queues[t])[p]
  {
    if t == 0 {
      assert queues[0 := q][1..] == queues[1..];
    } else {
      assert queues[t := q][1..] == queues[1..][t - 1 := q];
      OccurrencesUpdate(queues[1..], t - 1, q, p);
    }
  }

  // ----- the invariant -----

  /** Each waiting block is in exactly one queue exactly once, and nothing else is in a queue. */
  ghost predicate QueuedOnce(blocks: map<BlockPos, BlockEmergeData>, queues: seq<seq<BlockPos>>) {
    forall p :: Occurrences(queues, p) == if p in blocks then 1 else 0
  }

  /** The count of each peer is the number of waiting blocks charged to it. */
  ghost predicate Charged(blocks: map<BlockPos, BlockEmergeData>, counts: map<Peer, nat>) {
    && (forall peer :: CountOf(counts, peer) == |ChargedTo(blocks, peer)|)
    && (forall p :: p in blocks ==> blocks[p].peer in counts)
  }

  /** The data of each waiting block are those of the requests accepted for it since it was queued. */
  ghost predicate Complete(blocks: map<BlockPos, BlockEmergeData>, requests: map<BlockPos, seq<Request>>) {
    && requests.Keys == blocks.Keys
    && forall p :: p in blocks ==> requests[p] != [] && blocks[p] == Gathered(requests[p])
  }

  function WithRequest(requests: map<BlockPos, seq<Request>>, p: BlockPos, r: Request): map<BlockPos, seq<Request>> {
    requests[p := (if p in requests then requests[p] else []) + [r]]
  }

  /** The data of a block after one more request. */
  lemma RequestCompletes(blocks: map<BlockPos, BlockEmergeData>, requests: map<BlockPos, seq<Request>>, p: BlockPos, r: Request)
    requires Complete(blocks, requests)
    ensures var data := if p in blocks then Added(blocks[p], r)
                        else BlockEmergeData(r.peer, r.flags, match r.callback case None => [] case Some(c) => [c]);
            Complete(blocks[p := data], WithRequest(requests, p, r))
  {
    if p in blocks {
      GatheredMore(requests[p], r);
    } else {
      GatheredOne(r);
      assert [] + [r] == [r];
    }
    hide Gathered;
  }

  lemma CountIsCharge(blocks: map<BlockPos, BlockEmergeData>, counts: map<Peer, nat>, peer: Peer)
    requires Charged(blocks, counts)
    ensures CountOf(counts, peer) == |ChargedTo(blocks, peer)|
  {
  }

  lemma EntryMade(blocks: map<BlockPos, BlockEmergeData>, counts: map<Peer, nat>, peer: Peer)
    requires Charged(blocks, counts)
    ensures Charged(blocks, counts[peer := CountOf(counts, peer)])
  {
    var counts' := counts[peer := CountOf(counts, peer)];
    forall other
      ensures CountOf(counts', other) == CountOf(counts, other)
    {
    }
  }

  lemma ChargeNew(blocks: map<BlockPos, BlockEmergeData>, counts: map<Peer, nat>, p: BlockPos, data: BlockEmergeData)
    requires Charged(blocks, counts) && p !in blocks
    ensures Charged(blocks[p := data], counts[data.peer := CountOf(counts, data.peer) + 1])
  {
    var blocks', counts' := blocks[p := data], counts[data.peer := CountOf(counts, data.peer) + 1];
    forall peer
      ensures CountOf(counts', peer) == |ChargedTo(blocks', peer)|
    {
      ChargedOneMore(blocks, p, data, peer);
      CountIsCharge(blocks, counts, peer);
    }
  }

  lemma ChargedOneMore(blocks: map<BlockPos, BlockEmergeData>, p: BlockPos, data: BlockEmergeData, peer: Peer)
    requires p !in blocks
    ensures |ChargedTo(blocks[p := data], peer)| == |ChargedTo(blocks, peer)| + if peer == data.peer then 1 else 0
  {
    if peer == data.peer {
      assert ChargedTo(blocks[p := data], peer) == ChargedTo(blocks, peer) + {p};
    } else {
      assert ChargedTo(blocks[p := data], peer) == ChargedTo(blocks, peer);
    }
  }

  lemma ChargeSame(blocks: map<BlockPos, BlockEmergeData>, counts: map<Peer, nat>, p: BlockPos, data: BlockEmergeData)
    requires Charged(blocks, counts) && p in blocks && data.peer == blocks[p].peer
    ensures Charged(blocks[p := data], counts)
  {
    forall peer
      ensures CountOf(counts, peer) == |ChargedTo(blocks[p := data], peer)|
    {
      assert ChargedTo(blocks[p := data], peer) == ChargedTo(blocks, peer);
    }
  }

  lemma ChargeGone(blocks: map<BlockPos, BlockEmergeData>, counts: map<Peer, nat>, p: BlockPos)
    requires Charged(blocks, counts) && p in blocks
    ensures var peer := blocks[p].peer;
            peer in counts && counts[peer] > 0 && Charged(blocks - {p}, counts[peer := counts[peer] - 1])
  {
    var own := blocks[p].peer;
    assert p in ChargedTo(blocks, own);
    assert CountOf(counts, own) == |ChargedTo(blocks, own)|;
    forall peer
      ensures peer == own ==> |ChargedTo(blocks - {p}, peer)| == |ChargedTo(blocks, peer)| - 1
      ensures peer != own ==> ChargedTo(blocks - {p}, peer) == ChargedTo(blocks, peer)
    {
      if peer == own {
        assert ChargedTo(blocks - {p}, peer) == ChargedTo(blocks, peer) - {p};
      }
    }
  }

  lemma QueuePushed(blocks: map<BlockPos, BlockEmergeData>, queues: seq<seq<BlockPos>>, t: nat, p: BlockPos, data: BlockEmergeData)
    requires QueuedOnce(blocks, queues) && p !in blocks && t < |queues|
    ensures QueuedOnce(blocks[p := data], queues[t := queues[t] + [p]])
  {
    var queues', blocks' := queues[t := queues[t] + [p]], blocks[p := data];
    forall q
      ensures Occurrences(queues', q) == if q in blocks' then 1 else 0
    {
      OccurrencesUpdate(queues, t, queues[t] + [p], q);
      assert Occurrences(queues, q) == if q in blocks then 1 else 0;
    }
  }

  lemma QueuePopped(blocks: map<BlockPos, BlockEmergeData>, queues: seq<seq<BlockPos>>, t: nat)
    requires QueuedOnce(blocks, queues) && t < |queues| && queues[t] != []
    ensures queues[t][0] in blocks
    ensures QueuedOnce(blocks - {queues[t][0]}, queues[t := queues[t][1..]])
  {
    var front := queues[t][0];
    assert queues[t] == [front] + queues[t][1..];
    assert multiset(queues[t]) == multiset{front} + multiset(queues[t][1..]);
    OccurrencesUpdate(queues, t, queues[t], front);
    assert Occurrences(queues, front) == if front in blocks then 1 else 0;
    var queues', blocks' := queues[t := queues[t][1..]], blocks - {front};
    forall q
      ensures Occurrences(queues', q) == if q in blocks' then 1 else 0
    {
      OccurrencesUpdate(queues, t, queues[t][1..], q);
      assert Occurrences(queues, q) == if q in blocks then 1 else 0;
    }
  }

  // ----- the program -----

  datatype Limits = Limits(total: nat, diskOnly: nat, generate: nat)

  /** Unless it is forced, a request must find room in the queue and within the share of its peer; the
      server itself may fill half of the queue. */
  predicate Accepts(limits: Limits, waiting: nat, count: nat, peer: Peer, flags: Flags) {
    flags.force ||
    (waiting < limits.total &&
     if peer != PEER_ID_INEXISTENT then count < (if flags.allowGen then limits.generate else limits.diskOnly)
     else count * 2 < limits.total)
  }

  /** Of the numbers in range, `r` is the one nearest to `n`. */
  ghost predicate Nearest(r: int, n: int, low: int, high: int) {
    low <= r <= high && (r < n ==> r == high) && (r > n ==> r == low)
  }

  class EmergeManager {
    const limits: Limits
    var blocks: map<BlockPos, BlockEmergeData>
    var peerCount: map<Peer, nat>
    var queues: seq<seq<BlockPos>>
    /** The requests accepted for each waiting block, and how many blocks were queued by force. */
    ghost var requests: map<BlockPos, seq<Request>>
    ghost var forced: nat

    ghost predicate Valid()
      reads this
    {
      && |queues| > 0
      && QueuedOnce(blocks, queues) && Charged(blocks, peerCount) && Complete(blocks, requests)
      && |blocks| <= limits.total + forced
    }

    constructor (settings: Limits, threads: nat)
      requires threads > 0
      ensures Valid() && blocks == map[] && forced == 0 && |queues| == threads
      ensures Nearest(limits.diskOnly, settings.diskOnly, 2, 1000000) && Nearest(limits.generate, settings.generate, 1, 1000000)
      ensures limits.total >= limits.diskOnly && limits.total >= limits.generate && limits.total >= settings.total
      ensures limits.total == limits.diskOnly || limits.total == limits.generate || limits.total == settings.total
    {
      var diskOnly := if settings.diskOnly < 2 then 2 else if settings.diskOnly > 1000000 then 1000000 else settings.diskOnly;
      var generate := if settings.generate < 1 then 1 else if settings.generate > 1000000 then 1000000 else settings.generate;
      var larger := if diskOnly < generate then generate else diskOnly;
      limits := Limits(if settings.total < larger then larger else settings.total, diskOnly, generate);
      blocks, peerCount, queues, requests, forced := map[], map[], seq(threads, _ => []), map[], 0;
      new;
      forall p
        ensures Occurrences(queues, p) == 0
      {
        NothingQueued(queues, p);
      }
      forall peer
        ensures ChargedTo(blocks, peer) == {}
      {
      }
    }

    /** Checks the limits of the queue. */
    method WithinLimits(count: nat, peer: Peer, flags: Flags) returns (ok: bool)
      ensures ok <==> Accepts(limits, |blocks|, count, peer, flags)
    {
      if !flags.force {
        if |blocks| >= limits.total {
          return false;
        }
        if peer != PEER_ID_INEXISTENT {
          if count >= if flags.allowGen then limits.generate else limits.diskOnly {
            return false;
          }
        } else if count * 2 >= limits.total {
          return false;
        }
      }
      return true;
    }

    /** Enters a request for a block, if it is accepted. */
    method PushBlockEmergeData(p: BlockPos, peer: Peer, flags: Flags, callback: Option<Callback>) returns (ok: bool, existed: bool)
      requires Charged(blocks, peerCount) && Complete(blocks, requests)
      modifies this`blocks, this`peerCount, this`requests
      ensures ok <==> Accepts(limits, |old(blocks)|, |ChargedTo(old(blocks), peer)|, peer, flags)
      ensures Charged(blocks, peerCount) && Complete(blocks, requests)
      ensures !ok ==> blocks == old(blocks) && requests == old(requests)
      ensures ok ==> existed == (p in old(blocks))
      ensures ok ==> requests == WithRequest(old(requests), p, Request(peer, flags, callback)) && p in blocks && blocks == old(blocks)[p := blocks[p]]
    {
      var count := CountOf(peerCount, peer);
      CountIsCharge(blocks, peerCount, peer);
      EntryMade(blocks, peerCount, peer);
      hide Charged, Complete, ChargedTo, Accepts, CountOf, WithRequest;
      existed := false;
      ok := WithinLimits(count, peer, flags);
      peerCount := peerCount[peer := count];
      if ok {
        existed := Record(p, peer, flags, callback);
      }
    }

    /** Enters an accepted request. */
    method Record(p: BlockPos, peer: Peer, flags: Flags, callback: Option<Callback>) returns (existed: bool)
      requires Charged(blocks, peerCount) && Complete(blocks, requests) && peer in peerCount
      modifies this`blocks, this`peerCount, this`requests
      ensures Charged(blocks, peerCount) && Complete(blocks, requests)
      ensures existed == (p in old(blocks)) && requests == WithRequest(old(requests), p, Request(peer, flags, callback))
      ensures p in blocks && blocks == old(blocks)[p := blocks[p]]
    {
      hide Charged, Complete, WithRequest;
      ghost var r := Request(peer, flags, callback);
      RequestCompletes(blocks, requests, p, r);
      existed := p in blocks;
      var added := match callback case None => [] case Some(c) => [c];
      if existed {
        var data := blocks[p];
        data := data.(callbacks := data.callbacks + added, flags := data.flags.Union(flags));
        ChargeSame(blocks, peerCount, p, data);
        blocks := blocks[p := data];
        requests := WithRequest(requests, p, r);
      } else {
        var data := BlockEmergeData(peer, flags, added);
        ChargeNew(blocks, peerCount, p, data);
        blocks := blocks[p := data];
        peerCount := peerCount[peer := peerCount[peer] + 1];
        requests := WithRequest(requests, p, r);
      }
    }

    /** The first of the threads with the shortest queue. */
    method GetOptimalThread() returns (index: nat)
      requires |queues| > 0
      ensures index < |queues|
      ensures forall t :: 0 <= t < |queues| ==> |queues[index]| <= |queues[t]| && (t < index ==> |queues[index]| < |queues[t]|)
    {
      index := 0;
      var lowest := |queues[0]|;
      for i := 1 to |queues|
        invariant index < i && lowest == |queues[index]|
        invariant forall t :: 0 <= t < i ==> lowest <= |queues[t]| && (t < index ==> lowest < |queues[t]|)
      {
        var items := |queues[i]|;
        if items < lowest {
          index, lowest := i, items;
        }
      }
    }

    /** Queues a block. A block that waits already stays in its queue and gathers the request. */
    method EnqueueBlockEmerge(p: BlockPos, peer: Peer, flags: Flags, callback: Option<Callback>) returns (ok: bool)
      requires Valid()
      modifies this
      ensures Valid()
      ensures ok <==> Accepts(limits, |old(blocks)|, |ChargedTo(old(blocks), peer)|, peer, flags)
      ensures !ok ==> blocks == old(blocks) && requests == old(requests) && queues == old(queues)
      ensures ok ==> requests == WithRequest(old(requests), p, Request(peer, flags, callback)) && p in blocks && blocks == old(blocks)[p := blocks[p]]
      ensures ok && p in old(blocks) ==> queues == old(queues)
      ensures ok && p !in old(blocks) ==> PushedToShortest(old(queues), queues, p)
      ensures forced == old(forced) + if ok && flags.force && p !in old(blocks) then 1 else 0
    {
      var existed;
      ghost var before := blocks;
      hide QueuedOnce, Charged, Complete, ChargedTo, Occurrences, Gathered, WithRequest;
      ok, existed := PushBlockEmergeData(p, peer, flags, callback);
      if !ok {
        return;
      }
      if existed {
        SameQueues(before, blocks, queues);
        return;
      }
      if flags.force {
        forced := forced + 1;
      }
      QueueGrows(before, p, blocks[p]);
      PushBlock(p, before);
    }

    /** Hands a new block to the thread with the least to do. */
    method PushBlock(p: BlockPos, ghost before: map<BlockPos, BlockEmergeData>)
      requires |queues| > 0 && QueuedOnce(before, queues) && p !in before && p in blocks && blocks == before[p := blocks[p]]
      modifies this`queues
      ensures QueuedOnce(blocks, queues) && PushedToShortest(old(queues), queues, p)
    {
      var t := GetOptimalThread();
      QueuePushed(before, queues, t, p, blocks[p]);
      queues := queues[t := queues[t] + [p]];
      hide QueuedOnce;
    }

    /** Takes the data of a block out. */
    method PopBlockEmergeData(p: BlockPos) returns (found: bool, data: BlockEmergeData)
      requires Charged(blocks, peerCount) && Complete(blocks, requests)
      modifies this`blocks, this`peerCount, this`requests
      ensures Charged(blocks, peerCount) && Complete(blocks, requests)
      ensures found <==> p in old(blocks)
      ensures found ==> data == old(blocks)[p] && blocks == old(blocks) - {p} && requests == old(requests) - {p}
      ensures !found ==> blocks == old(blocks) && requests == old(requests)
    {
      if p !in blocks {
        return false, BlockEmergeData(PEER_ID_INEXISTENT, Flags(false, false), []);
      }
      data := blocks[p];
      ChargeGone(blocks, peerCount, p);
      if data.peer !in peerCount {
        return false, data;
      }
      var count := peerCount[data.peer];
      assert count != 0;
      peerCount := peerCount[data.peer := count - 1];
      blocks := blocks - {p};
      requests := requests - {p};
      found := true;
    }

    /** A thread takes the first block of its queue; its data are always there, and hold exactly what was
        asked for since the block was queued. */
    method PopBlockEmerge(t: nat) returns (r: Option<(BlockPos, BlockEmergeData)>)
      requires Valid() && t < |queues|
      modifies this
      ensures Valid() && forced == old(forced)
      ensures r.None? <==> old(queues)[t] == []
      ensures r.None? ==> blocks == old(blocks) && queues == old(queues) && requests == old(requests)
      ensures r.Some? ==> var (p, data) := r.value;
                          && p == old(queues)[t][0] && queues == old(queues)[t := old(queues)[t][1..]]
                          && p in old(requests) && old(requests)[p] != [] && data == Gathered(old(requests)[p])
                          && blocks == old(blocks) - {p} && requests == old(requests) - {p}
    {
      hide QueuedOnce, Charged, ChargedTo, Occurrences, Gathered;
      if queues[t] == [] {
        return None;
      }
      var p := queues[t][0];
      QueuePopped(blocks, queues, t);
      QueueShrinks(blocks, p);
      queues := queues[t := queues[t][1..]];
      var found, data := PopBlockEmergeData(p);
      r := Some((p, data));
    }

    /** A thread that is stopped cancels everything in its queue. */
    method CancelPendingItems(t: nat) returns (cancelled: seq<(BlockPos, seq<Callback>)>)
      requires Valid() && t < |queues|
      modifies this
      ensures Valid() && forced == old(forced)
      ensures queues == old(queues)[t := []]
      ensures |cancelled| == |old(queues)[t]| && Remaining(old(blocks), blocks, old(requests), requests, old(queues)[t])
      ensures AllCancelled(old(requests), old(queues)[t], cancelled)
    {
      cancelled := [];
      CancelStarts(queues, blocks, requests, t);
      hide Valid, CancelProgress;
      while queues[t] != []
        invariant Valid() && |queues| == |old(queues)| && forced == old(forced)
        invariant CancelProgress(old(queues), queues, old(blocks), blocks, old(requests), requests, t, cancelled)
        decreases |queues[t]|
      {
        ghost var queues0, blocks0, requests0 := queues, blocks, requests;
        var r := PopBlockEmerge(t);
        var (p, data) := r.value;
        CancelStep(old(queues), queues0, queues, old(blocks), blocks0, blocks, old(requests), requests0, requests, t, cancelled, data);
        cancelled := cancelled + [(p, data.callbacks)];
      }
      CancelEnds(old(queues), queues, old(blocks), blocks, old(requests), requests, t, cancelled);
    }
  }

  /** The first blocks of queue `t` have been cancelled, as many as the list says. */
  ghost predicate CancelProgress(queues: seq<seq<BlockPos>>, queues': seq<seq<BlockPos>>,
                                 blocks: map<BlockPos, BlockEmergeData>, blocks': map<BlockPos, BlockEmergeData>,
                                 requests: map<BlockPos, seq<Request>>, requests': map<BlockPos, seq<Request>>,
                                 t: nat, cancelled: seq<(BlockPos, seq<Callback>)>) {
    && t < |queues| && |cancelled| <= |queues[t]| && queues' == queues[t := queues[t][|cancelled|..]]
    && Remaining(blocks, blocks', requests, requests', queues[t][..|cancelled|])
    && AllCancelled(requests, queues[t], cancelled)
  }

  lemma CancelStarts(queues: seq<seq<BlockPos>>, blocks: map<BlockPos, BlockEmergeData>, requests: map<BlockPos, seq<Request>>, t: nat)
    requires t < |queues|
    ensures CancelProgress(queues, queues, blocks, blocks, requests, requests, t, [])
  {
    assert queues[t][..0] == [] && queues[t][0..] == queues[t] && queues[t := queues[t]] == queues;
  }

  lemma CancelStep(queues: seq<seq<BlockPos>>, queues0: seq<seq<BlockPos>>, queues1: seq<seq<BlockPos>>,
                   blocks: map<BlockPos, BlockEmergeData>, blocks0: map<BlockPos, BlockEmergeData>, blocks1: map<BlockPos, BlockEmergeData>,
                   requests: map<BlockPos, seq<Request>>, requests0: map<BlockPos, seq<Request>>, requests1: map<BlockPos, seq<Request>>,
                   t: nat, cancelled: seq<(BlockPos, seq<Callback>)>, data: BlockEmergeData)
    requires CancelProgress(queues, queues0, blocks, blocks0, requests, requests0, t, cancelled)
    requires t < |queues0| && queues0[t] != [] && queues1 == queues0[t := queues0[t][1..]]
    requires var p := queues0[t][0];
             && p in requests0 && requests0[p] != [] && data == Gathered(requests0[p])
             && blocks1 == blocks0 - {p} && requests1 == requests0 - {p}
    ensures CancelProgress(queues, queues1, blocks, blocks1, requests, requests1, t, cancelled + [(queues0[t][0], data.callbacks)])
  {
    var queue, n, p := queues[t], |cancelled|, queues0[t][0];
    assert queues0[t] == queue[n..];
    assert p == queue[n] && queue[n..][1..] == queue[n + 1..] && queue[..n + 1] == queue[..n] + [p];
    assert queues1 == queues[t := queue[n + 1..]];
    OneMoreCancelled(requests, queue, cancelled, requests0, p, data);
    OneMoreGone(blocks, blocks0, blocks1, requests, requests0, requests1, queue[..n], p);
  }

  lemma CancelEnds(queues: seq<seq<BlockPos>>, queues': seq<seq<BlockPos>>,
                   blocks: map<BlockPos, BlockEmergeData>, blocks': map<BlockPos, BlockEmergeData>,
                   requests: map<BlockPos, seq<Request>>, requests': map<BlockPos, seq<Request>>,
                   t: nat, cancelled: seq<(BlockPos, seq<Callback>)>)
    requires CancelProgress(queues, queues', blocks, blocks', requests, requests', t, cancelled) && t < |queues'| && queues'[t] == []
    ensures queues' == queues[t := []] && |cancelled| == |queues[t]|
    ensures Remaining(blocks, blocks', requests, requests', queues[t]) && AllCancelled(requests, queues[t], cancelled)
  {
    var queue, n := queues[t], |cancelled|;
    assert queues'[t] == queue[n..];
    assert queue[..|queue|] == queue;
  }

  lemma OneMoreGone(blocks: map<BlockPos, BlockEmergeData>, blocks0: map<BlockPos, BlockEmergeData>, blocks1: map<BlockPos, BlockEmergeData>,
                    requests: map<BlockPos, seq<Request>>, requests0: map<BlockPos, seq<Request>>, requests1: map<BlockPos, seq<Request>>,
                    gone: seq<BlockPos>, p: BlockPos)
    requires Remaining(blocks, blocks0, requests, requests0, gone)
    requires blocks1 == blocks0 - {p} && requests1 == requests0 - {p}
    ensures Remaining(blocks, blocks1, requests, requests1, gone + [p])
  {
    assert (set q | q in gone + [p]) == (set q | q in gone) + {p};
  }

  ghost predicate AllCancelled(requests: map<BlockPos, seq<Request>>, queue: seq<BlockPos>, cancelled: seq<(BlockPos, seq<Callback>)>) {
    |cancelled| <= |queue| && forall i: nat :: i < |cancelled| ==> Cancelled(requests, queue[i], cancelled[i])
  }

  lemma OneMoreCancelled(requests: map<BlockPos, seq<Request>>, queue: seq<BlockPos>, cancelled: seq<(BlockPos, seq<Callback>)>,
                         requests0: map<BlockPos, seq<Request>>, p: BlockPos, data: BlockEmergeData)
    requires AllCancelled(requests, queue, cancelled) && |cancelled| < |queue| && queue[|cancelled|] == p
    requires p in requests0 && requests0[p] != [] && data == Gathered(requests0[p])
    requires requests0.Keys <= requests.Keys && forall q :: q in requests0 ==> requests0[q] == requests[q]
    ensures AllCancelled(requests, queue, cancelled + [(p, data.callbacks)])
  {
  }

  /** The block has been appended to one of the shortest queues. */
  ghost predicate PushedToShortest(queues: seq<seq<BlockPos>>, queues': seq<seq<BlockPos>>, p: BlockPos) {
    exists t :: 0 <= t < |queues| && queues' == queues[t := queues[t] + [p]] && forall u :: 0 <= u < |queues| ==> |queues[t]| <= |queues[u]|
  }

  ghost predicate Cancelled(requests: map<BlockPos, seq<Request>>, p: BlockPos, c: (BlockPos, seq<Callback>)) {
    p in requests && c == (p, AllCallbacks(requests[p]))
  }

  /** The blocks of `gone` have been taken out, nothing else has changed. */
  ghost predicate Remaining(blocks: map<BlockPos, BlockEmergeData>, blocks': map<BlockPos, BlockEmergeData>,
                            requests: map<BlockPos, seq<Request>>, requests': map<BlockPos, seq<Request>>, gone: seq<BlockPos>) {
    && blocks'.Keys == blocks.Keys - (set p | p in gone) && requests'.Keys == requests.Keys - (set p | p in gone)
    && (forall p :: p in blocks' ==> blocks'[p] == blocks[p])
    && (forall p :: p in requests' ==> requests'[p] == requests[p])
  }

  lemma {:induction false} NothingQueued(queues: seq<seq<BlockPos>>, p: BlockPos)
    requires forall i :: 0 <= i < |queues| ==> queues[i] == []
    ensures Occurrences(queues, p) == 0
  {
    if queues != [] {
      NothingQueued(queues[1..], p);
    }
  }

  lemma SameQueues(blocks: map<BlockPos, BlockEmergeData>, blocks': map<BlockPos, BlockEmergeData>, queues: seq<seq<BlockPos>>)
    requires QueuedOnce(blocks, queues) && blocks.Keys == blocks'.Keys
    ensures QueuedOnce(blocks', queues) && |blocks'| == |blocks|
  {
    assert |blocks'| == |blocks'.Keys| && |blocks| == |blocks.Keys|;
  }

  lemma QueueGrows(blocks: map<BlockPos, BlockEmergeData>, p: BlockPos, data: BlockEmergeData)
    requires p !in blocks
    ensures |blocks[p := data]| == |blocks| + 1
  {
    assert blocks[p := data].Keys == blocks.Keys + {p};
    assert |blocks[p := data]| == |blocks[p := data].Keys|;
  }

  lemma QueueShrinks(blocks: map<BlockPos, BlockEmergeData>, p: BlockPos)
    requires p in blocks
    ensures |blocks - {p}| == |blocks| - 1
  {
    assert (blocks - {p}).Keys == blocks.Keys - {p};
    assert |blocks - {p}| == |(blocks - {p}).Keys|;
  }
}
