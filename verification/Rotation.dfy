// Committee rotation over two chains. The beacon assigns candidates to shards; a shard learns of it from beacon blocks
// it reads later, swaps its committee at the end of an epoch, and reports the swap in its own blocks, which the beacon
// includes later still and replays. Each side works on an old view of the other.
module Rotation {
  import opened Common
  import opened Committee
  import opened BeaconState
  import opened Instructions
  import opened BeaconProducer
  import opened ShardState

  datatype Setup = Setup(genesis: map<Shard, seq<Key>>, size: nat, beaconSize: nat, shardOf: ShardOf)

  // A shard: its lists, the beacon height it has read, its chain, how many of its blocks the beacon has included, and
  // its committee after each block.
  datatype Node = Node(lists: Lists, beaconHeight: nat, chain: seq<seq<Instruction>>, accepted: nat,
                       history: seq<seq<Key>>)

  // beaconChain[i] holds the instructions of the beacon block at height i + 1.
  datatype System = System(beacon: Beacon, beaconChain: seq<seq<Instruction>>, shards: map<Shard, Node>)

  function SwapsIn(chain: seq<seq<Instruction>>, s: Shard): (r: seq<Instruction>) {
    if chain == [] then [] else SwapsIn(chain[..|chain| - 1], s) + SwapsOf(chain[|chain| - 1], s)
  }

  // ---------------------------------------------------------------------------------------------
  // The steps
  // ---------------------------------------------------------------------------------------------

  // A shard makes a block that refers to any beacon height between the one it has read and the current one.
  predicate ShardStep(setup: Setup, sys: System, sys': System, s: Shard, height: nat) {
    && s in sys.shards
    && var n := sys.shards[s];
    && n.beaconHeight <= height <= |sys.beaconChain|
    && var blocks := sys.beaconChain[n.beaconHeight..height];
    && var block := NewBlock(n.lists, blocks, height, s, setup.size);
    && block.Ok?
    && var lists := UpdateShard(n.lists, blocks, block.value, s, setup.size);
    && lists.Ok?
    && sys' == sys.(shards := sys.shards[s := Node(lists.value, height, n.chain + [block.value], n.accepted,
                                                   n.history + [lists.value.committee])])
  }

  predicate Takes(sys: System, take: map<Shard, nat>) {
    forall s :: s in take ==> s in sys.shards && sys.shards[s].accepted + take[s] <= |sys.shards[s].chain|
  }

  // The swaps of the next shard blocks, as the beacon producer collects them.
  function Delivered(sys: System, take: map<Shard, nat>): (m: map<Shard, seq<Instruction>>)
    requires Takes(sys, take)
  {
    map s | s in take :: SwapsIn(sys.shards[s].chain[sys.shards[s].accepted..sys.shards[s].accepted + take[s]], s)
  }

  function Advance(sys: System, take: map<Shard, nat>): (m: map<Shard, Node>) {
    map s | s in sys.shards ::
      if s in take then sys.shards[s].(accepted := sys.shards[s].accepted + take[s]) else sys.shards[s]
  }

  // The beacon makes a block that includes the next take[s] blocks of each shard s.
  ghost predicate BeaconStep(setup: Setup, sys: System, sys': System, take: map<Shard, nat>, insts: seq<Instruction>,
                             stakes: seq<Key>, nonce: int, shuffled: seq<Key>) {
    && Takes(sys, take)
    && var height := |sys.beaconChain| + 1;
    && Produced(sys.beacon, height, insts, Delivered(sys, take), stakes, setup.beaconSize, nonce, setup.shardOf)
    && var next := Update(sys.beacon, height, insts, shuffled, setup.shardOf);
    && next.Ok?
    && sys' == System(next.value, sys.beaconChain + [insts], Advance(sys, take))
  }

  // ---------------------------------------------------------------------------------------------
  // The invariant: both sides are windows on one queue
  // ---------------------------------------------------------------------------------------------

  // The genesis committee of shard s followed by all candidates ever assigned to it.
  function Queue(setup: Setup, chain: seq<seq<Instruction>>, s: Shard): (q: seq<Key>) {
    Get(setup.genesis, s) + AssignedIn(chain, s)
  }

  predicate IsWindow(l: Lists, q: seq<Key>, start: nat, size: nat) {
    start + size <= |q| && l.committee == q[start..start + size] && l.pending == q[start + size..]
  }

  // The swap that moves the window from position j.
  function SwapAt(q: seq<Key>, j: nat, size: nat, s: Shard): (i: Instruction)
    requires j + size < |q|
  {
    SwapShard([q[j + size]], [q[j]], s)
  }

  predicate SwapsFrom(swaps: seq<Instruction>, q: seq<Key>, start: nat, size: nat, s: Shard) {
    start + |swaps| + size <= |q| && forall j :: 0 <= j < |swaps| ==> swaps[j] == SwapAt(q, start + j, size, s)
  }

  function BeaconLists(b: Beacon, s: Shard): (l: Lists) { Lists(Get(b.pending, s), Get(b.committee, s)) }

  predicate HistoryOk(n: Node, q: seq<Key>, size: nat, s: Shard) {
    && |n.history| == |n.chain| + 1
    && forall i {:trigger n.history[i]} :: 0 <= i <= |n.chain| ==>
         |SwapsIn(n.chain[..i], s)| + size <= |q| &&
         n.history[i] == q[|SwapsIn(n.chain[..i], s)|..|SwapsIn(n.chain[..i], s)| + size]
  }

  predicate NodeInv(setup: Setup, sys: System, s: Shard)
    requires s in sys.shards
  {
    && ShardSide(setup, sys.beaconChain, sys.shards[s], s)
    && BeaconSide(setup, sys.beacon, sys.beaconChain, sys.shards[s], s)
  }

  // The shard: a window on the queue it has read, moved by its swaps, and its history.
  predicate ShardSide(setup: Setup, c: seq<seq<Instruction>>, n: Node, s: Shard) {
    var q := Queue(setup, c, s);
    && n.beaconHeight <= |c|
    && SwapsFrom(SwapsIn(n.chain, s), q, 0, setup.size, s)
    && IsWindow(n.lists, Queue(setup, c[..n.beaconHeight], s), |SwapsIn(n.chain, s)|, setup.size)
    && HistoryOk(n, q, setup.size, s)
  }

  // The beacon: a window on the whole queue, moved by the swaps of the blocks it has included.
  predicate BeaconSide(setup: Setup, b: Beacon, c: seq<seq<Instruction>>, n: Node, s: Shard) {
    && n.accepted <= |n.chain|
    && IsWindow(BeaconLists(b, s), Queue(setup, c, s), |SwapsIn(n.chain[..n.accepted], s)|, setup.size)
  }

  predicate Inv(setup: Setup, sys: System) {
    && setup.size >= 1
    && |sys.beacon.beaconCommittee| <= setup.beaconSize
    && sys.beacon.height == |sys.beaconChain| >= 1
    && forall s :: s in sys.shards ==> NodeInv(setup, sys, s)
  }

  // ---------------------------------------------------------------------------------------------
  // Lists and windows
  // ---------------------------------------------------------------------------------------------

  lemma SwapsOneMore(chain: seq<seq<Instruction>>, block: seq<Instruction>, s: Shard)
    ensures SwapsIn(chain + [block], s) == SwapsIn(chain, s) + SwapsOf(block, s)
  {
    assert (chain + [block])[..|chain|] == chain;
  }

  lemma {:induction false} SwapsAppend(a: seq<seq<Instruction>>, b: seq<seq<Instruction>>, s: Shard)
    ensures SwapsIn(a + b, s) == SwapsIn(a, s) + SwapsIn(b, s)
  {
    if b == [] {
      assert a + b == a;
    } else {
      var front, last := b[..|b| - 1], b[|b| - 1];
      SwapsAppend(a, front, s);
      SwapsAppendLast(a, front, last, s);
      assert b == front + [last];
    }
  }

  lemma SwapsAppendLast(a: seq<seq<Instruction>>, b: seq<seq<Instruction>>, last: seq<Instruction>, s: Shard)
    requires SwapsIn(a + b, s) == SwapsIn(a, s) + SwapsIn(b, s)
    ensures SwapsIn(a + (b + [last]), s) == SwapsIn(a, s) + SwapsIn(b + [last], s)
  {
    var t := SwapsOf(last, s);
    calc {
      SwapsIn(a + (b + [last]), s);
      { assert a + (b + [last]) == (a + b) + [last]; }
      SwapsIn((a + b) + [last], s);
      { SwapsOneMore(a + b, last, s); }
      SwapsIn(a + b, s) + t;
      { assert (SwapsIn(a, s) + SwapsIn(b, s)) + t == SwapsIn(a, s) + (SwapsIn(b, s) + t); }
      SwapsIn(a, s) + (SwapsIn(b, s) + t);
      { SwapsOneMore(b, last, s); }
      SwapsIn(a, s) + SwapsIn(b + [last], s);
    }
  }

  lemma QueueAppend(setup: Setup, a: seq<seq<Instruction>>, b: seq<seq<Instruction>>, s: Shard)
    ensures Queue(setup, a + b, s) == Queue(setup, a, s) + AssignedIn(b, s)
  {
    AssignedAppend(a, b, s);
  }

  lemma WindowGrows(l: Lists, q: seq<Key>, more: seq<Key>, start: nat, size: nat)
    requires IsWindow(l, q, start, size)
    ensures IsWindow(l.(pending := l.pending + more), q + more, start, size)
  {
  }

  lemma SwapsStay(swaps: seq<Instruction>, q: seq<Key>, more: seq<Key>, start: nat, size: nat, s: Shard)
    requires SwapsFrom(swaps, q, start, size, s)
    ensures SwapsFrom(swaps, q + more, start, size, s)
  {
  }

  // With a full committee and somebody pending, a swap moves the window by one.
  lemma SwapMoves(l: Lists, q: seq<Key>, start: nat, size: nat)
    requires IsWindow(l, q, start, size) && size >= 1 && l.pending != []
    ensures start + size < |q|
    ensures Swap(l.pending, l.committee, size, OFFSET)
            == Returns(q[start + 1 + size..], q[start + 1..start + 1 + size], [q[start]], [q[start + size]], Fine)
  {
    SlidingSwap(l.pending, l.committee, size, 1, 1, l.pending, l.committee);
    assert l.pending[1..] == q[start + 1 + size..];
    assert l.committee[1..] + l.pending[..1] == q[start + 1..start + 1 + size];
    assert l.committee[..1] == [q[start]] && l.pending[..1] == [q[start + size]];
  }

  lemma ReplayMoves(l: Lists, q: seq<Key>, start: nat, size: nat, s: Shard)
    requires IsWindow(l, q, start, size) && size >= 1 && start + size < |q|
    ensures var i := SwapAt(q, start, size, s);
            ReplaySwap(l.pending, l.committee, i.incoming, i.out)
            == Replayed(q[start + 1 + size..], q[start + 1..start + 1 + size])
  {
    assert l.pending != [];
    SwapMoves(l, q, start, size);
    ReplayMatchesSwap(l.pending, l.committee, size);
  }

  /** Replaying the next swaps of the queue moves the window along, without any refusal. */
  lemma {:induction false} ReplayWindow(l: Lists, q: seq<Key>, start: nat, size: nat, s: Shard, swaps: seq<Instruction>)
    requires IsWindow(l, q, start, size) && size >= 1 && SwapsFrom(swaps, q, start, size, s)
    ensures ReplayAll(l.pending, l.committee, swaps)
            == Replayed(q[start + |swaps| + size..], q[start + |swaps|..start + |swaps| + size])
  {
    if swaps != [] {
      var front, last := swaps[..|swaps| - 1], swaps[|swaps| - 1];
      ReplayWindow(l, q, start, size, s, front);
      var m := start + |front|;
      var mid := Lists(q[m + size..], q[m..m + size]);
      assert last == SwapAt(q, m, size, s);
      ReplayMoves(mid, q, m, size, s);
    }
  }

  // ---------------------------------------------------------------------------------------------
  // A shard's block
  // ---------------------------------------------------------------------------------------------

  lemma QueueSplit(setup: Setup, c: seq<seq<Instruction>>, h: nat, height: nat, s: Shard)
    requires h <= height <= |c|
    ensures Queue(setup, c[..height], s) == Queue(setup, c[..h], s) + AssignedIn(c[h..height], s)
  {
    assert c[..height] == c[..h] + c[h..height];
    QueueAppend(setup, c[..h], c[h..height], s);
  }

  lemma QueuePrefix(setup: Setup, c: seq<seq<Instruction>>, height: nat, s: Shard)
    requires height <= |c|
    ensures Queue(setup, c[..height], s) <= Queue(setup, c, s)
  {
    QueueSplit(setup, c, height, |c|, s);
    assert c[..|c|] == c;
  }

  // The lists of a shard once it has read the beacon blocks up to a height: a window on the queue of that height.
  function Reading(n: Node, c: seq<seq<Instruction>>, s: Shard, height: nat): (l: Lists)
    requires n.beaconHeight <= height <= |c|
  {
    n.lists.(pending := n.lists.pending + AssignedIn(c[n.beaconHeight..height], s))
  }

  lemma ReadWindow(setup: Setup, sys: System, s: Shard, height: nat)
    requires Inv(setup, sys) && s in sys.shards && sys.shards[s].beaconHeight <= height <= |sys.beaconChain|
    ensures var n := sys.shards[s];
            IsWindow(Reading(n, sys.beaconChain, s, height), Queue(setup, sys.beaconChain[..height], s),
                     |SwapsIn(n.chain, s)|, setup.size)
  {
    var n, c := sys.shards[s], sys.beaconChain;
    assert NodeInv(setup, sys, s);
    QueueSplit(setup, c, n.beaconHeight, height, s);
    WindowGrows(n.lists, Queue(setup, c[..n.beaconHeight], s), AssignedIn(c[n.beaconHeight..height], s),
                |SwapsIn(n.chain, s)|, setup.size);
  }

  // The block and the lists after it, from the lists read.
  predicate Moves(block: Outcome<seq<Instruction>>, lists: Outcome<Lists>, q: seq<Key>, start: nat, size: nat,
                  s: Shard) {
    && block.Ok? && lists.Ok?
    && (if block.value == [] then IsWindow(lists.value, q, start, size)
        else start + size < |q| && block.value == [SwapAt(q, start, size, s)] &&
             IsWindow(lists.value, q, start + 1, size))
  }

  lemma BlockMoves(l: Lists, blocks: seq<seq<Instruction>>, height: nat, s: Shard, size: nat, q: seq<Key>, start: nat)
    requires size >= 1 && IsWindow(l.(pending := l.pending + AssignedIn(blocks, s)), q, start, size)
    ensures var block := NewBlock(l, blocks, height, s, size);
            block.Ok? && Moves(block, UpdateShard(l, blocks, block.value, s, size), q, start, size, s)
  {
    var read := l.(pending := l.pending + AssignedIn(blocks, s));
    if height % EPOCH == 0 && read.pending != [] {
      SwapMoves(read, q, start, size);
      OneSwap(read, SwapAt(q, start, size, s), size);
    }
  }

  lemma OneSwap(l: Lists, i: Instruction, size: nat)
    ensures SwapEach(l, [i], size) == SwapOnce(l, i, size)
  {
    assert [i][..0] == [];
  }

  lemma ShardBlockMoves(setup: Setup, sys: System, s: Shard, height: nat)
    requires Inv(setup, sys) && s in sys.shards && sys.shards[s].beaconHeight <= height <= |sys.beaconChain|
    ensures var n := sys.shards[s];
            var blocks := sys.beaconChain[n.beaconHeight..height];
            var block := NewBlock(n.lists, blocks, height, s, setup.size);
            block.Ok? && Moves(block, UpdateShard(n.lists, blocks, block.value, s, setup.size),
                               Queue(setup, sys.beaconChain[..height], s), |SwapsIn(n.chain, s)|, setup.size, s)
  {
    var n := sys.shards[s];
    ReadWindow(setup, sys, s, height);
    BlockMoves(n.lists, sys.beaconChain[n.beaconHeight..height], height, s, setup.size,
               Queue(setup, sys.beaconChain[..height], s), |SwapsIn(n.chain, s)|);
  }

  /** In every state of the invariant a shard can make a block for any height, and its own Update accepts it. */
  lemma ShardNeverStuck(setup: Setup, sys: System, s: Shard, height: nat)
    requires Inv(setup, sys) && s in sys.shards && sys.shards[s].beaconHeight <= height <= |sys.beaconChain|
    ensures exists sys' :: ShardStep(setup, sys, sys', s, height)
  {
    ShardBlockMoves(setup, sys, s, height);
    var n := sys.shards[s];
    var blocks := sys.beaconChain[n.beaconHeight..height];
    var block := NewBlock(n.lists, blocks, height, s, setup.size).value;
    var lists := UpdateShard(n.lists, blocks, block, s, setup.size).value;
    assert ShardStep(setup, sys,
                     sys.(shards := sys.shards[s := Node(lists, height, n.chain + [block], n.accepted,
                                                         n.history + [lists.committee])]),
                     s, height);
  }

  lemma OneBlockSwaps(block: seq<Instruction>, s: Shard)
    requires block == [] || (|block| == 1 && block[0].SwapShard? && block[0].shard == s)
    ensures SwapsIn([block], s) == block
  {
    assert SwapsIn([block], s) == SwapsIn([block][..0], s) + SwapsOf(block, s);
    if block != [] {
      OnlySwaps(block, s, ShardSwaps(s));
    }
  }

  lemma HistoryExtends(n: Node, n': Node, block: seq<Instruction>, q: seq<Key>, size: nat, s: Shard)
    requires HistoryOk(n, q, size, s) && n'.chain == n.chain + [block]
    requires |SwapsIn(n'.chain, s)| + size <= |q|
    requires n'.history == n.history + [q[|SwapsIn(n'.chain, s)|..|SwapsIn(n'.chain, s)| + size]]
    ensures HistoryOk(n', q, size, s)
  {
    forall i | 0 <= i <= |n'.chain|
      ensures |SwapsIn(n'.chain[..i], s)| + size <= |q| &&
              n'.history[i] == q[|SwapsIn(n'.chain[..i], s)|..|SwapsIn(n'.chain[..i], s)| + size]
    {
      PrefixOf(n.chain, block, i);
      assert i <= |n.chain| ==> n'.history[i] == n.history[i];
    }
  }

  lemma PrefixOf(chain: seq<seq<Instruction>>, block: seq<Instruction>, i: nat)
    requires i <= |chain| + 1
    ensures (chain + [block])[..i] == if i <= |chain| then chain[..i] else chain + [block]
  {
  }

  // One more swap, taken from an older state of the queue.
  lemma SwapsExtend(swaps: seq<Instruction>, block: seq<Instruction>, q: seq<Key>, qh: seq<Key>, size: nat, s: Shard)
    requires SwapsFrom(swaps, q, 0, size, s) && qh <= q
    requires block == [] || (|swaps| + size < |qh| && block == [SwapAt(qh, |swaps|, size, s)])
    ensures SwapsFrom(swaps + block, q, 0, size, s)
  {
    assert forall k :: 0 <= k < |qh| ==> qh[k] == q[k];
  }

  lemma WindowInPrefix(l: Lists, q: seq<Key>, qh: seq<Key>, start: nat, size: nat)
    requires IsWindow(l, qh, start, size) && qh <= q
    ensures start + size <= |q| && l.committee == q[start..start + size]
  {
    assert q[..|qh|] == qh;
  }

  // A longer chain whose last block moved the window of an older queue.
  lemma ChainMoves(n: Node, block: seq<Instruction>, lists: Lists, q: seq<Key>, qh: seq<Key>, size: nat, s: Shard)
    requires SwapsFrom(SwapsIn(n.chain, s), q, 0, size, s) && qh <= q
    requires Moves(Ok(block), Ok(lists), qh, |SwapsIn(n.chain, s)|, size, s)
    ensures SwapsFrom(SwapsIn(n.chain + [block], s), q, 0, size, s)
    ensures IsWindow(lists, qh, |SwapsIn(n.chain + [block], s)|, size)
    ensures var start := |SwapsIn(n.chain + [block], s)|;
            start + size <= |q| && lists.committee == q[start..start + size]
  {
    var swaps := SwapsIn(n.chain, s);
    assert SwapsIn(n.chain + [block], s) == swaps + block by {
      OneBlockSwaps(block, s);
      SwapsAppend(n.chain, [block], s);
    }
    SwapsExtend(swaps, block, q, qh, size, s);
    WindowInPrefix(lists, q, qh, |swaps + block|, size);
  }

  lemma ShardStepNode(setup: Setup, sys: System, sys': System, s: Shard, height: nat)
    requires Inv(setup, sys) && ShardStep(setup, sys, sys', s, height)
    ensures NodeInv(setup, sys', s)
  {
    assert NodeInv(setup, sys, s);
    var n, n' := sys.shards[s], sys'.shards[s];
    var block := n'.chain[|n.chain|];
    assert n'.chain == n.chain + [block];
    assert n'.chain[..n.accepted] == n.chain[..n.accepted];
    ShardBlockMoves(setup, sys, s, height);
    ShardSideMoves(setup, sys.beaconChain, n, n', block, s, height);
  }

  lemma ShardSideMoves(setup: Setup, c: seq<seq<Instruction>>, n: Node, n': Node, block: seq<Instruction>, s: Shard,
                       height: nat)
    requires ShardSide(setup, c, n, s) && height <= |c|
    requires Moves(Ok(block), Ok(n'.lists), Queue(setup, c[..height], s), |SwapsIn(n.chain, s)|, setup.size, s)
    requires n' == Node(n'.lists, height, n.chain + [block], n.accepted, n.history + [n'.lists.committee])
    ensures ShardSide(setup, c, n', s)
  {
    var q := Queue(setup, c, s);
    QueuePrefix(setup, c, height, s);
    ChainMoves(n, block, n'.lists, q, Queue(setup, c[..height], s), setup.size, s);
    HistoryExtends(n, n', block, q, setup.size, s);
  }

  lemma ShardStepInv(setup: Setup, sys: System, sys': System, s: Shard, height: nat)
    requires Inv(setup, sys) && ShardStep(setup, sys, sys', s, height)
    ensures Inv(setup, sys')
  {
    forall t | t in sys'.shards ensures NodeInv(setup, sys', t) {
      if t == s {
        ShardStepNode(setup, sys, sys', s, height);
      } else {
        assert NodeInv(setup, sys, t);
      }
    }
  }

  // ---------------------------------------------------------------------------------------------
  // A beacon block
  // ---------------------------------------------------------------------------------------------

  // The swaps of the blocks that the beacon includes next are the next swaps of the queue.
  lemma NextSwaps(n: Node, q: seq<Key>, size: nat, s: Shard, k: nat)
    requires SwapsFrom(SwapsIn(n.chain, s), q, 0, size, s) && n.accepted + k <= |n.chain|
    ensures SwapsFrom(SwapsIn(n.chain[n.accepted..n.accepted + k], s), q, |SwapsIn(n.chain[..n.accepted], s)|, size, s)
    ensures |SwapsIn(n.chain[..n.accepted + k], s)|
            == |SwapsIn(n.chain[..n.accepted], s)| + |SwapsIn(n.chain[n.accepted..n.accepted + k], s)|
  {
    var a, b, c := n.chain[..n.accepted], n.chain[n.accepted..n.accepted + k], n.chain[n.accepted + k..];
    assert n.chain[..n.accepted + k] == a + b && n.chain == (a + b) + c;
    SwapsAppend(a, b, s);
    SwapsAppend(a + b, c, s);
    SwapsInMiddle(SwapsIn(a, s), SwapsIn(b, s), SwapsIn(c, s), q, size, s);
  }

  lemma SwapsInMiddle(a: seq<Instruction>, b: seq<Instruction>, c: seq<Instruction>, q: seq<Key>, size: nat, s: Shard)
    requires SwapsFrom(a + b + c, q, 0, size, s)
    ensures SwapsFrom(b, q, |a|, size, s)
  {
    forall j | 0 <= j < |b| ensures b[j] == SwapAt(q, |a| + j, size, s) {
      assert (a + b + c)[|a| + j] == b[j];
    }
  }

  // A replay that ends in a window on the queue.
  predicate ReplaysTo(r: Replay, q: seq<Key>, start: nat, size: nat) {
    start + size <= |q| && r == Replayed(q[start + size..], q[start..start + size])
  }

  // Where the beacon's window of a shard stands after k more of its blocks.
  lemma ReplayBlocks(n: Node, l: Lists, q: seq<Key>, size: nat, s: Shard, k: nat)
    requires size >= 1 && SwapsFrom(SwapsIn(n.chain, s), q, 0, size, s) && n.accepted + k <= |n.chain|
    requires IsWindow(l, q, |SwapsIn(n.chain[..n.accepted], s)|, size)
    ensures ReplaysTo(ReplayAll(l.pending, l.committee, SwapsIn(n.chain[n.accepted..n.accepted + k], s)), q,
                      |SwapsIn(n.chain[..n.accepted + k], s)|, size)
  {
    NextSwaps(n, q, size, s, k);
    ReplayWindow(l, q, |SwapsIn(n.chain[..n.accepted], s)|, size, s, SwapsIn(n.chain[n.accepted..n.accepted + k], s));
  }

  function Taken(take: map<Shard, nat>, s: Shard): (k: nat) { if s in take then take[s] else 0 }

  lemma DeliveredAt(sys: System, take: map<Shard, nat>, s: Shard)
    requires Takes(sys, take) && s in sys.shards && sys.shards[s].accepted <= |sys.shards[s].chain|
    ensures var n := sys.shards[s];
            && n.accepted + Taken(take, s) <= |n.chain|
            && SwapsAt(Delivered(sys, take), s) == SwapsIn(n.chain[n.accepted..n.accepted + Taken(take, s)], s)
            && Advance(sys, take)[s] == n.(accepted := n.accepted + Taken(take, s))
  {
    var n := sys.shards[s];
    assert s !in take ==> n.chain[n.accepted..n.accepted] == [];
  }

  // The beacon's window of one shard, moved by the swaps of k more blocks.
  lemma ReplayAhead(setup: Setup, b: Beacon, c: seq<seq<Instruction>>, n: Node, n': Node, s: Shard, k: nat,
                    swaps: seq<Instruction>)
    requires setup.size >= 1 && ShardSide(setup, c, n, s) && BeaconSide(setup, b, c, n, s)
    requires n.accepted + k <= |n.chain| && n' == n.(accepted := n.accepted + k)
    requires swaps == SwapsIn(n.chain[n.accepted..n.accepted + k], s)
    ensures Replays(setup, b, c, n', s, swaps)
  {
    ReplayBlocks(n, BeaconLists(b, s), Queue(setup, c, s), setup.size, s, k);
  }

  predicate Replays(setup: Setup, b: Beacon, c: seq<seq<Instruction>>, n': Node, s: Shard, swaps: seq<Instruction>) {
    && n'.accepted <= |n'.chain|
    && ReplaysTo(ReplayAll(Get(b.pending, s), Get(b.committee, s), swaps), Queue(setup, c, s),
                 |SwapsIn(n'.chain[..n'.accepted], s)|, setup.size)
  }

  lemma ReplayDelivered(setup: Setup, sys: System, take: map<Shard, nat>, s: Shard)
    requires setup.size >= 1 && Takes(sys, take) && s in sys.shards
    requires ShardSide(setup, sys.beaconChain, sys.shards[s], s)
    requires BeaconSide(setup, sys.beacon, sys.beaconChain, sys.shards[s], s)
    ensures Replays(setup, sys.beacon, sys.beaconChain, Advance(sys, take)[s], s, SwapsAt(Delivered(sys, take), s))
  {
    DeliveredAt(sys, take, s);
    ReplayAhead(setup, sys.beacon, sys.beaconChain, sys.shards[s], Advance(sys, take)[s], s, Taken(take, s),
                SwapsAt(Delivered(sys, take), s));
  }

  lemma OwnSwapReplays(b: Beacon, height: nat, size: nat)
    requires |b.beaconCommittee| <= size
    ensures ReplayAll(b.beaconPending, b.beaconCommittee, OwnSwap(b, height, size)).Replayed?
    ensures |ReplayAll(b.beaconPending, b.beaconCommittee, OwnSwap(b, height, size)).committee| <= size
  {
    var l := OwnSwap(b, height, size);
    if l != [] {
      ReplayMatchesSwap(b.beaconPending, b.beaconCommittee, size);
      SwapConserves(b.beaconPending, b.beaconCommittee, size, OFFSET);
      ReplayOneMore(b.beaconPending, b.beaconCommittee, [], l[0]);
      assert l == [] + [l[0]];
    }
  }

  lemma ShardReplays(setup: Setup, sys: System, take: map<Shard, nat>, s: Shard)
    requires Inv(setup, sys) && Takes(sys, take)
    ensures ReplayAll(Get(sys.beacon.pending, s), Get(sys.beacon.committee, s),
                      SwapsAt(Delivered(sys, take), s)).Replayed?
  {
    if s in sys.shards {
      assert NodeInv(setup, sys, s);
      ReplayDelivered(setup, sys, take, s);
    }
  }

  ghost predicate AllReplay(b: Beacon, swaps: map<Shard, seq<Instruction>>) {
    forall s :: ReplayAll(Get(b.pending, s), Get(b.committee, s), SwapsAt(swaps, s)).Replayed?
  }

  lemma DeliveredReplays(setup: Setup, sys: System, take: map<Shard, nat>)
    requires Inv(setup, sys) && Takes(sys, take)
    ensures AllReplay(sys.beacon, Delivered(sys, take))
  {
    var b, swaps := sys.beacon, Delivered(sys, take);
    forall s ensures ReplayAll(Get(b.pending, s), Get(b.committee, s), SwapsAt(swaps, s)).Replayed? {
      ShardReplays(setup, sys, take, s);
    }
  }

  lemma ProducedReplays(b: Beacon, height: nat, insts: seq<Instruction>, swaps: map<Shard, seq<Instruction>>,
                        stakes: seq<Key>, size: nat, nonce: int, shardOf: ShardOf)
    requires Produced(b, height, insts, swaps, stakes, size, nonce, shardOf) && |b.beaconCommittee| <= size
    requires AllReplay(b, swaps)
    ensures SidesOk(Begin(b, height), insts)
  {
    OwnSwapReplays(b, height, size);
    forall s ensures ReplayAll(Get(b.pending, s), Get(b.committee, s), SwapsOf(insts, s)).Replayed? {
      assert SwapsOf(insts, s) == SwapsAt(swaps, s);
    }
  }

  lemma SidesUpdate(b: Beacon, height: nat, insts: seq<Instruction>, shuffled: seq<Key>, shardOf: ShardOf)
    requires SidesOk(Begin(b, height), insts) && height != 1
    ensures Update(b, height, insts, shuffled, shardOf).Ok?
  {
    ApplyBySides(Begin(b, height), insts);
  }

  lemma ProducedAccepted(b: Beacon, height: nat, insts: seq<Instruction>, swaps: map<Shard, seq<Instruction>>,
                         stakes: seq<Key>, size: nat, nonce: int, shuffled: seq<Key>, shardOf: ShardOf)
    requires Produced(b, height, insts, swaps, stakes, size, nonce, shardOf) && |b.beaconCommittee| <= size
    requires AllReplay(b, swaps) && height != 1
    ensures Update(b, height, insts, shuffled, shardOf).Ok?
  {
    ProducedReplays(b, height, insts, swaps, stakes, size, nonce, shardOf);
    SidesUpdate(b, height, insts, shuffled, shardOf);
  }

  /** In every state of the invariant the beacon accepts each block its producer can build: no swap that a shard
      reported is refused. */
  lemma BeaconNeverStuck(setup: Setup, sys: System, take: map<Shard, nat>, insts: seq<Instruction>, stakes: seq<Key>,
                         nonce: int, shuffled: seq<Key>)
    requires Inv(setup, sys) && Takes(sys, take)
    requires Produced(sys.beacon, |sys.beaconChain| + 1, insts, Delivered(sys, take), stakes, setup.beaconSize, nonce,
                      setup.shardOf)
    ensures Update(sys.beacon, |sys.beaconChain| + 1, insts, shuffled, setup.shardOf).Ok?
  {
    DeliveredReplays(setup, sys, take);
    ProducedAccepted(sys.beacon, |sys.beaconChain| + 1, insts, Delivered(sys, take), stakes, setup.beaconSize, nonce,
                     shuffled, setup.shardOf);
  }

  // The end of Update adds the assigned candidates and moves no other key of a shard.
  lemma FinishLists(f: Fold, shuffled: seq<Key>, shardOf: ShardOf, s: Shard)
    ensures var slot, b := f.beacon.height % EPOCH, Finish(f, shuffled, shardOf);
            && b.height == f.beacon.height && b.beaconCommittee == f.beacon.beaconCommittee
            && Get(b.committee, s) == Get(f.beacon.committee, s)
            && (slot > RANDOM_TIME ==>
                  Get(b.pending, s) == Get(f.beacon.pending, s) +
                    (if f.random then ForShard(f.beacon.currentRandom, f.beacon.random, s, shardOf) else []))
            && (!f.random ==> Get(b.pending, s) == Get(f.beacon.pending, s))
  {
    AssignBySides(f.beacon.pending, f.beacon.currentRandom, f.beacon.random, shardOf, s);
  }

  // An accepted block acts on shard s through its swaps and the keys it assigns.
  lemma UpdateBySides(b: Beacon, height: nat, insts: seq<Instruction>, swaps: map<Shard, seq<Instruction>>,
                      stakes: seq<Key>, size: nat, nonce: int, shuffled: seq<Key>, shardOf: ShardOf, s: Shard)
    requires Produced(b, height, insts, swaps, stakes, size, nonce, shardOf)
    requires height != 1 && ApplyAll(Begin(b, height), insts).Ok?
    ensures var r := Update(b, height, insts, shuffled, shardOf).value;
            var replay := ReplayAll(Get(b.pending, s), Get(b.committee, s), SwapsAt(swaps, s));
            && replay.Replayed? && BeaconLists(r, s) == Lists(replay.pending + AssignedTo(insts, s), replay.committee)
  {
    var f := Begin(b, height);
    AcceptedBySides(f, insts);
    var g := ApplyAll(f, insts).value;
    assert ShardSides(f, g, insts) && OtherSides(f, g, insts);
    assert SwapsOf(insts, s) == SwapsAt(swaps, s);
    FinishLists(g, shuffled, shardOf, s);
    assert g.random <==> RandomDue(b, height);
  }

  lemma UpdateOwn(b: Beacon, b': Beacon, height: nat, insts: seq<Instruction>, shuffled: seq<Key>, shardOf: ShardOf,
                  size: nat)
    requires |b.beaconCommittee| <= size && BeaconSwaps(insts) == OwnSwap(b, height, size)
    requires height != 1 && Update(b, height, insts, shuffled, shardOf) == Ok(b')
    ensures |b'.beaconCommittee| <= size && b'.height == height
  {
    var f := Begin(b, height);
    AcceptedBySides(f, insts);
    OwnSwapReplays(b, height, size);
    FinishLists(ApplyAll(f, insts).value, shuffled, shardOf, 0);
  }

  lemma ShardSideGrows(setup: Setup, c: seq<seq<Instruction>>, insts: seq<Instruction>, n: Node, n': Node, s: Shard)
    requires ShardSide(setup, c, n, s) && n' == n.(accepted := n'.accepted)
    ensures ShardSide(setup, c + [insts], n', s)
    ensures Queue(setup, c + [insts], s) == Queue(setup, c, s) + AssignedTo(insts, s)
  {
    var q, more := Queue(setup, c, s), AssignedTo(insts, s);
    QueueAppend(setup, c, [insts], s);
    assert AssignedIn([insts], s) == AssignedIn([insts][..0], s) + more;
    assert AssignedIn([insts], s) == more;
    SwapsStay(SwapsIn(n.chain, s), q, more, 0, setup.size, s);
    assert (c + [insts])[..n.beaconHeight] == c[..n.beaconHeight];
    HistoryStays(n, n', q, more, setup.size, s);
  }

  lemma HistoryStays(n: Node, n': Node, q: seq<Key>, more: seq<Key>, size: nat, s: Shard)
    requires HistoryOk(n, q, size, s) && n'.chain == n.chain && n'.history == n.history
    ensures HistoryOk(n', q + more, size, s)
  {
    forall i | 0 <= i <= |n'.chain|
      ensures |SwapsIn(n'.chain[..i], s)| + size <= |q + more| &&
              n'.history[i] == (q + more)[|SwapsIn(n'.chain[..i], s)|..|SwapsIn(n'.chain[..i], s)| + size]
    {
      assert n'.history[i] == n.history[i];
      var k := |SwapsIn(n.chain[..i], s)|;
      assert (q + more)[k..k + size] == q[k..k + size];
    }
  }

  lemma BeaconStepNode(setup: Setup, sys: System, sys': System, take: map<Shard, nat>, insts: seq<Instruction>,
                       stakes: seq<Key>, nonce: int, shuffled: seq<Key>, s: Shard)
    requires Inv(setup, sys) && BeaconStep(setup, sys, sys', take, insts, stakes, nonce, shuffled) && s in sys'.shards
    ensures NodeInv(setup, sys', s)
  {
    assert NodeInv(setup, sys, s);
    var n, q := sys'.shards[s], Queue(setup, sys.beaconChain, s);
    DeliveredAt(sys, take, s);
    ShardSideGrows(setup, sys.beaconChain, insts, sys.shards[s], n, s);
    ReplayDelivered(setup, sys, take, s);
    UpdateBySides(sys.beacon, |sys.beaconChain| + 1, insts, Delivered(sys, take), stakes, setup.beaconSize, nonce,
                  shuffled, setup.shardOf, s);
    var start := |SwapsIn(n.chain[..n.accepted], s)|;
    var replay := ReplayAll(Get(sys.beacon.pending, s), Get(sys.beacon.committee, s), SwapsAt(Delivered(sys, take), s));
    WindowGrows(Lists(replay.pending, replay.committee), q, AssignedTo(insts, s), start, setup.size);
  }

  lemma BeaconStepOwn(setup: Setup, sys: System, sys': System, take: map<Shard, nat>, insts: seq<Instruction>,
                      stakes: seq<Key>, nonce: int, shuffled: seq<Key>)
    requires Inv(setup, sys) && BeaconStep(setup, sys, sys', take, insts, stakes, nonce, shuffled)
    ensures |sys'.beacon.beaconCommittee| <= setup.beaconSize && sys'.beacon.height == |sys'.beaconChain| > 1
  {
    UpdateOwn(sys.beacon, sys'.beacon, |sys.beaconChain| + 1, insts, shuffled, setup.shardOf, setup.beaconSize);
  }

  lemma BeaconStepInv(setup: Setup, sys: System, sys': System, take: map<Shard, nat>, insts: seq<Instruction>,
                      stakes: seq<Key>, nonce: int, shuffled: seq<Key>)
    requires Inv(setup, sys) && BeaconStep(setup, sys, sys', take, insts, stakes, nonce, shuffled)
    ensures Inv(setup, sys')
  {
    forall s | s in sys'.shards ensures NodeInv(setup, sys', s) {
      BeaconStepNode(setup, sys, sys', take, insts, stakes, nonce, shuffled, s);
    }
    BeaconStepOwn(setup, sys, sys', take, insts, stakes, nonce, shuffled);
  }

  // ---------------------------------------------------------------------------------------------
  // All interleavings
  // ---------------------------------------------------------------------------------------------

  // Genesis: both sides hold the same full committees and nobody is pending.
  predicate Start(setup: Setup, sys: System) {
    && setup.size >= 1
    && sys.beaconChain == [[]] && sys.beacon.height == 1
    && |sys.beacon.beaconCommittee| <= setup.beaconSize
    && forall s :: s in sys.shards ==>
         && |Get(setup.genesis, s)| == setup.size
         && sys.shards[s] == Node(Lists([], Get(setup.genesis, s)), 1, [], 0, [Get(setup.genesis, s)])
         && BeaconLists(sys.beacon, s) == Lists([], Get(setup.genesis, s))
  }

  // The nodes that shards begin with.
  function FirstNodes(genesis: map<Shard, seq<Key>>, shards: set<Shard>): (m: map<Shard, Node>) {
    map s | s in shards :: Node(Lists([], Get(genesis, s)), 1, [], 0, [Get(genesis, s)])
  }

  /** A genesis block of stakes brings an empty beacon into such a state: its own committee is the first beacon stakes,
      and each shard's committee is full and is that shard's own stretch of the stakes. */
  lemma GenesisStarts(b: Beacon, insts: seq<Instruction>, shuffled: seq<Key>, shardOf: ShardOf, shards: set<Shard>)
    requires b.committee == map[] && b.pending == map[] && b.sizes.shard >= 1
    requires BeaconSwaps(insts) == [] && (forall s :: SwapsOf(insts, s) == [])
    requires Update(b, 1, insts, shuffled, shardOf).Ok? && forall s <- shards :: s < b.sizes.active
    ensures var r, size := Update(b, 1, insts, shuffled, shardOf).value, b.sizes.shard;
            && Start(Setup(r.committee, size, b.sizes.beacon, shardOf),
                     System(r, [[]], FirstNodes(r.committee, shards)))
            && r.beaconCommittee <= BeaconStakedBy(insts) && |r.beaconCommittee| == b.sizes.beacon
            && forall s <- shards ::
                 Get(r.committee, s) == Share(StakedBy(insts), size, s) && size == |Get(r.committee, s)|
  {
    var r := Update(b, 1, insts, shuffled, shardOf).value;
    forall s | s in shards ensures GenesisList(b, insts, r, s) && Full(r, b.sizes, s) {
      GenesisLists(b, insts, shuffled, shardOf, s);
    }
    GenesisLists(b, insts, shuffled, shardOf, 0);
    FullStarts(r, b.sizes, shardOf, shards);
  }

  predicate Full(r: Beacon, sizes: Sizes, s: Shard) { |Get(r.committee, s)| == sizes.shard && Get(r.pending, s) == [] }

  lemma FullStarts(r: Beacon, sizes: Sizes, shardOf: ShardOf, shards: set<Shard>)
    requires sizes.shard >= 1 && r.height == 1 && |r.beaconCommittee| == sizes.beacon
    requires forall s <- shards :: Full(r, sizes, s)
    ensures Start(Setup(r.committee, sizes.shard, sizes.beacon, shardOf),
                  System(r, [[]], FirstNodes(r.committee, shards)))
  {
  }

  lemma GenesisLists(b: Beacon, insts: seq<Instruction>, shuffled: seq<Key>, shardOf: ShardOf, s: Shard)
    requires b.committee == map[] && b.pending == map[] && (forall t :: SwapsOf(insts, t) == [])
    requires Update(b, 1, insts, shuffled, shardOf).Ok?
    ensures var r := Update(b, 1, insts, shuffled, shardOf).value;
            && r.height == 1 && |r.beaconCommittee| == b.sizes.beacon && r.beaconCommittee <= BeaconStakedBy(insts)
            && (s < b.sizes.active ==> GenesisList(b, insts, r, s) && Full(r, b.sizes, s))
  {
    GenesisApplied(b, insts);
    GenesisShares(ApplyAll(Begin(b, 1), insts).value, s);
  }

  // A shard after genesis.
  predicate GenesisList(b: Beacon, insts: seq<Instruction>, r: Beacon, s: Shard) {
    BeaconLists(r, s) == Lists([], Share(StakedBy(insts), b.sizes.shard, s))
  }

  lemma GenesisApplied(b: Beacon, insts: seq<Instruction>)
    requires b.committee == map[] && b.pending == map[] && ApplyAll(Begin(b, 1), insts).Ok?
    requires forall s :: SwapsOf(insts, s) == []
    ensures var g := ApplyAll(Begin(b, 1), insts).value;
            && g.staked == StakedBy(insts) && g.beaconStaked == BeaconStakedBy(insts) && g.beacon.sizes == b.sizes
              && g.beacon.height == 1
            && forall s :: Get(g.beacon.committee, s) == [] && Get(g.beacon.pending, s) == []
  {
    var f := Begin(b, 1);
    AcceptedBySides(f, insts);
    var g := ApplyAll(f, insts).value;
    assert OtherSides(f, g, insts) && ShardSides(f, g, insts);
    forall s ensures Get(g.beacon.committee, s) == [] && Get(g.beacon.pending, s) == [] {
      assert ReplayAll([], [], SwapsOf(insts, s)) == Replayed(Get(g.beacon.pending, s), Get(g.beacon.committee, s));
    }
  }

  ghost predicate Next(setup: Setup, sys: System, sys': System) {
    || (exists s, height :: ShardStep(setup, sys, sys', s, height))
    || (exists take, insts, stakes, nonce, shuffled ::
          BeaconStep(setup, sys, sys', take, insts, stakes, nonce, shuffled))
  }

  ghost predicate Run(setup: Setup, run: seq<System>) {
    run != [] && Start(setup, run[0]) && forall i :: 0 <= i < |run| - 1 ==> Next(setup, run[i], run[i + 1])
  }

  lemma StartInv(setup: Setup, sys: System)
    requires Start(setup, sys)
    ensures Inv(setup, sys)
  {
    forall s | s in sys.shards ensures NodeInv(setup, sys, s) {
      var q := Get(setup.genesis, s);
      var c := sys.beaconChain;
      assert c[..0] == [] && c[..1] == c;
      assert AssignedIn(c, s) == AssignedIn([], s) + AssignedTo([], s) == [];
      assert Queue(setup, c, s) == q;
      assert q[0..setup.size] == q && q[setup.size..] == [];
    }
  }

  lemma {:induction false} RunInv(setup: Setup, run: seq<System>, i: nat)
    requires Run(setup, run) && i < |run|
    ensures Inv(setup, run[i])
  {
    if i == 0 {
      StartInv(setup, run[0]);
    } else {
      RunInv(setup, run, i - 1);
      var sys, sys' := run[i - 1], run[i];
      assert Next(setup, run[i - 1], run[i - 1 + 1]);
      if s, height :| ShardStep(setup, sys, sys', s, height) {
        ShardStepInv(setup, sys, sys', s, height);
      } else {
        var take, insts, stakes, nonce, shuffled :| BeaconStep(setup, sys, sys', take, insts, stakes, nonce, shuffled);
        BeaconStepInv(setup, sys, sys', take, insts, stakes, nonce, shuffled);
      }
    }
  }

  /** In every state of every interleaving, the beacon's committee of a shard is the committee that the shard had
      right after the last of its blocks that the beacon has included; both are windows on one queue, and the shard
      is never behind. */
  lemma Agreement(setup: Setup, run: seq<System>, i: nat, s: Shard)
    requires Run(setup, run) && i < |run| && s in run[i].shards
    ensures var sys := run[i];
            var n := sys.shards[s];
            var q := Queue(setup, sys.beaconChain, s);
            && n.accepted <= |n.chain|
            && var b, m := |SwapsIn(n.chain[..n.accepted], s)|, |SwapsIn(n.chain, s)|;
            && n.accepted < |n.history| && Get(sys.beacon.committee, s) == n.history[n.accepted]
            && IsWindow(BeaconLists(sys.beacon, s), q, b, setup.size)
            && n.beaconHeight <= |sys.beaconChain|
            && IsWindow(n.lists, Queue(setup, sys.beaconChain[..n.beaconHeight], s), m, setup.size)
            && Queue(setup, sys.beaconChain[..n.beaconHeight], s) <= q
            && b <= m
  {
    RunInv(setup, run, i);
    var sys := run[i];
    var n := sys.shards[s];
    assert NodeInv(setup, sys, s);
    QueuePrefix(setup, sys.beaconChain, n.beaconHeight, s);
    assert HistoryOk(n, Queue(setup, sys.beaconChain, s), setup.size, s);
    FewerSwaps(n.chain, n.accepted, s);
  }

  lemma FewerSwaps(chain: seq<seq<Instruction>>, k: nat, s: Shard)
    requires k <= |chain|
    ensures |SwapsIn(chain[..k], s)| <= |SwapsIn(chain, s)|
  {
    assert chain == chain[..k] + chain[k..];
    MoreSwaps(chain[..k], chain[k..], s);
  }

  lemma MoreSwaps(a: seq<seq<Instruction>>, b: seq<seq<Instruction>>, s: Shard)
    ensures |SwapsIn(a, s)| <= |SwapsIn(a + b, s)|
  {
    SwapsAppend(a, b, s);
  }
}
