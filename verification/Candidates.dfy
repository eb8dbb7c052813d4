// No shard candidate is lost or duplicated by the beacon: over runs of produced blocks the keys that wait for a random
// number, are pending, or sit in a committee change only by new stakes coming in and swapped-out keys leaving.
module Candidates {
  import opened Common
  import opened Committee
  import opened BeaconState
  import opened Instructions
  import opened BeaconProducer

  // How often key k occurs in a list.
  function Count(l: seq<Key>, k: Key): (n: nat) { multiset(l)[k] }

  lemma CountAppend(a: seq<Key>, b: seq<Key>, k: Key)
    ensures Count(a + b, k) == Count(a, k) + Count(b, k)
  {
  }

  // How often k occurs in the lists of the first n shards.
  function Sum(m: map<Shard, seq<Key>>, n: nat, k: Key): (c: nat)
    requires n <= 256
  {
    if n == 0 then 0 else Sum(m, n - 1, k) + Count(Get(m, n - 1), k)
  }

  function Held(pending: map<Shard, seq<Key>>, committee: map<Shard, seq<Key>>, k: Key): (c: nat) {
    Sum(pending, 256, k) + Sum(committee, 256, k)
  }

  // How often k occurs among waiting, pending and serving keys.
  function Total(b: Beacon, k: Key): (c: nat) {
    Count(b.nextRandom, k) + Count(b.currentRandom, k) + Held(b.pending, b.committee, k)
  }

  lemma {:induction false} SumUpdate(m: map<Shard, seq<Key>>, s: Shard, l: seq<Key>, n: nat, k: Key)
    requires n <= 256
    ensures Sum(m[s := l], n, k) == Sum(m, n, k) + (if s < n then Count(l, k) - Count(Get(m, s), k) else 0)
  {
    if n > 0 {
      SumUpdate(m, s, l, n - 1, k);
    }
  }

  lemma AddKey(m: map<Shard, seq<Key>>, s: Shard, key: Key, k: Key)
    ensures Sum(m[s := Get(m, s) + [key]], 256, k) == Sum(m, 256, k) + Count([key], k)
  {
    SumUpdate(m, s, Get(m, s) + [key], 256, k);
    CountAppend(Get(m, s), [key], k);
  }

  /** Assigning candidates adds each of them once. */
  lemma {:induction false} AssignConserves(pending: map<Shard, seq<Key>>, candidates: seq<Key>, random: int,
                                           shardOf: ShardOf, k: Key)
    ensures Sum(AssignAll(pending, candidates, random, shardOf), 256, k) == Sum(pending, 256, k) + Count(candidates, k)
  {
    if candidates != [] {
      var front, last := candidates[..|candidates| - 1], candidates[|candidates| - 1];
      AssignConserves(pending, front, random, shardOf, k);
      AssignLast(pending, front, last, random, shardOf, k);
      assert candidates == front + [last];
    }
  }

  lemma AssignLast(pending: map<Shard, seq<Key>>, front: seq<Key>, last: Key, random: int, shardOf: ShardOf, k: Key)
    requires Sum(AssignAll(pending, front, random, shardOf), 256, k) == Sum(pending, 256, k) + Count(front, k)
    ensures Sum(AssignAll(pending, front + [last], random, shardOf), 256, k)
            == Sum(pending, 256, k) + Count(front + [last], k)
  {
    assert (front + [last])[..|front|] == front;
    AddKey(AssignAll(pending, front, random, shardOf), shardOf(last, random), last, k);
    CountAppend(front, [last], k);
  }

  // ---------------------------------------------------------------------------------------------
  // Swaps
  // ---------------------------------------------------------------------------------------------

  // With an offset of one, a swap names at most one key on either side.
  predicate ShortSwap(i: Instruction) { i.SwapShard? ==> |i.incoming| <= 1 && |i.out| <= 1 }

  predicate ShortSwaps(insts: seq<Instruction>) { forall i :: 0 <= i < |insts| ==> ShortSwap(insts[i]) }

  function LeavingAt(i: Instruction, k: Key): (c: nat) { if i.SwapShard? then Count(i.out, k) else 0 }

  // How often k is swapped out of a shard committee.
  function Leaving(insts: seq<Instruction>, k: Key): (c: nat) {
    if insts == [] then 0 else Leaving(insts[..|insts| - 1], k) + LeavingAt(insts[|insts| - 1], k)
  }

  lemma RemoveOne(l: seq<Key>, keys: seq<Key>, k: Key)
    requires |keys| <= 1 && Remove(l, keys).Removed?
    ensures Count(Remove(l, keys).rest, k) + Count(keys, k) == Count(l, k)
  {
    if keys == [] {
      assert l[0..] == l;
    } else {
      assert Matches(l, keys, 0);
      assert l == [l[0]] + l[1..] && keys == [keys[0]];
      CountAppend([l[0]], l[1..], k);
    }
  }

  lemma ReplayConserves(pending: seq<Key>, committee: seq<Key>, incoming: seq<Key>, out: seq<Key>, k: Key)
    requires |incoming| <= 1 && |out| <= 1 && ReplaySwap(pending, committee, incoming, out).Replayed?
    ensures var r := ReplaySwap(pending, committee, incoming, out);
            Count(r.pending, k) + Count(r.committee, k) + Count(out, k) == Count(pending, k) + Count(committee, k)
  {
    if incoming != [] {
      RemoveOne(pending, incoming, k);
    }
    CountAppend(committee, incoming, k);
    if out != [] {
      RemoveOne(committee + incoming, out, k);
    }
  }

  // What one instruction does to the keys held by the shards.
  lemma ApplyConserves(f: Fold, i: Instruction, k: Key)
    requires ShortSwap(i) && Apply(f, i).Ok?
    ensures var g := Apply(f, i).value;
            Held(g.beacon.pending, g.beacon.committee, k) + LeavingAt(i, k)
              == Held(f.beacon.pending, f.beacon.committee, k)
  {
    if i.SwapShard? {
      var s, p, c := i.shard, f.beacon.pending, f.beacon.committee;
      ReplayConserves(Get(p, s), Get(c, s), i.incoming, i.out, k);
      var r := ReplaySwap(Get(p, s), Get(c, s), i.incoming, i.out);
      SumUpdate(p, s, r.pending, 256, k);
      SumUpdate(c, s, r.committee, 256, k);
    }
  }

  lemma {:induction false} ApplyAllConserves(f: Fold, insts: seq<Instruction>, k: Key)
    requires ShortSwaps(insts) && ApplyAll(f, insts).Ok?
    ensures var g := ApplyAll(f, insts).value;
            Held(g.beacon.pending, g.beacon.committee, k) + Leaving(insts, k)
              == Held(f.beacon.pending, f.beacon.committee, k)
  {
    if insts != [] {
      var front, last := insts[..|insts| - 1], insts[|insts| - 1];
      ApplyAllConserves(f, front, k);
      ApplyConserves(ApplyAll(f, front).value, last, k);
    }
  }

  // ---------------------------------------------------------------------------------------------
  // One block
  // ---------------------------------------------------------------------------------------------

  // The random number comes with the block after the snapshot, so the current list is empty at all other times.
  predicate Phase(b: Beacon) {
    var slot := b.height % EPOCH;
    && b.height >= 1
    && (1 <= slot <= RANDOM_TIME ==> !b.gotRandom)
    && (slot == 0 || slot > RANDOM_TIME ==> b.gotRandom)
    && (slot != RANDOM_TIME ==> b.currentRandom == [])
  }

  datatype Block = Block(insts: seq<Instruction>, swaps: map<Shard, seq<Instruction>>, stakes: seq<Key>, nonce: int,
                         shuffled: seq<Key>)

  ghost predicate Step(b: Beacon, b': Beacon, block: Block, size: nat, shardOf: ShardOf) {
    && Produced(b, b.height + 1, block.insts, block.swaps, block.stakes, size, block.nonce, shardOf)
    && ShortSwaps(block.insts)
    && Update(b, b.height + 1, block.insts, block.shuffled, shardOf) == Ok(b')
  }

  lemma FinishConserves(f: Fold, shuffled: seq<Key>, shardOf: ShardOf, k: Key)
    requires f.beacon.height % EPOCH == RANDOM_TIME ==> f.beacon.currentRandom == []
    ensures Total(Finish(f, shuffled, shardOf), k) == Total(f.beacon, k) + Count(f.staked, k)
  {
    var b := f.beacon;
    CountAppend(b.nextRandom, f.staked, k);
    assert Count([], k) == 0;
    var c := b.(nextRandom := b.nextRandom + f.staked, beaconNext := b.beaconNext + f.beaconStaked);
    var slot := b.height % EPOCH;
    if slot < RANDOM_TIME {
    } else if slot == RANDOM_TIME {
      AssignedTotal(c.(currentRandom := c.nextRandom, nextRandom := [],
                       beaconCurrent := c.beaconNext, beaconNext := []),
                    shuffled, shardOf, k);
    } else {
      AssignedTotal(c, shuffled, shardOf, k);
    }
  }

  // Assigning moves the current list into the pending lists.
  lemma AssignedTotal(c: Beacon, shuffled: seq<Key>, shardOf: ShardOf, k: Key)
    ensures Total(c.(gotRandom := true, currentRandom := [],
                     pending := AssignAll(c.pending, c.currentRandom, c.random, shardOf),
                     beaconPending := c.beaconPending + shuffled, beaconCurrent := []), k)
            == Total(c, k)
  {
    AssignConserves(c.pending, c.currentRandom, c.random, shardOf, k);
    assert Count([], k) == 0;
  }

  // What the instructions of a produced block leave for the end of Update.
  lemma ProducedFold(b: Beacon, block: Block, size: nat, shardOf: ShardOf)
    requires Produced(b, b.height + 1, block.insts, block.swaps, block.stakes, size, block.nonce, shardOf)
    requires ApplyAll(Begin(b, b.height + 1), block.insts).Ok?
    ensures var g := ApplyAll(Begin(b, b.height + 1), block.insts).value;
            && (g.random <==> RandomDue(b, b.height + 1)) && g.staked == block.stakes
            && g.beacon.height == b.height + 1 && g.beacon.gotRandom == b.gotRandom
            && g.beacon.nextRandom == b.nextRandom && g.beacon.currentRandom == b.currentRandom
  {
    var f := Begin(b, b.height + 1);
    AcceptedBySides(f, block.insts);
    var g := ApplyAll(f, block.insts).value;
    assert OtherSides(f, g, block.insts);
  }

  lemma FinishPhase(b: Beacon, g: Fold, shuffled: seq<Key>, shardOf: ShardOf)
    requires Phase(b) && (g.random <==> RandomDue(b, b.height + 1))
    requires g.beacon.height == b.height + 1 && g.beacon.gotRandom == b.gotRandom
             && g.beacon.currentRandom == b.currentRandom
    ensures Phase(Finish(g, shuffled, shardOf)) && Finish(g, shuffled, shardOf).height == b.height + 1
  {
    NextSlot(b.height);
  }

  lemma PhaseMoves(b: Beacon, b': Beacon, block: Block, size: nat, shardOf: ShardOf)
    requires Phase(b) && Step(b, b', block, size, shardOf)
    ensures Phase(b') && b'.height == b.height + 1
  {
    ProducedFold(b, block, size, shardOf);
    var g := ApplyAll(Begin(b, b.height + 1), block.insts).value;
    FinishPhase(b, g, block.shuffled, shardOf);
  }

  lemma NextSlot(h: nat)
    ensures (h + 1) % EPOCH == if h % EPOCH == EPOCH - 1 then 0 else h % EPOCH + 1
  {
  }

  // The keys over the instructions and the end of Update.
  lemma FoldConserves(f: Fold, g: Fold, insts: seq<Instruction>, shuffled: seq<Key>, shardOf: ShardOf, k: Key)
    requires ShortSwaps(insts) && ApplyAll(f, insts) == Ok(g)
    requires g.beacon.nextRandom == f.beacon.nextRandom && g.beacon.currentRandom == f.beacon.currentRandom
    requires g.beacon.height % EPOCH == RANDOM_TIME ==> g.beacon.currentRandom == []
    ensures Total(Finish(g, shuffled, shardOf), k) + Leaving(insts, k) == Total(f.beacon, k) + Count(g.staked, k)
  {
    ApplyAllConserves(f, insts, k);
    FinishConserves(g, shuffled, shardOf, k);
  }

  /** One produced block: the keys change by stakes and leavers only. */
  lemma StepConserves(b: Beacon, b': Beacon, block: Block, size: nat, shardOf: ShardOf, k: Key)
    requires Phase(b) && Step(b, b', block, size, shardOf)
    ensures Total(b', k) + Leaving(block.insts, k) == Total(b, k) + Count(block.stakes, k)
  {
    ProducedFold(b, block, size, shardOf);
    var f := Begin(b, b.height + 1);
    BeginConserves(b, ApplyAll(f, block.insts).value, block.insts, block.shuffled, shardOf, k);
  }

  lemma BeginConserves(b: Beacon, g: Fold, insts: seq<Instruction>, shuffled: seq<Key>, shardOf: ShardOf, k: Key)
    requires Phase(b) && ShortSwaps(insts) && ApplyAll(Begin(b, b.height + 1), insts) == Ok(g)
    requires g.beacon.height == b.height + 1
    requires g.beacon.nextRandom == b.nextRandom && g.beacon.currentRandom == b.currentRandom
    ensures Total(Finish(g, shuffled, shardOf), k) + Leaving(insts, k) == Total(b, k) + Count(g.staked, k)
  {
    NextSlot(b.height);
    FoldConserves(Begin(b, b.height + 1), g, insts, shuffled, shardOf, k);
  }

  // ---------------------------------------------------------------------------------------------
  // Runs
  // ---------------------------------------------------------------------------------------------

  ghost predicate Run(bs: seq<Beacon>, blocks: seq<Block>, size: nat, shardOf: ShardOf) {
    && |bs| == |blocks| + 1
    && forall i {:trigger bs[i], blocks[i]} :: 0 <= i < |blocks| ==> Step(bs[i], bs[i + 1], blocks[i], size, shardOf)
  }

  function AllLeaving(blocks: seq<Block>, k: Key): (c: nat) {
    if blocks == [] then 0 else AllLeaving(blocks[..|blocks| - 1], k) + Leaving(blocks[|blocks| - 1].insts, k)
  }

  function AllStakes(blocks: seq<Block>, k: Key): (c: nat) {
    if blocks == [] then 0 else AllStakes(blocks[..|blocks| - 1], k) + Count(blocks[|blocks| - 1].stakes, k)
  }

  /** Over every run of produced blocks the books balance for every key. */
  lemma {:induction false} RunConserves(bs: seq<Beacon>, blocks: seq<Block>, size: nat, shardOf: ShardOf, k: Key)
    requires Run(bs, blocks, size, shardOf) && Phase(bs[0])
    ensures Phase(bs[|blocks|])
    ensures Total(bs[|blocks|], k) + AllLeaving(blocks, k) == Total(bs[0], k) + AllStakes(blocks, k)
  {
    if blocks != [] {
      var n := |blocks| - 1;
      RunConserves(bs[..n + 1], blocks[..n], size, shardOf, k);
      assert Step(bs[n], bs[n + 1], blocks[n], size, shardOf);
      PhaseMoves(bs[n], bs[n + 1], blocks[n], size, shardOf);
      StepConserves(bs[n], bs[n + 1], blocks[n], size, shardOf, k);
    }
  }
}
