// When candidates are assigned: over every run of produced blocks, the stakes between two snapshots are assigned by the
// random number that follows the second one.
module CandidateTimes {
  import opened Common
  import opened Filtering
  import opened Committee
  import opened BeaconState
  import opened Instructions
  import opened BeaconProducer
  import C = Candidates
  import B = BeaconCandidates

  // The keys staked for the shards, and for the beacon, in blocks j up to i.
  function Staked(blocks: seq<C.Block>, j: nat, i: nat): (r: seq<Key>)
    requires i <= |blocks|
  {
    if i <= j then [] else Staked(blocks, j, i - 1) + blocks[i - 1].stakes
  }

  function BeaconStaked(blocks: seq<C.Block>, j: nat, i: nat): (r: seq<Key>)
    requires i <= |blocks|
  {
    if i <= j then [] else BeaconStaked(blocks, j, i - 1) + BeaconStakedBy(blocks[i - 1].insts)
  }

  // The place of a height in its epoch of ten blocks.
  function Slot(height: nat): (n: nat) { if height < 10 then height else Slot(height - 10) }

  lemma {:induction false} SlotIs(height: nat)
    ensures Slot(height) == height % 10
  {
    if height >= 10 {
      SlotIs(height - 10);
    }
  }

  function Goes(random: int, s: Shard, shardOf: ShardOf): (test: Key -> bool) { (k: Key) => shardOf(k, random) == s }

  /** A shard's share of the candidates is, in order, those that the random number sends there. */
  lemma {:induction false} ShareIsFilter(candidates: seq<Key>, random: int, s: Shard, shardOf: ShardOf)
    ensures ForShard(candidates, random, s, shardOf) == Filter(candidates, Goes(random, s, shardOf))
  {
    if candidates != [] {
      ShareIsFilter(candidates[..|candidates| - 1], random, s, shardOf);
    }
  }

  // ---------------------------------------------------------------------------------------------
  // One block
  // ---------------------------------------------------------------------------------------------

  // The waiting lists: stakes join the first, a snapshot moves them to the second, the block after it empties that.
  predicate ListsMove(b: Beacon, b': Beacon, stakes: seq<Key>, beaconStakes: seq<Key>) {
    var slot := Slot(b'.height);
    && b'.nextRandom == (if slot == 5 then [] else b.nextRandom + stakes)
    && b'.beaconNext == (if slot == 5 then [] else b.beaconNext + beaconStakes)
    && (slot == 5 ==> b'.currentRandom == b.nextRandom + stakes && b'.beaconCurrent == b.beaconNext + beaconStakes)
  }

  lemma RandomInTime(b: Beacon)
    requires C.Phase(b)
    ensures RandomDue(b, b.height + 1) <==> Slot(b.height + 1) == 6
  {
    SlotIs(b.height + 1);
    C.NextSlot(b.height);
  }

  // What a produced block's instructions leave for the end of Update.
  predicate HandsOver(b: Beacon, g: Fold, block: C.Block) {
    && g.beacon.height == b.height + 1 && g.staked == block.stakes && g.beaconStaked == BeaconStakedBy(block.insts)
    && g.beacon.nextRandom == b.nextRandom && g.beacon.beaconNext == b.beaconNext
    && (g.random <==> Slot(b.height + 1) == 6)
    && (Slot(b.height + 1) == 6 ==> g.beacon.beaconPending == b.beaconPending)
  }

  lemma ProducedHandsOver(b: Beacon, block: C.Block, size: nat, shardOf: ShardOf)
    requires C.Phase(b) && ApplyAll(Begin(b, b.height + 1), block.insts).Ok?
    requires Produced(b, b.height + 1, block.insts, block.swaps, block.stakes, size, block.nonce, shardOf)
    ensures HandsOver(b, ApplyAll(Begin(b, b.height + 1), block.insts).value, block)
  {
    C.ProducedFold(b, block, size, shardOf);
    B.OwnSides(Begin(b, b.height + 1), block.insts);
    RandomInTime(b);
  }

  lemma FinishLists(b: Beacon, g: Fold, shuffled: seq<Key>, shardOf: ShardOf)
    requires g.beacon.height > 1 && (g.random <==> Slot(g.beacon.height) == 6)
    ensures ListsMove(g.beacon, Finish(g, shuffled, shardOf), g.staked, g.beaconStaked)
    ensures Finish(g, shuffled, shardOf).height == g.beacon.height
    ensures g.random ==> Finish(g, shuffled, shardOf).beaconPending == g.beacon.beaconPending + shuffled
  {
    SlotIs(g.beacon.height);
  }

  lemma FinishMoves(b: Beacon, g: Fold, block: C.Block, shardOf: ShardOf)
    requires C.Phase(b) && HandsOver(b, g, block)
    ensures Moved(b, Finish(g, block.shuffled, shardOf), block)
  {
    FinishLists(b, g, block.shuffled, shardOf);
  }

  // What one produced block does to the waiting lists and to the beacon's pending list, and what it assigns.
  predicate Moved(b: Beacon, b': Beacon, block: C.Block) {
    && b'.height == b.height + 1
    && ListsMove(b, b', block.stakes, BeaconStakedBy(block.insts))
    && (Slot(b'.height) == 6 ==> b'.beaconPending == b.beaconPending + block.shuffled)
  }

  lemma UpdateMoves(b: Beacon, b': Beacon, block: C.Block, size: nat, shardOf: ShardOf)
    requires C.Phase(b) && Update(b, b.height + 1, block.insts, block.shuffled, shardOf) == Ok(b')
    requires HandsOver(b, ApplyAll(Begin(b, b.height + 1), block.insts).value, block)
    ensures Moved(b, b', block)
  {
    FinishMoves(b, ApplyAll(Begin(b, b.height + 1), block.insts).value, block, shardOf);
  }

  lemma StepMoves(b: Beacon, b': Beacon, block: C.Block, size: nat, shardOf: ShardOf)
    requires C.Phase(b) && C.Step(b, b', block, size, shardOf)
    ensures Moved(b, b', block)
  {
    ProducedHandsOver(b, block, size, shardOf);
    UpdateMoves(b, b', block, size, shardOf);
  }

  /** A produced block brings a random number and assigns candidates only right after a snapshot: each shard gets, in
      order, those whom the random number sends there. */
  lemma AssignsInTime(b: Beacon, block: C.Block, size: nat, shardOf: ShardOf, s: Shard)
    requires C.Phase(b)
    requires Produced(b, b.height + 1, block.insts, block.swaps, block.stakes, size, block.nonce, shardOf)
    ensures Randoms(block.insts) == if Slot(b.height + 1) == 6 then [Random(block.nonce)] else []
    ensures AssignedTo(block.insts, s)
            == if Slot(b.height + 1) == 6 then Filter(b.currentRandom, Goes(block.nonce, s, shardOf)) else []
  {
    RandomInTime(b);
    ShareIsFilter(b.currentRandom, block.nonce, s, shardOf);
  }

  // ---------------------------------------------------------------------------------------------
  // Runs
  // ---------------------------------------------------------------------------------------------

  predicate AllMoved(bs: seq<Beacon>, blocks: seq<C.Block>) {
    && |bs| == |blocks| + 1
    && forall i {:trigger bs[i], blocks[i]} :: 0 <= i < |blocks| ==> Moved(bs[i], bs[i + 1], blocks[i])
  }

  lemma {:induction false} PhaseAt(bs: seq<Beacon>, blocks: seq<C.Block>, size: nat, shardOf: ShardOf, i: nat)
    requires C.Run(bs, blocks, size, shardOf) && C.Phase(bs[0]) && i < |bs|
    ensures C.Phase(bs[i])
  {
    if i > 0 {
      PhaseAt(bs, blocks, size, shardOf, i - 1);
      assert C.Step(bs[i - 1], bs[i - 1 + 1], blocks[i - 1], size, shardOf);
      C.PhaseMoves(bs[i - 1], bs[i], blocks[i - 1], size, shardOf);
    }
  }

  lemma RunMoves(bs: seq<Beacon>, blocks: seq<C.Block>, size: nat, shardOf: ShardOf)
    requires C.Run(bs, blocks, size, shardOf) && C.Phase(bs[0])
    ensures AllMoved(bs, blocks)
  {
    forall i | 0 <= i < |blocks| ensures Moved(bs[i], bs[i + 1], blocks[i]) {
      PhaseAt(bs, blocks, size, shardOf, i);
      assert C.Step(bs[i], bs[i + 1], blocks[i], size, shardOf);
      StepMoves(bs[i], bs[i + 1], blocks[i], size, shardOf);
    }
  }

  lemma {:induction false} HeightAt(bs: seq<Beacon>, blocks: seq<C.Block>, j: nat, i: nat)
    requires AllMoved(bs, blocks) && j <= i < |bs|
    ensures bs[i].height == bs[j].height + (i - j)
  {
    if i > j {
      HeightAt(bs, blocks, j, i - 1);
      assert Moved(bs[i - 1], bs[i - 1 + 1], blocks[i - 1]);
    }
  }

  lemma BetweenSnapshots(h: nat, n: nat)
    requires Slot(h) == 5 && 0 < n < 10
    ensures Slot(h + n) != 5
  {
    SlotIs(h);
    SlotIs(h + n);
  }

  lemma WaitsOn(b: Beacon, b': Beacon, block: C.Block, staked: seq<Key>, beaconStaked: seq<Key>)
    requires Moved(b, b', block) && Slot(b'.height) != 5 && b.nextRandom == staked && b.beaconNext == beaconStaked
    ensures b'.nextRandom == staked + block.stakes && b'.beaconNext == beaconStaked + BeaconStakedBy(block.insts)
  {
  }

  lemma TakesAll(b: Beacon, b': Beacon, block: C.Block, staked: seq<Key>, beaconStaked: seq<Key>)
    requires Moved(b, b', block) && Slot(b'.height) == 5 && b.nextRandom == staked && b.beaconNext == beaconStaked
    ensures b'.nextRandom == [] && b'.beaconNext == []
    ensures b'.currentRandom == staked + block.stakes
    ensures b'.beaconCurrent == beaconStaked + BeaconStakedBy(block.insts)
  {
  }

  lemma AfterSnapshot(h: nat)
    ensures Slot(h) == 5 ==> Slot(h + 1) == 6
  {
    SlotIs(h);
    SlotIs(h + 1);
  }

  // After a snapshot, until the next, those wait who have staked since.
  lemma {:induction false} WaitingSince(bs: seq<Beacon>, blocks: seq<C.Block>, j: nat, i: nat)
    requires AllMoved(bs, blocks) && 0 < j <= i < |bs| && i < j + 10 && Slot(bs[j].height) == 5
    ensures bs[i].nextRandom == Staked(blocks, j, i) && bs[i].beaconNext == BeaconStaked(blocks, j, i)
  {
    var b, b', block := bs[i - 1], bs[i], blocks[i - 1];
    assert Moved(bs[i - 1], bs[i - 1 + 1], blocks[i - 1]);
    if i > j {
      WaitingSince(bs, blocks, j, i - 1);
      HeightAt(bs, blocks, j, i);
      BetweenSnapshots(bs[j].height, i - j);
      WaitsOn(b, b', block, Staked(blocks, j, i - 1), BeaconStaked(blocks, j, i - 1));
    } else {
      TakesAll(b, b', block, b.nextRandom, b.beaconNext);
    }
  }

  /** At the next snapshot exactly the keys staked since the last one are taken, in order. */
  lemma Snapshot(bs: seq<Beacon>, blocks: seq<C.Block>, j: nat)
    requires AllMoved(bs, blocks) && 0 < j && j + 10 < |bs| && Slot(bs[j].height) == 5
    ensures Slot(bs[j + 10].height) == 5
    ensures bs[j + 10].currentRandom == Staked(blocks, j, j + 10)
    ensures bs[j + 10].beaconCurrent == BeaconStaked(blocks, j, j + 10)
  {
    var i := j + 10;
    WaitingSince(bs, blocks, j, i - 1);
    HeightAt(bs, blocks, j, i);
    assert Moved(bs[i - 1], bs[i - 1 + 1], blocks[i - 1]);
    TakesAll(bs[i - 1], bs[i], blocks[i - 1], Staked(blocks, j, i - 1), BeaconStaked(blocks, j, i - 1));
  }

  /** The block after it assigns to each shard, in order, those of them that its random number sends there, and the
      beacon's pending list grows by its shuffled candidates. */
  lemma AssignedAfterSnapshot(bs: seq<Beacon>, blocks: seq<C.Block>, size: nat, shardOf: ShardOf, j: nat, s: Shard)
    requires C.Run(bs, blocks, size, shardOf) && C.Phase(bs[0]) && 0 < j && j + 11 < |bs| && Slot(bs[j].height) == 5
    ensures AssignedTo(blocks[j + 10].insts, s)
            == Filter(Staked(blocks, j, j + 10), Goes(blocks[j + 10].nonce, s, shardOf))
    ensures bs[j + 11].beaconPending == bs[j + 10].beaconPending + blocks[j + 10].shuffled
  {
    RunMoves(bs, blocks, size, shardOf);
    Snapshot(bs, blocks, j);
    AssignedAt(bs, blocks, size, shardOf, j + 10, s);
  }

  lemma AssignedAt(bs: seq<Beacon>, blocks: seq<C.Block>, size: nat, shardOf: ShardOf, k: nat, s: Shard)
    requires C.Run(bs, blocks, size, shardOf) && C.Phase(bs[0]) && k < |blocks| && Slot(bs[k].height) == 5
    ensures AssignedTo(blocks[k].insts, s) == Filter(bs[k].currentRandom, Goes(blocks[k].nonce, s, shardOf))
    ensures bs[k + 1].beaconPending == bs[k].beaconPending + blocks[k].shuffled
  {
    PhaseAt(bs, blocks, size, shardOf, k);
    assert C.Step(bs[k], bs[k + 1], blocks[k], size, shardOf);
    StepMoves(bs[k], bs[k + 1], blocks[k], size, shardOf);
    AfterSnapshot(bs[k].height);
    AssignsAfter(bs[k], blocks[k], size, shardOf, s);
  }

  lemma AssignsAfter(b: Beacon, block: C.Block, size: nat, shardOf: ShardOf, s: Shard)
    requires C.Phase(b) && Slot(b.height + 1) == 6
    requires Produced(b, b.height + 1, block.insts, block.swaps, block.stakes, size, block.nonce, shardOf)
    ensures AssignedTo(block.insts, s) == Filter(b.currentRandom, Goes(block.nonce, s, shardOf))
  {
    AssignsInTime(b, block, size, shardOf, s);
  }

  /** In a run whose shuffles are those of the beacon, these are the beacon stakes between the snapshots: each digest
      once, and all of them exactly when the digests differ. */
  lemma ShuffledAfterSnapshot(bs: seq<Beacon>, blocks: seq<C.Block>, size: nat, shardOf: ShardOf, digest: B.Digest,
                              j: nat)
    requires B.Run(bs, blocks, size, shardOf, digest) && C.Phase(bs[0])
    requires 0 < j && j + 11 < |bs| && Slot(bs[j].height) == 5
    ensures var block, candidates := blocks[j + 10], BeaconStaked(blocks, j, j + 10);
            && B.Shuffled(block.shuffled, candidates, block.nonce, digest)
            && (multiset(block.shuffled) == multiset(candidates) <==>
                  B.DistinctDigests(candidates, block.nonce, digest))
  {
    RunIsRun(bs, blocks, size, shardOf, digest);
    RunMoves(bs, blocks, size, shardOf);
    Snapshot(bs, blocks, j);
    PhaseAt(bs, blocks, size, shardOf, j + 10);
    var k := j + 10;
    assert B.Step(bs[k], bs[k + 1], blocks[k], size, shardOf, digest);
    ShuffleInTime(bs[k], bs[k + 1], blocks[k], size, shardOf, digest);
    B.ShuffleKeepsExactly(BeaconStaked(blocks, j, k), blocks[k].nonce, digest, blocks[k].shuffled);
  }

  lemma ShuffleInTime(b: Beacon, b': Beacon, block: C.Block, size: nat, shardOf: ShardOf, digest: B.Digest)
    requires C.Phase(b) && Slot(b.height) == 5 && B.Step(b, b', block, size, shardOf, digest)
    ensures B.Shuffled(block.shuffled, b.beaconCurrent, block.nonce, digest)
  {
    AfterSnapshot(b.height);
    RandomInTime(b);
  }

  lemma RunIsRun(bs: seq<Beacon>, blocks: seq<C.Block>, size: nat, shardOf: ShardOf, digest: B.Digest)
    requires B.Run(bs, blocks, size, shardOf, digest)
    ensures C.Run(bs, blocks, size, shardOf)
  {
    forall i | 0 <= i < |blocks| ensures C.Step(bs[i], bs[i + 1], blocks[i], size, shardOf) {
      assert B.Step(bs[i], bs[i + 1], blocks[i], size, shardOf, digest);
    }
  }
}
