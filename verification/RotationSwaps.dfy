// When shards swap, over every interleaving of the rotation.
module RotationSwaps {
  import opened Common
  import opened Committee
  import opened BeaconState
  import opened Instructions
  import opened ShardState
  import opened Rotation

  // One step of a run gave shard s the block after those it had. The block swaps if the shard had read the last beacon
  // block of an epoch and somebody waited, and only then.
  predicate MakesInTime(setup: Setup, c: seq<seq<Instruction>>, n: Node, n': Node, block: seq<Instruction>, s: Shard) {
    && n'.chain == n.chain + [block] && n.beaconHeight <= n'.beaconHeight <= |c| && |n.lists.committee| == setup.size
    && SwapsInTime(n.lists.committee, n.lists.pending + AssignedIn(c[n.beaconHeight..n'.beaconHeight], s),
                   n'.beaconHeight, s, setup.size, block)
  }

  lemma ShardMakesInTime(setup: Setup, sys: System, sys': System, s: Shard, height: nat)
    requires Inv(setup, sys) && ShardStep(setup, sys, sys', s, height)
    ensures var n, n' := sys.shards[s], sys'.shards[s];
            n'.chain != [] && MakesInTime(setup, sys.beaconChain, n, n', n'.chain[|n'.chain| - 1], s)
  {
    assert NodeInv(setup, sys, s);
    var n := sys.shards[s];
    SwapTimes(n.lists, sys.beaconChain[n.beaconHeight..height], height, s, setup.size);
  }

  // A step adds no block to a shard, or one in time.
  lemma StepMakes(setup: Setup, sys: System, sys': System, s: Shard)
    requires Inv(setup, sys) && Next(setup, sys, sys') && s in sys'.shards
    ensures s in sys.shards
    ensures var n, n' := sys.shards[s], sys'.shards[s];
            || n'.chain == n.chain
            || (n'.chain != [] && MakesInTime(setup, sys.beaconChain, n, n', n'.chain[|n'.chain| - 1], s))
  {
    if t, height :| ShardStep(setup, sys, sys', t, height) {
      if t == s {
        ShardMakesInTime(setup, sys, sys', s, height);
      }
    } else {
      var take, insts, stakes, nonce, shuffled :| BeaconStep(setup, sys, sys', take, insts, stakes, nonce, shuffled);
    }
  }

  // Step j of a run made block k of shard s.
  predicate Made(setup: Setup, run: seq<System>, j: nat, s: Shard, k: nat, block: seq<Instruction>) {
    && j + 1 < |run| && s in run[j].shards && s in run[j + 1].shards && |run[j].shards[s].chain| == k
    && MakesInTime(setup, run[j].beaconChain, run[j].shards[s], run[j + 1].shards[s], block, s)
  }

  // The latest step made the latest block, or none.
  lemma StepMade(setup: Setup, run: seq<System>, i: nat, s: Shard)
    requires Run(setup, run) && i + 1 < |run| && s in run[i + 1].shards
    ensures s in run[i].shards
    ensures var chain, chain' := run[i].shards[s].chain, run[i + 1].shards[s].chain;
            chain' == chain || (chain' != [] && chain == chain'[..|chain'| - 1]
                                && Made(setup, run, i, s, |chain|, chain'[|chain'| - 1]))
  {
    RunInv(setup, run, i);
    assert Next(setup, run[i], run[i + 1]);
    StepMakes(setup, run[i], run[i + 1], s);
  }

  /** In every run, block k of a shard was made at one step, and swaps exactly when the beacon height it refers to ends
      an epoch and somebody waited then: the first who waited joins and the first of the committee leaves. */
  lemma {:induction false} SwapsOnlyInTime(setup: Setup, run: seq<System>, i: nat, s: Shard, k: nat) returns (j: nat)
    requires Run(setup, run) && i < |run| && s in run[i].shards && k < |run[i].shards[s].chain|
    ensures j < i && Made(setup, run, j, s, k, run[i].shards[s].chain[k])
  {
    if i == 0 {
      assert false;
    } else {
      StepMade(setup, run, i - 1, s);
      var chain := run[i - 1].shards[s].chain;
      if k < |chain| {
        j := SwapsOnlyInTime(setup, run, i - 1, s, k);
        assert run[i].shards[s].chain[k] == chain[k];
      } else {
        j := i - 1;
      }
    }
  }
}
