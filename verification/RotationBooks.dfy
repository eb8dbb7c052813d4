// The bookkeeping of candidates inside the two-chain rotation: every beacon block of a run qualifies for it.
module RotationBooks {
  import opened Common
  import opened Committee
  import opened BeaconState
  import opened Instructions
  import opened BeaconProducer
  import opened Rotation
  import C = Candidates

  lemma {:induction false} Kept(insts: seq<Instruction>, i: nat, side: Side)
    requires i < |insts| && Belongs(insts[i], side)
    ensures insts[i] in Only(insts, side)
  {
    if i < |insts| - 1 {
      Kept(insts[..|insts| - 1], i, side);
    }
  }

  // Every swap in a beacon block comes from a shard and names one key on each side.
  lemma SwapsAreShort(setup: Setup, sys: System, sys': System, take: map<Shard, nat>, insts: seq<Instruction>,
                      stakes: seq<Key>, nonce: int, shuffled: seq<Key>)
    requires Inv(setup, sys) && BeaconStep(setup, sys, sys', take, insts, stakes, nonce, shuffled)
    ensures C.ShortSwaps(insts)
  {
    forall i | 0 <= i < |insts| ensures C.ShortSwap(insts[i]) {
      if insts[i].SwapShard? {
        var s := insts[i].shard;
        Kept(insts, i, ShardSwaps(s));
        assert insts[i] in SwapsAt(Delivered(sys, take), s);
        assert s in take;
        assert NodeInv(setup, sys, s);
        DeliveredIsShort(setup, sys, take, s, insts[i]);
      }
    }
  }

  lemma ShortFrom(swaps: seq<Instruction>, q: seq<Key>, start: nat, size: nat, s: Shard, i: Instruction)
    requires SwapsFrom(swaps, q, start, size, s) && i in swaps
    ensures C.ShortSwap(i)
  {
    var j :| 0 <= j < |swaps| && swaps[j] == i;
    assert swaps[j] == SwapAt(q, start + j, size, s);
  }

  lemma DeliveredIsShort(setup: Setup, sys: System, take: map<Shard, nat>, s: Shard, i: Instruction)
    requires Takes(sys, take) && s in take && ShardSide(setup, sys.beaconChain, sys.shards[s], s)
    requires i in Delivered(sys, take)[s]
    ensures C.ShortSwap(i)
  {
    var n, q := sys.shards[s], Queue(setup, sys.beaconChain, s);
    NextSwaps(n, q, setup.size, s, take[s]);
    assert Delivered(sys, take)[s] == SwapsIn(n.chain[n.accepted..n.accepted + take[s]], s);
    ShortFrom(SwapsIn(n.chain[n.accepted..n.accepted + take[s]], s), q, |SwapsIn(n.chain[..n.accepted], s)|, setup.size,
              s, i);
  }

  lemma AsStep(b: Beacon, b': Beacon, height: nat, block: C.Block, size: nat, shardOf: ShardOf)
    requires height == b.height + 1 && C.ShortSwaps(block.insts)
    requires Produced(b, height, block.insts, block.swaps, block.stakes, size, block.nonce, shardOf)
    requires Update(b, height, block.insts, block.shuffled, shardOf) == Ok(b')
    ensures C.Step(b, b', block, size, shardOf)
  {
  }

  lemma QualifiesAsStep(setup: Setup, sys: System, sys': System, take: map<Shard, nat>, insts: seq<Instruction>,
                        stakes: seq<Key>, nonce: int, shuffled: seq<Key>)
    requires Inv(setup, sys) && BeaconStep(setup, sys, sys', take, insts, stakes, nonce, shuffled)
    ensures C.Step(sys.beacon, sys'.beacon, C.Block(insts, Delivered(sys, take), stakes, nonce, shuffled),
                   setup.beaconSize, setup.shardOf)
  {
    SwapsAreShort(setup, sys, sys', take, insts, stakes, nonce, shuffled);
    AsStep(sys.beacon, sys'.beacon, |sys.beaconChain| + 1,
           C.Block(insts, Delivered(sys, take), stakes, nonce, shuffled), setup.beaconSize, setup.shardOf);
  }

  /** In the rotation, too, a beacon block changes the books only by its stakes and by the keys its swaps let go. */
  lemma BeaconBlockBalances(setup: Setup, sys: System, sys': System, take: map<Shard, nat>, insts: seq<Instruction>,
                            stakes: seq<Key>, nonce: int, shuffled: seq<Key>, k: Key)
    requires Inv(setup, sys) && C.Phase(sys.beacon)
    requires BeaconStep(setup, sys, sys', take, insts, stakes, nonce, shuffled)
    ensures C.Phase(sys'.beacon)
    ensures C.Total(sys'.beacon, k) + C.Leaving(insts, k) == C.Total(sys.beacon, k) + C.Count(stakes, k)
  {
    QualifiesAsStep(setup, sys, sys', take, insts, stakes, nonce, shuffled);
    var block := C.Block(insts, Delivered(sys, take), stakes, nonce, shuffled);
    C.PhaseMoves(sys.beacon, sys'.beacon, block, setup.beaconSize, setup.shardOf);
    C.StepConserves(sys.beacon, sys'.beacon, block, setup.beaconSize, setup.shardOf, k);
  }

  // ---------------------------------------------------------------------------------------------
  // Over whole runs
  // ---------------------------------------------------------------------------------------------

  // How often k is swapped out, and how often it is staked, in the blocks of a chain.
  function LeavingIn(chain: seq<seq<Instruction>>, k: Key): (c: nat) {
    if chain == [] then 0 else LeavingIn(chain[..|chain| - 1], k) + C.Leaving(chain[|chain| - 1], k)
  }

  function StakedIn(chain: seq<seq<Instruction>>, k: Key): (c: nat) {
    if chain == [] then 0 else StakedIn(chain[..|chain| - 1], k) + C.Count(StakedBy(chain[|chain| - 1]), k)
  }

  // Both sums, as far as the chain goes.
  predicate Balanced(start: Beacon, sys: System, k: Key) {
    C.Total(sys.beacon, k) + LeavingIn(sys.beaconChain, k) == C.Total(start, k) + StakedIn(sys.beaconChain, k)
  }

  lemma BeaconStepBalances(setup: Setup, start: Beacon, sys: System, sys': System, take: map<Shard, nat>,
                           insts: seq<Instruction>, stakes: seq<Key>, nonce: int, shuffled: seq<Key>, k: Key)
    requires Inv(setup, sys) && C.Phase(sys.beacon) && Balanced(start, sys, k)
    requires BeaconStep(setup, sys, sys', take, insts, stakes, nonce, shuffled)
    ensures C.Phase(sys'.beacon) && Balanced(start, sys', k)
  {
    BeaconBlockBalances(setup, sys, sys', take, insts, stakes, nonce, shuffled, k);
    assert StakedBy(insts) == stakes;
    var chain := sys'.beaconChain;
    assert chain[..|chain| - 1] == sys.beaconChain && chain[|chain| - 1] == insts;
  }

  lemma StepBalances(setup: Setup, start: Beacon, sys: System, sys': System, k: Key)
    requires Inv(setup, sys) && C.Phase(sys.beacon) && Balanced(start, sys, k) && Next(setup, sys, sys')
    ensures C.Phase(sys'.beacon) && Balanced(start, sys', k)
  {
    if s, height :| ShardStep(setup, sys, sys', s, height) {
      assert sys'.beacon == sys.beacon && sys'.beaconChain == sys.beaconChain;
    } else {
      var take, insts, stakes, nonce, shuffled :| BeaconStep(setup, sys, sys', take, insts, stakes, nonce, shuffled);
      BeaconStepBalances(setup, start, sys, sys', take, insts, stakes, nonce, shuffled, k);
    }
  }

  /** In every state of every interleaving the books balance for every key: what is waiting, pending and serving, with
      what has left, is what there was at the start with what has been staked. */
  lemma {:induction false} RunBalances(setup: Setup, run: seq<System>, i: nat, k: Key)
    requires Run(setup, run) && i < |run| && C.Phase(run[0].beacon)
    ensures C.Phase(run[i].beacon) && Balanced(run[0].beacon, run[i], k)
  {
    if i == 0 {
      var chain := run[0].beaconChain;
      assert chain[..0] == [] && chain[0] == [];
    } else {
      RunBalances(setup, run, i - 1, k);
      RunInv(setup, run, i - 1);
      assert Next(setup, run[i - 1], run[i - 1 + 1]);
      StepBalances(setup, run[0].beacon, run[i - 1], run[i], k);
    }
  }
}
