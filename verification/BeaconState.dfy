// The beacon chain's best state: Update of blockchain/beaconprocess.go and the instructions that
// blockchain/beaconproducer.go puts into a beacon block.
module BeaconState {
  import opened Common
  import opened Committee

  const EPOCH: nat := 10
  const RANDOM_TIME: nat := 5
  const OFFSET: nat := 1

  datatype Instruction =
    | SwapShard(incoming: seq<Key>, out: seq<Key>, shard: Shard)
    | SwapBeacon(incoming: seq<Key>, out: seq<Key>)
    | StakeShard(keys: seq<Key>)
    | StakeBeacon(keys: seq<Key>)
    | Random(nonce: int)
    | Assign(keys: seq<Key>, shard: Shard)
    | Other

  // calculateCandidateShardID: a hash of the key and the random number, reduced to the active shards.
  type ShardOf = (Key, int) -> Shard

  datatype Beacon = Beacon(
    height: nat,
    beaconCommittee: seq<Key>,
    beaconPending: seq<Key>,
    committee: map<Shard, seq<Key>>,
    pending: map<Shard, seq<Key>>,
    nextRandom: seq<Key>,
    currentRandom: seq<Key>,
    beaconNext: seq<Key>,
    beaconCurrent: seq<Key>,
    gotRandom: bool,
    random: int,
    sizes: Sizes)

  // The configured sizes: the beacon's committee, a shard's committee, and the number of shards.
  datatype Sizes = Sizes(beacon: nat, shard: nat, active: nat)

  // A missing entry of a map of lists reads as the empty list.
  function Get(m: map<Shard, seq<Key>>, s: Shard): (l: seq<Key>) { if s in m then m[s] else [] }

  // ---------------------------------------------------------------------------------------------
  // Update
  // ---------------------------------------------------------------------------------------------

  datatype Fold = Fold(beacon: Beacon, staked: seq<Key>, beaconStaked: seq<Key>, random: bool)

  datatype Outcome<T> = Ok(value: T) | Err

  // One instruction of the block.
  function Apply(f: Fold, i: Instruction): (r: Outcome<Fold>) {
    match i
    case SwapShard(incoming, out, s) =>
      var swap := ReplaySwap(Get(f.beacon.pending, s), Get(f.beacon.committee, s), incoming, out);
      if swap.Refused? then Err
      else Ok(f.(beacon := f.beacon.(pending := f.beacon.pending[s := swap.pending],
                                     committee := f.beacon.committee[s := swap.committee])))
    case SwapBeacon(incoming, out) =>
      var swap := ReplaySwap(f.beacon.beaconPending, f.beacon.beaconCommittee, incoming, out);
      if swap.Refused? then Err
      else Ok(f.(beacon := f.beacon.(beaconPending := swap.pending, beaconCommittee := swap.committee)))
    case StakeShard(keys) => Ok(f.(staked := f.staked + Resplit(keys)))
    case StakeBeacon(keys) => Ok(f.(beaconStaked := f.beaconStaked + Resplit(keys)))
    case Random(nonce) => Ok(f.(beacon := f.beacon.(random := nonce), random := true))
    case _ => Ok(f)
  }

  function ApplyAll(f: Fold, insts: seq<Instruction>): (r: Outcome<Fold>) {
    if insts == [] then Ok(f)
    else
      var g := ApplyAll(f, insts[..|insts| - 1]);
      if g.Err? then Err else Apply(g.value, insts[|insts| - 1])
  }

  // The candidates that go to shard s, in their order.
  function ForShard(candidates: seq<Key>, random: int, s: Shard, shardOf: ShardOf): (r: seq<Key>) {
    if candidates == [] then []
    else
      var rest := ForShard(candidates[..|candidates| - 1], random, s, shardOf);
      var last := candidates[|candidates| - 1];
      if shardOf(last, random) == s then rest + [last] else rest
  }

  // AssignValidatorShard: each candidate joins the pending list of its shard.
  function AssignAll(pending: map<Shard, seq<Key>>, candidates: seq<Key>, random: int,
                     shardOf: ShardOf): (r: map<Shard, seq<Key>>) {
    if candidates == [] then pending
    else
      var rest := AssignAll(pending, candidates[..|candidates| - 1], random, shardOf);
      var last := candidates[|candidates| - 1];
      var s := shardOf(last, random);
      rest[s := Get(rest, s) + [last]]
  }

  // The end of Update: new stakes wait for the next random number; the lists move on with the epoch. `shuffled`
  // is the beacon candidates in the order of ShuffleCandidate.
  function Finish(f: Fold, shuffled: seq<Key>, shardOf: ShardOf): (b: Beacon) {
    var b := f.beacon.(nextRandom := f.beacon.nextRandom + f.staked,
                       beaconNext := f.beacon.beaconNext + f.beaconStaked);
    var slot := b.height % EPOCH;
    if slot == 1 && b.height != 1 then b.(gotRandom := false)
    else if slot < RANDOM_TIME then b
    else
      var c := if slot == RANDOM_TIME
               then b.(currentRandom := b.nextRandom, nextRandom := [], beaconCurrent := b.beaconNext, beaconNext := [])
               else b;
      if f.random then
        c.(gotRandom := true, pending := AssignAll(c.pending, c.currentRandom, c.random, shardOf), currentRandom := [],
           beaconPending := c.beaconPending + shuffled, beaconCurrent := [])
      else c
  }

  // The first n shards each get their share of the stakes, in order.
  function Shares(committee: map<Shard, seq<Key>>, staked: seq<Key>, size: nat, n: nat): (r: map<Shard, seq<Key>>)
    requires n <= 256 && n * size <= |staked|
  {
    if n == 0 then committee
    else
      assert (n - 1) * size + size == n * size;
      var before: map<Shard, seq<Key>> := Shares(committee, staked, size, n - 1);
      before[n - 1 := Get(before, n - 1) + staked[(n - 1) * size..(n - 1) * size + size]]
  }

  predicate EnoughStaked(f: Fold) {
    var sizes := f.beacon.sizes;
    sizes.active <= 256 && sizes.beacon <= |f.beaconStaked| && sizes.active * sizes.shard <= |f.staked|
  }

  // The genesis block: its stakes are the committees.
  function Genesis(f: Fold): (r: Outcome<Beacon>) {
    var b := f.beacon;
    if !EnoughStaked(f) then Err
    else Ok(b.(beaconCommittee := f.beaconStaked[..b.sizes.beacon],
               committee := Shares(b.committee, f.staked, b.sizes.shard, b.sizes.active)))
  }

  // The stretch of shard s.
  function Share(staked: seq<Key>, size: nat, s: nat): (r: seq<Key>) {
    if s * size + size <= |staked| then staked[s * size..s * size + size] else []
  }

  lemma {:induction false} SharesOf(committee: map<Shard, seq<Key>>, staked: seq<Key>, size: nat, n: nat, s: Shard)
    requires n <= 256 && n * size <= |staked|
    ensures s < n ==> |Share(staked, size, s)| == size
    ensures Get(Shares(committee, staked, size, n), s)
            == Get(committee, s) + if s < n then Share(staked, size, s) else []
  {
    if n > 0 {
      assert (n - 1) * size + size == n * size;
      SharesOf(committee, staked, size, n - 1, s);
    }
  }

  /** After genesis the beacon's committee is the first beacon stakes, and each active shard has, beyond what it had,
      its own stretch of the stakes. Nothing else changes. */
  lemma GenesisShares(f: Fold, s: Shard)
    requires Genesis(f).Ok?
    ensures var r, sizes := Genesis(f).value, f.beacon.sizes;
            && r.height == f.beacon.height && |r.beaconCommittee| == sizes.beacon
            && r.beaconCommittee <= f.beaconStaked
            && r == f.beacon.(beaconCommittee := r.beaconCommittee, committee := r.committee)
            && (s < sizes.active ==>
                  && |Share(f.staked, sizes.shard, s)| == sizes.shard
                  && Get(r.committee, s) == Get(f.beacon.committee, s) + Share(f.staked, sizes.shard, s))
            && (s >= sizes.active ==> Get(r.committee, s) == Get(f.beacon.committee, s))
  {
    SharesOf(f.beacon.committee, f.staked, f.beacon.sizes.shard, f.beacon.sizes.active, s);
  }

  // The last branch of Update, for the end of an epoch, is never reached: slot 0 is below RANDOM_TIME, and the test for
  // those slots comes first.
  lemma EndOfEpochIsEarly(height: nat)
    ensures height % EPOCH == 0 ==> height % EPOCH < RANDOM_TIME
  {
  }

  /** Update with a block: the instructions in order, then genesis or the end of Update. */
  function Update(b: Beacon, height: nat, insts: seq<Instruction>, shuffled: seq<Key>,
                  shardOf: ShardOf): (r: Outcome<Beacon>) {
    var f := ApplyAll(Begin(b, height), insts);
    if f.Err? then Err else if height == 1 then Genesis(f.value) else Ok(Finish(f.value, shuffled, shardOf))
  }

  function Begin(b: Beacon, height: nat): (f: Fold) { Fold(b.(height := height), [], [], false) }

  /** The object whose fields a block rewrites. */
  class BestStateBeacon {
    var height: nat
    var beaconCommittee: seq<Key>
    var beaconPending: seq<Key>
    var committee: map<Shard, seq<Key>>
    var pending: map<Shard, seq<Key>>
    var nextRandom: seq<Key>
    var currentRandom: seq<Key>
    var beaconNext: seq<Key>
    var beaconCurrent: seq<Key>
    var gotRandom: bool
    var random: int
    const sizes: Sizes

    ghost function Now(): (b: Beacon)
      reads this
    {
      Beacon(height, beaconCommittee, beaconPending, committee, pending, nextRandom, currentRandom,
             beaconNext, beaconCurrent, gotRandom, random, sizes)
    }

    constructor (b: Beacon)
      ensures Now() == b
    {
      height, beaconCommittee, beaconPending := b.height, b.beaconCommittee, b.beaconPending;
      committee, pending := b.committee, b.pending;
      nextRandom, currentRandom, beaconNext, beaconCurrent :=
        b.nextRandom, b.currentRandom, b.beaconNext, b.beaconCurrent;
      gotRandom, random, sizes := b.gotRandom, b.random, b.sizes;
    }

    method AssignValidatorShard(candidates: seq<Key>, rand: int, shardOf: ShardOf)
      modifies this`pending
      ensures pending == AssignAll(old(pending), candidates, rand, shardOf)
    {
      for i := 0 to |candidates|
        invariant pending == AssignAll(old(pending), candidates[..i], rand, shardOf)
      {
        var s := shardOf(candidates[i], rand);
        assert candidates[..i + 1][..i] == candidates[..i];
        pending := pending[s := Get(pending, s) + [candidates[i]]];
      }
      assert candidates[..|candidates|] == candidates;
    }

    method ApplyInstruction(inst: Instruction, staked: seq<Key>, beaconStaked: seq<Key>, randomFlag: bool)
      returns (ok: bool, staked': seq<Key>, beaconStaked': seq<Key>, randomFlag': bool)
      modifies this
      ensures ok <==> Apply(Fold(old(Now()), staked, beaconStaked, randomFlag), inst).Ok?
      ensures ok ==> Apply(Fold(old(Now()), staked, beaconStaked, randomFlag), inst)
                     == Ok(Fold(Now(), staked', beaconStaked', randomFlag'))
    {
      ok, staked', beaconStaked', randomFlag' := true, staked, beaconStaked, randomFlag;
      match inst {
        case SwapShard(incoming, out, s) =>
          var swap := ReplaySwapInstruction(Get(pending, s), Get(committee, s), incoming, out);
          if swap.Refused? {
            ok := false;
            return;
          }
          pending, committee := pending[s := swap.pending], committee[s := swap.committee];
        case SwapBeacon(incoming, out) =>
          var swap := ReplaySwapInstruction(beaconPending, beaconCommittee, incoming, out);
          if swap.Refused? {
            ok := false;
            return;
          }
          beaconPending, beaconCommittee := swap.pending, swap.committee;
        case StakeShard(keys) =>
          staked' := staked + Resplit(keys);
        case StakeBeacon(keys) =>
          beaconStaked' := beaconStaked + Resplit(keys);
        case Random(nonce) =>
          random := nonce;
          randomFlag' := true;
        case _ =>
      }
    }

    method ApplyInstructions(insts: seq<Instruction>)
      returns (ok: bool, staked: seq<Key>, beaconStaked: seq<Key>, randomFlag: bool)
      modifies this
      ensures ok <==> ApplyAll(Fold(old(Now()), [], [], false), insts).Ok?
      ensures ok ==> ApplyAll(Fold(old(Now()), [], [], false), insts)
                     == Ok(Fold(Now(), staked, beaconStaked, randomFlag))
    {
      ok, staked, beaconStaked, randomFlag := true, [], [], false;
      ghost var start := Fold(Now(), [], [], false);
      for i := 0 to |insts|
        invariant ok && ApplyAll(start, insts[..i]) == Ok(Fold(Now(), staked, beaconStaked, randomFlag))
      {
        assert insts[..i + 1][..i] == insts[..i];
        ok, staked, beaconStaked, randomFlag := ApplyInstruction(insts[i], staked, beaconStaked, randomFlag);
        if !ok {
          ErrorStays(start, insts, i + 1);
          return;
        }
      }
      assert insts[..|insts|] == insts;
    }

    // The genesis branch.
    method AssignGenesis(staked: seq<Key>, beaconStaked: seq<Key>, ghost random: bool) returns (ok: bool)
      modifies this
      ensures ok <==> Genesis(Fold(old(Now()), staked, beaconStaked, random)).Ok?
      ensures ok ==> Genesis(Fold(old(Now()), staked, beaconStaked, random)) == Ok(Now())
    {
      if sizes.active > 256 || |beaconStaked| < sizes.beacon || |staked| < sizes.active * sizes.shard {
        return false;
      }
      beaconCommittee := beaconStaked[..sizes.beacon];
      for n := 0 to sizes.active
        invariant n <= 256 && n * sizes.shard <= |staked|
        invariant Now() == old(Now()).(beaconCommittee := beaconStaked[..sizes.beacon],
                                       committee := Shares(old(committee), staked, sizes.shard, n))
      {
        ShareFits(n, sizes.active, sizes.shard, |staked|);
        committee := committee[n := Get(committee, n) + staked[n * sizes.shard..n * sizes.shard + sizes.shard]];
      }
      return true;
    }

    // The end of Update after genesis.
    method EndOfUpdate(staked: seq<Key>, beaconStaked: seq<Key>, randomFlag: bool, shuffled: seq<Key>, shardOf: ShardOf)
      modifies this
      ensures Now() == Finish(Fold(old(Now()), staked, beaconStaked, randomFlag), shuffled, shardOf)
    {
      beaconNext := beaconNext + beaconStaked;
      nextRandom := nextRandom + staked;
      var slot := height % EPOCH;
      if slot == 1 && height != 1 {
        gotRandom := false;
      } else if slot < RANDOM_TIME {
      } else {
        if slot == RANDOM_TIME {
          currentRandom, beaconCurrent := nextRandom, beaconNext;
          nextRandom, beaconNext := [], [];
        }
        if randomFlag {
          gotRandom := true;
          AssignValidatorShard(currentRandom, random, shardOf);
          currentRandom := [];
          beaconCurrent := [];
          beaconPending := beaconPending + shuffled;
        }
      }
    }

    /** Update, instruction by instruction, then genesis or the end of the block. */
    method UpdateWith(blockHeight: nat, insts: seq<Instruction>, shuffled: seq<Key>, shardOf: ShardOf)
      returns (ok: bool)
      modifies this
      ensures ok <==> Update(old(Now()), blockHeight, insts, shuffled, shardOf).Ok?
      ensures ok ==> Update(old(Now()), blockHeight, insts, shuffled, shardOf) == Ok(Now())
    {
      height := blockHeight;
      var staked, beaconStaked, randomFlag;
      ok, staked, beaconStaked, randomFlag := ApplyInstructions(insts);
      if !ok {
        return;
      }
      ghost var f := Fold(Now(), staked, beaconStaked, randomFlag);
      assert ApplyAll(Begin(old(Now()), blockHeight), insts) == Ok(f);
      AppliedHeight(Begin(old(Now()), blockHeight), insts);
      if height == 1 {
        ok := AssignGenesis(staked, beaconStaked, randomFlag);
      } else {
        EndOfUpdate(staked, beaconStaked, randomFlag, shuffled, shardOf);
      }
    }
  }

  lemma ShareFits(n: nat, active: nat, size: nat, length: nat)
    requires n < active && active * size <= length
    ensures n * size + size == (n + 1) * size <= length
  {
    assert (active - (n + 1)) * size >= 0;
  }

  lemma {:induction false} AppliedHeight(f: Fold, insts: seq<Instruction>)
    requires ApplyAll(f, insts).Ok?
    ensures ApplyAll(f, insts).value.beacon.height == f.beacon.height
  {
    if insts != [] {
      AppliedHeight(f, insts[..|insts| - 1]);
    }
  }

  lemma {:induction false} ErrorStays(f: Fold, insts: seq<Instruction>, n: nat)
    requires n <= |insts| && ApplyAll(f, insts[..n]).Err?
    ensures ApplyAll(f, insts).Err?
    decreases |insts| - n
  {
    if n == |insts| {
      assert insts[..n] == insts;
    } else {
      assert insts[..n + 1][..n] == insts[..n];
      ErrorStays(f, insts, n + 1);
    }
  }
}
