// Lists of instructions seen from one side at a time: the swaps of one shard, the keys assigned to it, the stakes.
// Update of the beacon state acts on each side separately.
module Instructions {
  import opened Common
  import opened Committee
  import opened BeaconState

  datatype Side = ShardSwaps(shard: Shard) | OwnSwaps | RandomNumbers

  predicate Belongs(i: Instruction, side: Side) {
    match side
    case ShardSwaps(s) => i.SwapShard? && i.shard == s
    case OwnSwaps => i.SwapBeacon?
    case RandomNumbers => i.Random?
  }

  function Only(insts: seq<Instruction>, side: Side): (r: seq<Instruction>)
    ensures forall i :: 0 <= i < |r| ==> Belongs(r[i], side)
  {
    if insts == [] then []
    else
      var front, last := Only(insts[..|insts| - 1], side), insts[|insts| - 1];
      if Belongs(last, side) then front + [last] else front
  }

  function SwapsOf(insts: seq<Instruction>, s: Shard): (r: seq<Instruction>) { Only(insts, ShardSwaps(s)) }

  function BeaconSwaps(insts: seq<Instruction>): (r: seq<Instruction>) { Only(insts, OwnSwaps) }

  function Randoms(insts: seq<Instruction>): (r: seq<Instruction>) { Only(insts, RandomNumbers) }

  datatype Source = Stakes | BeaconStakes | AssignedKeys(shard: Shard)

  function KeysOf(i: Instruction, source: Source): (r: seq<Key>) {
    match source
    case Stakes => if i.StakeShard? then Resplit(i.keys) else []
    case BeaconStakes => if i.StakeBeacon? then Resplit(i.keys) else []
    case AssignedKeys(s) => if i.Assign? && i.shard == s then Resplit(i.keys) else []
  }

  function Keys(insts: seq<Instruction>, source: Source): (r: seq<Key>) {
    if insts == [] then [] else Keys(insts[..|insts| - 1], source) + KeysOf(insts[|insts| - 1], source)
  }

  function StakedBy(insts: seq<Instruction>): (r: seq<Key>) { Keys(insts, Stakes) }

  function BeaconStakedBy(insts: seq<Instruction>): (r: seq<Key>) { Keys(insts, BeaconStakes) }

  // What a shard reads from a beacon block: the keys assigned to it.
  function AssignedTo(insts: seq<Instruction>, s: Shard): (r: seq<Key>) { Keys(insts, AssignedKeys(s)) }

  lemma {:induction false} OnlyAppend(a: seq<Instruction>, b: seq<Instruction>, side: Side)
    ensures Only(a + b, side) == Only(a, side) + Only(b, side)
  {
    if b == [] {
      assert a + b == a;
    } else {
      OnlyAppend(a, b[..|b| - 1], side);
      assert (a + b)[..|a + b| - 1] == a + b[..|b| - 1];
    }
  }

  lemma {:induction false} KeysAppend(a: seq<Instruction>, b: seq<Instruction>, source: Source)
    ensures Keys(a + b, source) == Keys(a, source) + Keys(b, source)
  {
    if b == [] {
      assert a + b == a;
    } else {
      KeysAppend(a, b[..|b| - 1], source);
      assert (a + b)[..|a + b| - 1] == a + b[..|b| - 1];
    }
  }

  // Replaying swap instructions one after the other on one pair of lists.
  function ReplayAll(pending: seq<Key>, committee: seq<Key>, swaps: seq<Instruction>): (r: Replay) {
    if swaps == [] then Replayed(pending, committee)
    else
      var before, last := ReplayAll(pending, committee, swaps[..|swaps| - 1]), swaps[|swaps| - 1];
      if before.Refused? || !(last.SwapShard? || last.SwapBeacon?) then Refused
      else ReplaySwap(before.pending, before.committee, last.incoming, last.out)
  }

  lemma ReplayOneMore(pending: seq<Key>, committee: seq<Key>, swaps: seq<Instruction>, last: Instruction)
    requires last.SwapShard? || last.SwapBeacon?
    ensures var before := ReplayAll(pending, committee, swaps);
            ReplayAll(pending, committee, swaps + [last]) ==
            if before.Refused? then Refused else ReplaySwap(before.pending, before.committee, last.incoming, last.out)
  {
    assert (swaps + [last])[..|swaps|] == swaps;
  }

  // ---------------------------------------------------------------------------------------------
  // Update, side by side
  // ---------------------------------------------------------------------------------------------

  ghost predicate ShardSides(f: Fold, g: Fold, insts: seq<Instruction>) {
    forall s :: ReplayAll(Get(f.beacon.pending, s), Get(f.beacon.committee, s), SwapsOf(insts, s))
                == Replayed(Get(g.beacon.pending, s), Get(g.beacon.committee, s))
  }

  predicate OtherSides(f: Fold, g: Fold, insts: seq<Instruction>) {
    && g.staked == f.staked + StakedBy(insts) && g.beaconStaked == f.beaconStaked + BeaconStakedBy(insts)
    && g.random == (f.random || Randoms(insts) != [])
    && g.beacon.random == (if Randoms(insts) == [] then f.beacon.random else Randoms(insts)[|Randoms(insts)| - 1].nonce)
    && g.beacon.height == f.beacon.height && g.beacon.gotRandom == f.beacon.gotRandom
    && g.beacon.nextRandom == f.beacon.nextRandom && g.beacon.currentRandom == f.beacon.currentRandom
    && g.beacon.beaconNext == f.beacon.beaconNext && g.beacon.beaconCurrent == f.beacon.beaconCurrent
    && g.beacon.sizes == f.beacon.sizes
  }

  ghost predicate Sides(f: Fold, g: Fold, insts: seq<Instruction>) {
    && ShardSides(f, g, insts)
    && ReplayAll(f.beacon.beaconPending, f.beacon.beaconCommittee, BeaconSwaps(insts))
       == Replayed(g.beacon.beaconPending, g.beacon.beaconCommittee)
    && OtherSides(f, g, insts)
  }

  // The last instruction of a list, added to each side.
  lemma SidesStep(f: Fold, g: Fold, insts: seq<Instruction>)
    requires insts != [] && Sides(f, g, insts[..|insts| - 1]) && Apply(g, insts[|insts| - 1]).Ok?
    ensures Sides(f, Apply(g, insts[|insts| - 1]).value, insts)
  {
    BeaconSideStep(f, g, insts);
    OtherSidesStep(f, g, insts);
    var h := Apply(g, insts[|insts| - 1]).value;
    forall s ensures ReplayAll(Get(f.beacon.pending, s), Get(f.beacon.committee, s), SwapsOf(insts, s))
                     == Replayed(Get(h.beacon.pending, s), Get(h.beacon.committee, s))
    {
      ShardSideStep(f, g, insts, s);
    }
  }

  lemma OtherSidesStep(f: Fold, g: Fold, insts: seq<Instruction>)
    requires insts != [] && OtherSides(f, g, insts[..|insts| - 1]) && Apply(g, insts[|insts| - 1]).Ok?
    ensures OtherSides(f, Apply(g, insts[|insts| - 1]).value, insts)
  {
  }

  // What one instruction does to the lists of one shard.
  lemma ApplyToShard(g: Fold, i: Instruction, s: Shard)
    requires Apply(g, i).Ok?
    ensures var h := Apply(g, i).value;
            Replayed(Get(h.beacon.pending, s), Get(h.beacon.committee, s)) ==
            if i.SwapShard? && i.shard == s
            then ReplaySwap(Get(g.beacon.pending, s), Get(g.beacon.committee, s), i.incoming, i.out)
            else Replayed(Get(g.beacon.pending, s), Get(g.beacon.committee, s))
  {
  }

  lemma BeaconSideStep(f: Fold, g: Fold, insts: seq<Instruction>)
    requires insts != [] && Apply(g, insts[|insts| - 1]).Ok?
    requires ReplayAll(f.beacon.beaconPending, f.beacon.beaconCommittee, BeaconSwaps(insts[..|insts| - 1]))
             == Replayed(g.beacon.beaconPending, g.beacon.beaconCommittee)
    ensures var h := Apply(g, insts[|insts| - 1]).value;
            ReplayAll(f.beacon.beaconPending, f.beacon.beaconCommittee, BeaconSwaps(insts))
            == Replayed(h.beacon.beaconPending, h.beacon.beaconCommittee)
  {
    var front, last := insts[..|insts| - 1], insts[|insts| - 1];
    if last.SwapBeacon? {
      ReplayOneMore(f.beacon.beaconPending, f.beacon.beaconCommittee, BeaconSwaps(front), last);
    }
  }

  lemma ShardSideStep(f: Fold, g: Fold, insts: seq<Instruction>, s: Shard)
    requires insts != [] && Apply(g, insts[|insts| - 1]).Ok?
    requires ReplayAll(Get(f.beacon.pending, s), Get(f.beacon.committee, s), SwapsOf(insts[..|insts| - 1], s))
             == Replayed(Get(g.beacon.pending, s), Get(g.beacon.committee, s))
    ensures var h := Apply(g, insts[|insts| - 1]).value;
            ReplayAll(Get(f.beacon.pending, s), Get(f.beacon.committee, s), SwapsOf(insts, s))
            == Replayed(Get(h.beacon.pending, s), Get(h.beacon.committee, s))
  {
    var front, last := insts[..|insts| - 1], insts[|insts| - 1];
    ApplyToShard(g, last, s);
    if last.SwapShard? && last.shard == s {
      ReplayOneMore(Get(f.beacon.pending, s), Get(f.beacon.committee, s), SwapsOf(front, s), last);
    }
  }

  // The replays of a front part succeed when those of the whole do.
  lemma ShardFront(pending: seq<Key>, committee: seq<Key>, insts: seq<Instruction>, s: Shard)
    requires insts != [] && ReplayAll(pending, committee, SwapsOf(insts, s)).Replayed?
    ensures ReplayAll(pending, committee, SwapsOf(insts[..|insts| - 1], s)).Replayed?
  {
    var front, last := insts[..|insts| - 1], insts[|insts| - 1];
    if last.SwapShard? && last.shard == s {
      ReplayOneMore(pending, committee, SwapsOf(front, s), last);
    }
  }

  lemma BeaconFront(pending: seq<Key>, committee: seq<Key>, insts: seq<Instruction>)
    requires insts != [] && ReplayAll(pending, committee, BeaconSwaps(insts)).Replayed?
    ensures ReplayAll(pending, committee, BeaconSwaps(insts[..|insts| - 1])).Replayed?
  {
    var front, last := insts[..|insts| - 1], insts[|insts| - 1];
    if last.SwapBeacon? {
      ReplayOneMore(pending, committee, BeaconSwaps(front), last);
    }
  }

  ghost predicate SidesOk(f: Fold, insts: seq<Instruction>) {
    && (forall s :: ReplayAll(Get(f.beacon.pending, s), Get(f.beacon.committee, s), SwapsOf(insts, s)).Replayed?)
    && ReplayAll(f.beacon.beaconPending, f.beacon.beaconCommittee, BeaconSwaps(insts)).Replayed?
  }

  lemma {:induction false} AcceptedBySides(f: Fold, insts: seq<Instruction>)
    requires ApplyAll(f, insts).Ok?
    ensures Sides(f, ApplyAll(f, insts).value, insts)
  {
    if insts != [] {
      AcceptedBySides(f, insts[..|insts| - 1]);
      SidesStep(f, ApplyAll(f, insts[..|insts| - 1]).value, insts);
    }
  }

  lemma SidesOkFront(f: Fold, insts: seq<Instruction>)
    requires insts != [] && SidesOk(f, insts)
    ensures SidesOk(f, insts[..|insts| - 1])
  {
    forall s
      ensures ReplayAll(Get(f.beacon.pending, s), Get(f.beacon.committee, s),
                        SwapsOf(insts[..|insts| - 1], s)).Replayed?
    {
      ShardFront(Get(f.beacon.pending, s), Get(f.beacon.committee, s), insts, s);
    }
    BeaconFront(f.beacon.beaconPending, f.beacon.beaconCommittee, insts);
  }

  lemma {:induction false} SidesAccepted(f: Fold, insts: seq<Instruction>)
    requires SidesOk(f, insts)
    ensures ApplyAll(f, insts).Ok?
  {
    if insts != [] {
      var front := insts[..|insts| - 1];
      SidesOkFront(f, insts);
      SidesAccepted(f, front);
      AcceptedBySides(f, front);
      LastAccepted(f, ApplyAll(f, front).value, insts);
    }
  }

  /** A block's instructions are accepted exactly when every shard's swaps and the beacon's own can be replayed in
      turn, and then each side ends up as if replayed alone. */
  lemma ApplyBySides(f: Fold, insts: seq<Instruction>)
    ensures ApplyAll(f, insts).Ok? <==> SidesOk(f, insts)
    ensures ApplyAll(f, insts).Ok? ==> Sides(f, ApplyAll(f, insts).value, insts)
  {
    if ApplyAll(f, insts).Ok? {
      AcceptedBySides(f, insts);
    }
    if SidesOk(f, insts) {
      SidesAccepted(f, insts);
    }
  }

  lemma LastAccepted(f: Fold, g: Fold, insts: seq<Instruction>)
    requires insts != [] && Sides(f, g, insts[..|insts| - 1]) && SidesOk(f, insts)
    ensures Apply(g, insts[|insts| - 1]).Ok?
  {
    var front, last := insts[..|insts| - 1], insts[|insts| - 1];
    match last {
      case SwapShard(incoming, out, s) =>
        ReplayOneMore(Get(f.beacon.pending, s), Get(f.beacon.committee, s), SwapsOf(front, s), last);
      case SwapBeacon(incoming, out) =>
        ReplayOneMore(f.beacon.beaconPending, f.beacon.beaconCommittee, BeaconSwaps(front), last);
      case _ =>
    }
  }

  /** Assigning all candidates gives each shard exactly its own, in order. */
  lemma {:induction false} AssignBySides(pending: map<Shard, seq<Key>>, candidates: seq<Key>, random: int,
                                         shardOf: ShardOf, s: Shard)
    ensures Get(AssignAll(pending, candidates, random, shardOf), s)
            == Get(pending, s) + ForShard(candidates, random, s, shardOf)
  {
    if candidates != [] {
      AssignBySides(pending, candidates[..|candidates| - 1], random, shardOf, s);
    }
  }
}
