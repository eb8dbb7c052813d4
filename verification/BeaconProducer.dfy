// The instructions of a beacon block: GenerateInstruction of blockchain/beaconproducer.go.
module BeaconProducer {
  import opened Common
  import opened Committee
  import opened BeaconState
  import opened Instructions

  function SwapsAt(swaps: map<Shard, seq<Instruction>>, s: Shard): (l: seq<Instruction>) {
    if s in swaps then swaps[s] else []
  }

  // After the snapshot of an epoch, until a block has brought the random number.
  predicate RandomDue(b: Beacon, height: nat) { height % EPOCH > RANDOM_TIME && !b.gotRandom }

  // At the end of an epoch the beacon swaps its own committee.
  function OwnSwap(b: Beacon, height: nat, size: nat): (l: seq<Instruction>) {
    if height % EPOCH != 0 then []
    else
      var r := Swap(b.beaconPending, b.beaconCommittee, size, OFFSET);
      if r.Panics? || (r.out == [] && r.incoming == []) then [] else [SwapBeacon(r.incoming, r.out)]
  }

  /** What a produced block holds: the collected swaps of each shard in order, the stakes, the beacon's own swap at
      the end of an epoch, and, when due, one random number with every waiting candidate groups to its shard. */
  ghost predicate Produced(b: Beacon, height: nat, insts: seq<Instruction>, swaps: map<Shard, seq<Instruction>>,
                           stakes: seq<Key>, size: nat, nonce: int, shardOf: ShardOf) {
    && (forall s :: SwapsOf(insts, s) == SwapsAt(swaps, s))
    && BeaconSwaps(insts) == OwnSwap(b, height, size)
    && StakedBy(insts) == stakes
    && Randoms(insts) == (if RandomDue(b, height) then [Random(nonce)] else [])
    && (forall s ::
          AssignedTo(insts, s) == if RandomDue(b, height) then ForShard(b.currentRandom, nonce, s, shardOf) else [])
  }

  // The sides of a list after one more instruction.
  lemma OnlyOneMore(insts: seq<Instruction>, i: Instruction, side: Side)
    ensures Only(insts + [i], side) == Only(insts, side) + (if Belongs(i, side) then [i] else [])
  {
    assert (insts + [i])[..|insts|] == insts;
  }

  lemma KeysOneMore(insts: seq<Instruction>, i: Instruction, source: Source)
    ensures Keys(insts + [i], source) == Keys(insts, source) + KeysOf(i, source)
  {
    assert (insts + [i])[..|insts|] == insts;
  }

  // Swaps of one shard and nothing else.
  predicate SwapsFor(l: seq<Instruction>, s: Shard) { forall i :: 0 <= i < |l| ==> l[i].SwapShard? && l[i].shard == s }

  predicate NoSides(l: seq<Instruction>) { forall i :: 0 <= i < |l| ==> l[i].Other? }

  predicate StakesOnly(l: seq<Instruction>) { forall i :: 0 <= i < |l| ==> l[i].StakeShard? || l[i].StakeBeacon? }

  lemma {:induction false} OnlySwaps(l: seq<Instruction>, t: Shard, side: Side)
    requires SwapsFor(l, t)
    ensures Only(l, side) == if side == ShardSwaps(t) then l else []
  {
    if l != [] {
      OnlySwaps(l[..|l| - 1], t, side);
      assert l == l[..|l| - 1] + [l[|l| - 1]];
    }
  }

  lemma {:induction false} NothingElse(l: seq<Instruction>, side: Side)
    requires NoSides(l) || StakesOnly(l)
    ensures Only(l, side) == []
  {
    if l != [] {
      NothingElse(l[..|l| - 1], side);
    }
  }

  lemma {:induction false} NoKeys(l: seq<Instruction>, source: Source)
    requires forall i :: 0 <= i < |l| ==> KeysOf(l[i], source) == []
    ensures Keys(l, source) == []
  {
    if l != [] {
      NoKeys(l[..|l| - 1], source);
    }
  }

  ghost predicate Collected(insts: seq<Instruction>, swaps: map<Shard, seq<Instruction>>, todo: set<Shard>) {
    && (forall s :: SwapsOf(insts, s) == if s in todo then [] else SwapsAt(swaps, s))
    && BeaconSwaps(insts) == [] && Randoms(insts) == []
    && StakedBy(insts) == [] && forall s :: AssignedTo(insts, s) == []
  }

  lemma CollectStep(insts: seq<Instruction>, swaps: map<Shard, seq<Instruction>>, todo: set<Shard>, t: Shard)
    requires Collected(insts, swaps, todo) && t in todo && t in swaps && SwapsFor(swaps[t], t)
    ensures Collected(insts + swaps[t], swaps, todo - {t})
  {
    AddSwaps(insts, swaps[t], t);
    assert forall s :: AssignedTo(insts + swaps[t], s) == AssignedTo(insts, s) == [];
  }

  lemma AddSwaps(insts: seq<Instruction>, l: seq<Instruction>, t: Shard)
    requires SwapsFor(l, t)
    ensures forall s :: SwapsOf(insts + l, s) == SwapsOf(insts, s) + (if s == t then l else [])
    ensures BeaconSwaps(insts + l) == BeaconSwaps(insts) && Randoms(insts + l) == Randoms(insts)
    ensures StakedBy(insts + l) == StakedBy(insts)
    ensures forall s :: AssignedTo(insts + l, s) == AssignedTo(insts, s)
  {
    forall s
      ensures SwapsOf(insts + l, s) == SwapsOf(insts, s) + (if s == t then l else [])
      ensures AssignedTo(insts + l, s) == AssignedTo(insts, s)
    {
      OnlyAppend(insts, l, ShardSwaps(s));
      OnlySwaps(l, t, ShardSwaps(s));
      KeysAppend(insts, l, AssignedKeys(s));
      NoKeys(l, AssignedKeys(s));
    }
    OnlyAppend(insts, l, OwnSwaps);
    OnlySwaps(l, t, OwnSwaps);
    OnlyAppend(insts, l, RandomNumbers);
    OnlySwaps(l, t, RandomNumbers);
    KeysAppend(insts, l, Stakes);
    NoKeys(l, Stakes);
  }

  lemma CollectNone(l: seq<Instruction>, swaps: map<Shard, seq<Instruction>>)
    requires NoSides(l)
    ensures Collected(l, swaps, swaps.Keys)
  {
    forall s ensures SwapsOf(l, s) == [] && AssignedTo(l, s) == [] {
      NothingElse(l, ShardSwaps(s));
      NoKeys(l, AssignedKeys(s));
    }
    NothingElse(l, OwnSwaps);
    NothingElse(l, RandomNumbers);
    NoKeys(l, Stakes);
  }

  method CollectSwaps(insts0: seq<Instruction>, swaps: map<Shard, seq<Instruction>>) returns (insts: seq<Instruction>)
    requires NoSides(insts0) && forall s :: s in swaps ==> SwapsFor(swaps[s], s)
    ensures Collected(insts, swaps, {})
  {
    insts := insts0;
    CollectNone(insts, swaps);
    var todo := swaps.Keys;
    while todo != {}
      invariant todo <= swaps.Keys && Collected(insts, swaps, todo)
      decreases todo
    {
      var s :| s in todo;
      CollectStep(insts, swaps, todo, s);
      insts := insts + swaps[s];
      todo := todo - {s};
    }
  }

  method GroupByShard(candidates: seq<Key>, rand: int, shardOf: ShardOf) returns (m: map<Shard, seq<Key>>)
    ensures forall s :: Get(m, s) == ForShard(candidates, rand, s, shardOf)
    ensures forall s :: s in m ==> m[s] != []
  {
    m := map[];
    for i := 0 to |candidates|
      invariant forall s :: Get(m, s) == ForShard(candidates[..i], rand, s, shardOf)
      invariant forall s :: s in m ==> m[s] != []
    {
      var s := shardOf(candidates[i], rand);
      assert candidates[..i + 1][..i] == candidates[..i];
      m := m[s := Get(m, s) + [candidates[i]]];
    }
    assert candidates[..|candidates|] == candidates;
  }

  ghost predicate Assigned(insts: seq<Instruction>, insts0: seq<Instruction>, m: map<Shard, seq<Key>>,
                           todo: set<Shard>) {
    && (forall s :: SwapsOf(insts, s) == SwapsOf(insts0, s))
    && BeaconSwaps(insts) == BeaconSwaps(insts0) && Randoms(insts) == Randoms(insts0)
    && (forall s :: AssignedTo(insts, s) == if s in todo then [] else Get(m, s))
    && StakedBy(insts) == StakedBy(insts0)
  }

  lemma AssignStep(insts: seq<Instruction>, insts0: seq<Instruction>, m: map<Shard, seq<Key>>, todo: set<Shard>,
                   t: Shard)
    requires Assigned(insts, insts0, m, todo) && t in todo && t in m && m[t] != []
    ensures Assigned(insts + [Assign(m[t], t)], insts0, m, todo - {t})
  {
    var i := Assign(m[t], t);
    forall s
      ensures SwapsOf(insts + [i], s) == SwapsOf(insts, s)
      ensures AssignedTo(insts + [i], s) == AssignedTo(insts, s) + (if s == t then m[t] else [])
    {
      OnlyOneMore(insts, i, ShardSwaps(s));
      KeysOneMore(insts, i, AssignedKeys(s));
    }
    OnlyOneMore(insts, i, OwnSwaps);
    OnlyOneMore(insts, i, RandomNumbers);
    KeysOneMore(insts, i, Stakes);
  }

  method AppendAssigns(insts0: seq<Instruction>, m: map<Shard, seq<Key>>) returns (insts: seq<Instruction>)
    requires (forall s :: s in m ==> m[s] != []) && forall s :: AssignedTo(insts0, s) == []
    ensures Assigned(insts, insts0, m, {})
  {
    insts := insts0;
    var todo := m.Keys;
    while todo != {}
      invariant todo <= m.Keys && Assigned(insts, insts0, m, todo)
      decreases todo
    {
      var s :| s in todo;
      AssignStep(insts, insts0, m, todo, s);
      insts := insts + [Assign(m[s], s)];
      todo := todo - {s};
    }
  }

  // The beacon's own swap, if this block brings one.
  method SwapOwnCommittee(b: Beacon, height: nat, size: nat) returns (own: seq<Instruction>)
    requires |b.beaconCommittee| <= size
    ensures own == OwnSwap(b, height, size)
    ensures own != [] ==> |own| == 1 && own[0].SwapBeacon?
  {
    own := [];
    if height % EPOCH == 0 {
      var r := SwapValidator(b.beaconPending, b.beaconCommittee, size, OFFSET);
      if |r.out| > 0 || |r.incoming| > 0 {
        own := [SwapBeacon(r.incoming, r.out)];
      }
    }
  }

  /** GenerateInstruction: `nonce` is the random number of this block, if it brings one. */
  method GenerateInstruction(b: Beacon, height: nat, stakers: seq<Instruction>, swaps: map<Shard, seq<Instruction>>,
                             stability: seq<Instruction>, size: nat, nonce: int, shardOf: ShardOf)
    returns (insts: seq<Instruction>)
    requires NoSides(stability) && StakesOnly(stakers) && forall s :: s in swaps ==> SwapsFor(swaps[s], s)
    requires |b.beaconCommittee| <= size
    ensures Produced(b, height, insts, swaps, StakedBy(stakers), size, nonce, shardOf)
    ensures size >= 1 ==> OwnSwapInTime(b.beaconPending, b.beaconCommittee, height, size, insts)
  {
    insts := CollectSwaps(stability, swaps);
    assert Content(insts, swaps, [], [], [], map[]);
    var own := SwapOwnCommittee(b, height, size);
    if own != [] {
      ContentOne(insts, own[0], swaps, [], [], []);
      insts := insts + [own[0]];
    }
    ContentStakes(insts, stakers, swaps, own);
    insts := insts + stakers;
    if height % EPOCH > RANDOM_TIME && !b.gotRandom {
      ContentOne(insts, Random(nonce), swaps, own, StakedBy(stakers), []);
      insts := insts + [Random(nonce)];
      var groups := GroupByShard(b.currentRandom, nonce, shardOf);
      ghost var before := insts;
      insts := AppendAssigns(insts, groups);
      ContentAssigned(before, insts, swaps, own, StakedBy(stakers), [Random(nonce)], groups);
    }
    InTime(b, height, insts, size);
  }

  lemma InTime(b: Beacon, height: nat, insts: seq<Instruction>, size: nat)
    requires |b.beaconCommittee| <= size && BeaconSwaps(insts) == OwnSwap(b, height, size)
    ensures size >= 1 ==> OwnSwapInTime(b.beaconPending, b.beaconCommittee, height, size, insts)
  {
    if size >= 1 {
      OwnSwapTimes(b, height, size);
      HeldOnce(insts, OwnSwaps);
      assert forall i :: 0 <= i < |insts| ==> (Belongs(insts[i], OwnSwaps) <==> insts[i].SwapBeacon?);
    }
  }

  /** A block holds a swap of the beacon's committee when its height ends an epoch and somebody waits, and only then:
      one swap, in which the first who waits joins and the first of a full committee leaves. */
  ghost predicate OwnSwapInTime(pending: seq<Key>, committee: seq<Key>, height: nat, size: nat,
                                insts: seq<Instruction>) {
    && ((exists i :: 0 <= i < |insts| && insts[i].SwapBeacon?) <==> height % 10 == 0 && pending != [])
    && (forall i :: 0 <= i < |insts| && insts[i].SwapBeacon? ==>
          pending != [] &&
          insts[i] == SwapBeacon([pending[0]], if committee != [] && |committee| == size then [committee[0]] else []))
    && forall i, j :: 0 <= i < j < |insts| ==> !(insts[i].SwapBeacon? && insts[j].SwapBeacon?)
  }

  lemma OwnSwapTimes(b: Beacon, height: nat, size: nat)
    requires |b.beaconCommittee| <= size && size >= 1
    ensures var l, pending, committee := OwnSwap(b, height, size), b.beaconPending, b.beaconCommittee;
            && (l != [] <==> height % 10 == 0 && pending != [])
            && (l != [] ==> l == [SwapBeacon([pending[0]], if |committee| == size then [committee[0]] else [])])
  {
    if b.beaconPending != [] {
      OneSwapped(b.beaconPending, b.beaconCommittee, size);
    }
  }

  // What a side of a list holds, seen in the list: nothing, or one instruction at one place.
  ghost predicate AtOnePlace(insts: seq<Instruction>, side: Side, held: seq<Instruction>) {
    && ((exists i :: 0 <= i < |insts| && Belongs(insts[i], side)) <==> held != [])
    && (forall i :: 0 <= i < |insts| && Belongs(insts[i], side) ==> [insts[i]] == held)
    && forall i, j :: 0 <= i < j < |insts| ==> !(Belongs(insts[i], side) && Belongs(insts[j], side))
  }

  lemma OnePlaceMore(insts: seq<Instruction>, last: Instruction, side: Side, held: seq<Instruction>)
    requires AtOnePlace(insts, side, held) && (Belongs(last, side) ==> held == [])
    ensures AtOnePlace(insts + [last], side, if Belongs(last, side) then [last] else held)
  {
    var all := insts + [last];
    if i :| 0 <= i < |insts| && Belongs(insts[i], side) {
      assert Belongs(all[i], side);
    }
    assert all[|insts|] == last;
  }

  lemma {:induction false} HeldOnce(insts: seq<Instruction>, side: Side)
    requires |Only(insts, side)| <= 1
    ensures AtOnePlace(insts, side, Only(insts, side))
  {
    if insts != [] {
      var front, last := insts[..|insts| - 1], insts[|insts| - 1];
      HeldOnce(front, side);
      OnePlaceMore(front, last, side, Only(front, side));
      assert insts == front + [last];
    }
  }

  // All sides of a list at once.
  ghost predicate Content(insts: seq<Instruction>, swaps: map<Shard, seq<Instruction>>, own: seq<Instruction>,
                          stakes: seq<Key>, randoms: seq<Instruction>, groups: map<Shard, seq<Key>>) {
    && (forall s :: SwapsOf(insts, s) == SwapsAt(swaps, s))
    && BeaconSwaps(insts) == own && StakedBy(insts) == stakes && Randoms(insts) == randoms
    && (forall s :: AssignedTo(insts, s) == Get(groups, s))
  }

  lemma ContentOne(insts: seq<Instruction>, i: Instruction, swaps: map<Shard, seq<Instruction>>, own: seq<Instruction>,
                   stakes: seq<Key>, randoms: seq<Instruction>)
    requires Content(insts, swaps, own, stakes, randoms, map[]) && (i.SwapBeacon? || i.Random?)
    ensures Content(insts + [i], swaps, own + (if i.SwapBeacon? then [i] else []), stakes,
                    randoms + (if i.Random? then [i] else []), map[])
  {
    AddOne(insts, i);
  }

  lemma ContentStakes(insts: seq<Instruction>, l: seq<Instruction>, swaps: map<Shard, seq<Instruction>>,
                      own: seq<Instruction>)
    requires Content(insts, swaps, own, [], [], map[]) && StakesOnly(l)
    ensures Content(insts + l, swaps, own, StakedBy(l), [], map[])
  {
    AddStakes(insts, l);
  }

  lemma ContentAssigned(before: seq<Instruction>, insts: seq<Instruction>, swaps: map<Shard, seq<Instruction>>,
                        own: seq<Instruction>, stakes: seq<Key>, randoms: seq<Instruction>,
                        groups: map<Shard, seq<Key>>)
    requires Content(before, swaps, own, stakes, randoms, map[]) && Assigned(insts, before, groups, {})
    ensures Content(insts, swaps, own, stakes, randoms, groups)
  {
  }

  // A swap of the beacon or a random number leaves the other sides alone.
  lemma AddOne(insts: seq<Instruction>, i: Instruction)
    requires i.SwapBeacon? || i.Random?
    ensures forall s :: SwapsOf(insts + [i], s) == SwapsOf(insts, s)
    ensures BeaconSwaps(insts + [i]) == BeaconSwaps(insts) + (if i.SwapBeacon? then [i] else [])
    ensures Randoms(insts + [i]) == Randoms(insts) + (if i.Random? then [i] else [])
    ensures StakedBy(insts + [i]) == StakedBy(insts)
    ensures forall s :: AssignedTo(insts + [i], s) == AssignedTo(insts, s)
  {
    forall s
      ensures SwapsOf(insts + [i], s) == SwapsOf(insts, s) && AssignedTo(insts + [i], s) == AssignedTo(insts, s)
    {
      OnlyOneMore(insts, i, ShardSwaps(s));
      KeysOneMore(insts, i, AssignedKeys(s));
    }
    OnlyOneMore(insts, i, OwnSwaps);
    OnlyOneMore(insts, i, RandomNumbers);
    KeysOneMore(insts, i, Stakes);
  }

  lemma AddStakes(insts: seq<Instruction>, l: seq<Instruction>)
    requires StakesOnly(l)
    ensures forall s :: SwapsOf(insts + l, s) == SwapsOf(insts, s)
    ensures BeaconSwaps(insts + l) == BeaconSwaps(insts) && Randoms(insts + l) == Randoms(insts)
    ensures StakedBy(insts + l) == StakedBy(insts) + StakedBy(l)
    ensures forall s :: AssignedTo(insts + l, s) == AssignedTo(insts, s)
  {
    forall s ensures SwapsOf(insts + l, s) == SwapsOf(insts, s) && AssignedTo(insts + l, s) == AssignedTo(insts, s) {
      OnlyAppend(insts, l, ShardSwaps(s));
      NothingElse(l, ShardSwaps(s));
      KeysAppend(insts, l, AssignedKeys(s));
      NoKeys(l, AssignedKeys(s));
    }
    OnlyAppend(insts, l, OwnSwaps);
    NothingElse(l, OwnSwaps);
    OnlyAppend(insts, l, RandomNumbers);
    NothingElse(l, RandomNumbers);
    KeysAppend(insts, l, Stakes);
  }
}
