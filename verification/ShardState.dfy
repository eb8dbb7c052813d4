// A shard's best state: the assign and swap parts of Update in blockchain/shardprocess.go, and how a producer builds
// a block in blockchain/shardproducer.go with the helpers of blockchain/shardutils.go.
module ShardState {
  import opened Common
  import opened Committee
  import opened BeaconState
  import opened Instructions

  datatype Lists = Lists(pending: seq<Key>, committee: seq<Key>)

  // The keys that a run of beacon blocks assigns to shard s.
  function AssignedIn(blocks: seq<seq<Instruction>>, s: Shard): (r: seq<Key>) {
    if blocks == [] then [] else AssignedIn(blocks[..|blocks| - 1], s) + AssignedTo(blocks[|blocks| - 1], s)
  }

  lemma AssignedOneMore(chain: seq<seq<Instruction>>, block: seq<Instruction>, s: Shard)
    ensures AssignedIn(chain + [block], s) == AssignedIn(chain, s) + AssignedTo(block, s)
  {
    assert (chain + [block])[..|chain|] == chain;
  }

  lemma {:induction false} AssignedAppend(a: seq<seq<Instruction>>, b: seq<seq<Instruction>>, s: Shard)
    ensures AssignedIn(a + b, s) == AssignedIn(a, s) + AssignedIn(b, s)
  {
    if b == [] {
      assert a + b == a;
    } else {
      var front, last := b[..|b| - 1], b[|b| - 1];
      AssignedAppend(a, front, s);
      AppendLast(a, front, last, s);
      assert b == front + [last];
    }
  }

  lemma AppendLast(a: seq<seq<Instruction>>, b: seq<seq<Instruction>>, last: seq<Instruction>, s: Shard)
    requires AssignedIn(a + b, s) == AssignedIn(a, s) + AssignedIn(b, s)
    ensures AssignedIn(a + (b + [last]), s) == AssignedIn(a, s) + AssignedIn(b + [last], s)
  {
    var t := AssignedTo(last, s);
    calc {
      AssignedIn(a + (b + [last]), s);
      { assert a + (b + [last]) == (a + b) + [last]; }
      AssignedIn((a + b) + [last], s);
      { AssignedOneMore(a + b, last, s); }
      AssignedIn(a + b, s) + t;
      { Regroup(AssignedIn(a, s), AssignedIn(b, s), t); }
      AssignedIn(a, s) + (AssignedIn(b, s) + t);
      { AssignedOneMore(b, last, s); }
      AssignedIn(a, s) + AssignedIn(b + [last], s);
    }
  }

  lemma Regroup(a: seq<Key>, b: seq<Key>, c: seq<Key>)
    ensures (a + b) + c == a + (b + c)
  {
  }

  // One swap instruction: the shard makes the swap itself and compares the keys.
  function SwapOnce(l: Lists, i: Instruction, size: nat): (r: Outcome<Lists>) {
    if !(i.SwapShard? || i.SwapBeacon?) then Ok(l)
    else
      var r := Swap(l.pending, l.committee, size, OFFSET);
      if r.Panics? || r.err != Fine then Err
      else if Resplit(i.out) != r.out || Resplit(i.incoming) != r.incoming then Err
      else Ok(Lists(r.pending, r.committee))
  }

  function SwapEach(l: Lists, insts: seq<Instruction>, size: nat): (r: Outcome<Lists>) {
    if insts == [] then Ok(l)
    else
      var before := SwapEach(l, insts[..|insts| - 1], size);
      if before.Err? then Err else SwapOnce(before.value, insts[|insts| - 1], size)
  }

  /** Update: assigned keys join the pending list, then the block's swaps are made. */
  function UpdateShard(l: Lists, beaconBlocks: seq<seq<Instruction>>, insts: seq<Instruction>, s: Shard,
                       size: nat): (r: Outcome<Lists>) {
    SwapEach(l.(pending := l.pending + AssignedIn(beaconBlocks, s)), insts, size)
  }

  /** The lists of a shard as an object that blocks rewrite. */
  class BestStateShard {
    var pending: seq<Key>
    var committee: seq<Key>
    const size: nat
    const shard: Shard

    ghost function Now(): (l: Lists)
      reads this
    {
      Lists(pending, committee)
    }

    constructor (l: Lists, size: nat, shard: Shard)
      ensures Now() == l && this.size == size && this.shard == shard
    {
      pending, committee := l.pending, l.committee;
      this.size, this.shard := size, shard;
    }

    method UpdateWith(beaconBlocks: seq<seq<Instruction>>, insts: seq<Instruction>) returns (ok: bool)
      modifies this
      ensures ok <==> UpdateShard(old(Now()), beaconBlocks, insts, shard, size).Ok?
      ensures ok ==> Now() == UpdateShard(old(Now()), beaconBlocks, insts, shard, size).value
    {
      for k := 0 to |beaconBlocks|
        invariant pending == old(pending) + AssignedIn(beaconBlocks[..k], shard) && committee == old(committee)
      {
        assert beaconBlocks[..k + 1][..k] == beaconBlocks[..k];
        var keys := ReadAssigned(beaconBlocks[k], shard);
        pending := pending + keys;
      }
      assert beaconBlocks[..|beaconBlocks|] == beaconBlocks;
      ghost var start := Now();
      for i := 0 to |insts|
        invariant SwapEach(start, insts[..i], size) == Ok(Now())
      {
        assert insts[..i + 1][..i] == insts[..i];
        if insts[i].SwapShard? || insts[i].SwapBeacon? {
          var r := SwapValidator(pending, committee, size, OFFSET);
          if r.Panics? || r.err != Fine || Resplit(insts[i].out) != r.out || Resplit(insts[i].incoming) != r.incoming {
            SwapErrorStays(start, insts, i + 1, size);
            return false;
          }
          pending, committee := r.pending, r.committee;
        }
      }
      assert insts[..|insts|] == insts;
      ok := true;
    }
  }

  lemma {:induction false} SwapErrorStays(l: Lists, insts: seq<Instruction>, n: nat, size: nat)
    requires n <= |insts| && SwapEach(l, insts[..n], size).Err?
    ensures SwapEach(l, insts, size).Err?
    decreases |insts| - n
  {
    if n == |insts| {
      assert insts[..n] == insts;
    } else {
      assert insts[..n + 1][..n] == insts[..n];
      SwapErrorStays(l, insts, n + 1, size);
    }
  }

  // ---------------------------------------------------------------------------------------------
  // Producing a block
  // ---------------------------------------------------------------------------------------------

  /** The instructions of a new shard block that refers to the given beacon height: a swap when that height ends an
      epoch and somebody is pending. */
  function NewBlock(l: Lists, beaconBlocks: seq<seq<Instruction>>, beaconHeight: nat, s: Shard,
                    size: nat): (r: Outcome<seq<Instruction>>) {
    var pending := l.pending + AssignedIn(beaconBlocks, s);
    if beaconHeight % EPOCH != 0 || pending == [] then Ok([])
    else
      var r := Swap(pending, l.committee, size, OFFSET);
      if r.Panics? || r.err != Fine then Err else Ok([SwapShard(r.incoming, r.out, s)])
  }

  /** The block swaps when it refers to the last beacon block of an epoch and somebody waits, and only then: the first
      who waits joins, and the first of a full committee leaves. */
  predicate SwapsInTime(committee: seq<Key>, waiting: seq<Key>, beaconHeight: nat, s: Shard, size: nat,
                        block: seq<Instruction>) {
    && (block != [] <==> beaconHeight % 10 == 0 && waiting != [])
    && (block != [] ==>
          block == [SwapShard([waiting[0]], if committee != [] && |committee| == size then [committee[0]] else [], s)])
  }

  lemma SwapTimes(l: Lists, beaconBlocks: seq<seq<Instruction>>, beaconHeight: nat, s: Shard, size: nat)
    ensures 1 <= size && |l.committee| <= size ==>
              var block := NewBlock(l, beaconBlocks, beaconHeight, s, size);
              block.Ok? &&
              SwapsInTime(l.committee, l.pending + AssignedIn(beaconBlocks, s), beaconHeight, s, size, block.value)
  {
    var waiting := l.pending + AssignedIn(beaconBlocks, s);
    if 1 <= size && |l.committee| <= size && waiting != [] {
      OneSwapped(waiting, l.committee, size);
    }
  }

  method ReadAssigned(insts: seq<Instruction>, s: Shard) returns (keys: seq<Key>)
    ensures keys == AssignedTo(insts, s)
  {
    keys := [];
    for i := 0 to |insts|
      invariant keys == AssignedTo(insts[..i], s)
    {
      assert insts[..i + 1][..i] == insts[..i];
      if insts[i].Assign? && insts[i].shard == s {
        keys := keys + Resplit(insts[i].keys);
      }
    }
    assert insts[..|insts|] == insts;
  }

  method CreateBlock(l: Lists, beaconBlocks: seq<seq<Instruction>>, beaconHeight: nat, s: Shard, size: nat)
    returns (r: Outcome<seq<Instruction>>)
    ensures r == NewBlock(l, beaconBlocks, beaconHeight, s, size)
    ensures 1 <= size && |l.committee| <= size ==>
              r.Ok? && SwapsInTime(l.committee, l.pending + AssignedIn(beaconBlocks, s), beaconHeight, s, size, r.value)
  {
    SwapTimes(l, beaconBlocks, beaconHeight, s, size);
    var pending := l.pending;
    for k := 0 to |beaconBlocks|
      invariant pending == l.pending + AssignedIn(beaconBlocks[..k], s)
    {
      assert beaconBlocks[..k + 1][..k] == beaconBlocks[..k];
      var keys := ReadAssigned(beaconBlocks[k], s);
      pending := pending + keys;
    }
    assert beaconBlocks[..|beaconBlocks|] == beaconBlocks;
    if beaconHeight % EPOCH == 0 {
      if |pending| > 0 {
        var swap := SwapValidator(pending, l.committee, size, OFFSET);
        if swap.Panics? || swap.err != Fine {
          return Err;
        }
        return Ok([SwapShard(swap.incoming, swap.out, s)]);
      }
    }
    return Ok([]);
  }

  /** A producer's block is accepted by Update exactly when it holds no swap or the committee was full: with room in
      the committee nobody leaves, and the empty list does not survive being written as text. */
  lemma OwnBlockAccepted(l: Lists, beaconBlocks: seq<seq<Instruction>>, beaconHeight: nat, s: Shard, size: nat)
    requires |l.committee| <= size && NewBlock(l, beaconBlocks, beaconHeight, s, size).Ok?
    ensures var insts := NewBlock(l, beaconBlocks, beaconHeight, s, size).value;
            UpdateShard(l, beaconBlocks, insts, s, size).Ok? <==> insts == [] || |l.committee| == size
  {
    var insts := NewBlock(l, beaconBlocks, beaconHeight, s, size).value;
    if insts != [] {
      var start := l.(pending := l.pending + AssignedIn(beaconBlocks, s));
      assert insts[..0] == [];
      assert SwapEach(start, insts, size) == SwapOnce(start, insts[0], size);
    }
  }

  /** Update accepts a swap of a full committee exactly when it names the first who waits and the first who serves, and
      then makes that swap. */
  lemma OnlyRightSwapAccepted(l: Lists, beaconBlocks: seq<seq<Instruction>>, i: Instruction, s: Shard, size: nat)
    requires |l.committee| == size >= 1 && i.SwapShard?
    ensures var r, waiting := UpdateShard(l, beaconBlocks, [i], s, size), l.pending + AssignedIn(beaconBlocks, s);
            && (r.Ok? <==> waiting != [] && Resplit(i.incoming) == [waiting[0]] && Resplit(i.out) == [l.committee[0]])
            && (r.Ok? ==> r.value == Lists(waiting[1..], l.committee[1..] + [waiting[0]]))
  {
    var waiting := l.pending + AssignedIn(beaconBlocks, s);
    var start := l.(pending := waiting);
    assert [i][..0] == [];
    assert SwapEach(start, [i], size) == SwapOnce(start, i, size);
    if waiting != [] {
      OneSwapped(waiting, l.committee, size);
      var c := Swap(waiting, l.committee, size, OFFSET).committee;
      assert c == ([l.committee[0]] + c)[1..] == (l.committee + [waiting[0]])[1..] == l.committee[1..] + [waiting[0]];
    }
  }

  // Room for one key and one key pending: the producer builds a block that its own Update refuses.
  lemma OwnBlockRefused(s: Shard)
    ensures var l := Lists([Key(1)], []);
            && NewBlock(l, [], EPOCH, s, 1) == Ok([SwapShard([Key(1)], [], s)])
            && UpdateShard(l, [], [SwapShard([Key(1)], [], s)], s, 1).Err?
  {
    var l := Lists([Key(1)], []);
    assert l.pending + AssignedIn([], s) == [Key(1)];
    FillingSwap([Key(1)], [], 1, 1);
    OwnBlockAccepted(l, [], EPOCH, s, 1);
  }
}
