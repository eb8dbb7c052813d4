// The beacon's own candidates: ShuffleCandidate of blockchain/beaconprocess.go, and what Update does with its result.
// The shuffle goes through a map from digests to candidates, so it drops a repeated candidate and fixes no order.
module BeaconCandidates {
  import opened Committee
  import opened BeaconState
  import opened Instructions
  import opened BeaconProducer
  import C = Candidates
  import R = Rotation

  // The hash of a candidate together with a random number.
  type Digest = (Key, int) -> int

  function Table(candidates: seq<Key>, rand: int, digest: Digest): (m: map<int, Key>) {
    if candidates == [] then map[]
    else
      var last := candidates[|candidates| - 1];
      var before: map<int, Key> := Table(candidates[..|candidates| - 1], rand, digest);
      before[digest(last, rand) := last]
  }

  // The table has k, at one of the given digests.
  predicate Holds(m: map<int, Key>, at: set<int>, k: Key, rand: int, digest: Digest) {
    digest(k, rand) in at && digest(k, rand) in m && m[digest(k, rand)] == k
  }

  // Every candidate that the table has at these digests, once.
  ghost predicate Lists(out: seq<Key>, m: map<int, Key>, at: set<int>, rand: int, digest: Digest) {
    forall k :: C.Count(out, k) == if Holds(m, at, k, rand, digest) then 1 else 0
  }

  // A result of the shuffle: the entries of the table, in any order.
  ghost predicate Shuffled(out: seq<Key>, candidates: seq<Key>, rand: int, digest: Digest) {
    Lists(out, Table(candidates, rand, digest), Table(candidates, rand, digest).Keys, rand, digest)
  }

  lemma {:induction false} TableKeys(candidates: seq<Key>, rand: int, digest: Digest)
    ensures var m := Table(candidates, rand, digest);
            && (forall d :: d in m ==> digest(m[d], rand) == d && m[d] in candidates)
            && (forall k <- candidates :: digest(k, rand) in m)
  {
    if candidates != [] {
      TableKeys(candidates[..|candidates| - 1], rand, digest);
      assert candidates == candidates[..|candidates| - 1] + [candidates[|candidates| - 1]];
    }
  }

  /** Of several candidates with one digest the last is in the table. */
  lemma {:induction false} LastOfDigest(candidates: seq<Key>, i: nat, rand: int, digest: Digest)
    requires i < |candidates|
    requires forall j :: i < j < |candidates| ==> digest(candidates[j], rand) != digest(candidates[i], rand)
    ensures var m, d := Table(candidates, rand, digest), digest(candidates[i], rand); d in m && m[d] == candidates[i]
  {
    if i < |candidates| - 1 {
      var front := candidates[..|candidates| - 1];
      assert front[i] == candidates[i];
      assert digest(candidates[|candidates| - 1], rand) != digest(candidates[i], rand);
      LastOfDigest(front, i, rand, digest);
    }
  }

  lemma ListsOneMore(out: seq<Key>, m: map<int, Key>, at: set<int>, d: int, rand: int, digest: Digest)
    requires Lists(out, m, at, rand, digest) && d in m && d !in at && digest(m[d], rand) == d
    ensures Lists(out + [m[d]], m, at + {d}, rand, digest)
  {
    forall k ensures C.Count(out + [m[d]], k) == if Holds(m, at + {d}, k, rand, digest) then 1 else 0 {
      C.CountAppend(out, [m[d]], k);
      assert C.Count(out, k) == if Holds(m, at, k, rand, digest) then 1 else 0;
    }
  }

  /** ShuffleCandidate: the loop over the map meets the digests in any order. */
  method ShuffleCandidate(candidates: seq<Key>, rand: int, digest: Digest) returns (out: seq<Key>)
    ensures Shuffled(out, candidates, rand, digest)
  {
    var m: map<int, Key> := map[];
    for i := 0 to |candidates|
      invariant m == Table(candidates[..i], rand, digest)
    {
      assert candidates[..i + 1][..i] == candidates[..i];
      m := m[digest(candidates[i], rand) := candidates[i]];
    }
    assert candidates[..|candidates|] == candidates;
    TableKeys(candidates, rand, digest);
    out := [];
    var todo := m.Keys;
    while |todo| > 0
      invariant todo <= m.Keys && Lists(out, m, m.Keys - todo, rand, digest)
      decreases todo
    {
      Inhabited(todo);
      var d :| d in todo;
      ListsOneMore(out, m, m.Keys - todo, d, rand, digest);
      assert m.Keys - todo + {d} == m.Keys - (todo - {d});
      out, todo := out + [m[d]], todo - {d};
    }
    assert m.Keys - {} == m.Keys;
  }

  // ---------------------------------------------------------------------------------------------
  // What the shuffle keeps
  // ---------------------------------------------------------------------------------------------

  predicate DistinctDigests(candidates: seq<Key>, rand: int, digest: Digest) {
    forall i, j :: 0 <= i < j < |candidates| ==> digest(candidates[i], rand) != digest(candidates[j], rand)
  }

  // How often k is among the candidates and not in the table.
  function Dropped(candidates: seq<Key>, rand: int, digest: Digest, k: Key): (n: int) {
    var m := Table(candidates, rand, digest);
    C.Count(candidates, k) - if Holds(m, m.Keys, k, rand, digest) then 1 else 0
  }

  lemma NothingGained(candidates: seq<Key>, rand: int, digest: Digest, k: Key)
    ensures Dropped(candidates, rand, digest, k) >= 0
  {
    TableKeys(candidates, rand, digest);
    var m := Table(candidates, rand, digest);
    if Holds(m, m.Keys, k, rand, digest) {
      var d := digest(k, rand);
      assert d in m && m[d] == k;
      assert k in candidates;
    }
  }

  lemma {:induction false} NothingDropped(candidates: seq<Key>, rand: int, digest: Digest, k: Key)
    requires DistinctDigests(candidates, rand, digest)
    ensures Dropped(candidates, rand, digest, k) == 0
  {
    if candidates != [] {
      var front, last := candidates[..|candidates| - 1], candidates[|candidates| - 1];
      NothingDropped(front, rand, digest, k);
      TableKeys(front, rand, digest);
      assert candidates == front + [last];
      C.CountAppend(front, [last], k);
    }
  }

  lemma Inhabited(s: set<int>)
    requires |s| > 0
    ensures exists d :: d in s
  {
    assert !(exists d :: d in s) ==> s == {};
  }

  lemma Repeated(candidates: seq<Key>, i: nat, j: nat)
    requires i < j < |candidates|
    ensures candidates[i] == candidates[j] ==> C.Count(candidates, candidates[j]) >= 2
  {
    assert candidates == candidates[..j] + candidates[j..];
    assert candidates[i] in candidates[..j] && candidates[j] in candidates[j..];
    C.CountAppend(candidates[..j], candidates[j..], candidates[j]);
  }

  lemma SomeDropped(candidates: seq<Key>, i: nat, j: nat, rand: int, digest: Digest) returns (k: Key)
    requires i < j < |candidates| && digest(candidates[i], rand) == digest(candidates[j], rand)
    ensures Dropped(candidates, rand, digest, k) > 0
  {
    if candidates[i] == candidates[j] {
      Repeated(candidates, i, j);
      return candidates[j];
    }
    var m := Table(candidates, rand, digest);
    k := if Holds(m, m.Keys, candidates[i], rand, digest) then candidates[j] else candidates[i];
    assert k in candidates;
  }

  /** The shuffle keeps every candidate exactly when no two of the list have the same digest. */
  lemma ShuffleKeepsExactly(candidates: seq<Key>, rand: int, digest: Digest, out: seq<Key>)
    requires Shuffled(out, candidates, rand, digest)
    ensures multiset(out) == multiset(candidates) <==> DistinctDigests(candidates, rand, digest)
  {
    if DistinctDigests(candidates, rand, digest) {
      forall k ensures C.Count(out, k) == C.Count(candidates, k) {
        NothingDropped(candidates, rand, digest, k);
      }
      assert multiset(out) == multiset(candidates) by {
        assert forall k :: multiset(out)[k] == C.Count(out, k) && multiset(candidates)[k] == C.Count(candidates, k);
      }
    } else {
      var i, j :| 0 <= i < j < |candidates| && digest(candidates[i], rand) == digest(candidates[j], rand);
      var k := SomeDropped(candidates, i, j, rand, digest);
      assert C.Count(out, k) != C.Count(candidates, k);
    }
  }

  // ---------------------------------------------------------------------------------------------
  // One block, two nodes
  // ---------------------------------------------------------------------------------------------

  lemma {:induction false} SomeListing(m: map<int, Key>, at: set<int>, rand: int, digest: Digest)
    returns (out: seq<Key>)
    requires at <= m.Keys && forall d <- m :: digest(m[d], rand) == d
    ensures Lists(out, m, at, rand, digest) && |out| == |at|
    decreases |at|
  {
    out := [];
    if |at| > 0 {
      Inhabited(at);
      var d :| d in at;
      var rest := SomeListing(m, at - {d}, rand, digest);
      ListsOneMore(rest, m, at - {d}, d, rand, digest);
      assert at - {d} + {d} == at;
      out := rest + [m[d]];
    }
  }

  // With two entries in the table there are two results, each the other with its ends exchanged.
  lemma TwoResults(candidates: seq<Key>, rand: int, digest: Digest) returns (out: seq<Key>, other: seq<Key>)
    requires |Table(candidates, rand, digest)| >= 2
    ensures Shuffled(out, candidates, rand, digest) && Shuffled(other, candidates, rand, digest) && out != other
  {
    var m := Table(candidates, rand, digest);
    TableKeys(candidates, rand, digest);
    out := SomeListing(m, m.Keys, rand, digest);
    assert |out| == |m|;
    var a, b, rest := out[0], out[1], out[2..];
    assert out == [a] + ([b] + rest);
    other := [b] + ([a] + rest);
    assert multiset(out) == multiset(other);
    assert C.Count(out, b) <= 1;
    Repeated(out, 0, 1);
    forall k ensures C.Count(other, k) == if Holds(m, m.Keys, k, rand, digest) then 1 else 0 {
      assert C.Count(other, k) == C.Count(out, k);
    }
  }

  lemma OneResult(candidates: seq<Key>, rand: int, digest: Digest, out: seq<Key>, other: seq<Key>)
    requires |Table(candidates, rand, digest)| < 2
    requires Shuffled(out, candidates, rand, digest) && Shuffled(other, candidates, rand, digest)
    ensures out == other
  {
    OnlyEntry(candidates, rand, digest, out);
    OnlyEntry(candidates, rand, digest, other);
    var m := Table(candidates, rand, digest);
    if |m| > 0 {
      Inhabited(m.Keys);
      var d :| d in m;
      assert out == [m[d]] == other;
    }
  }

  lemma OnlyEntry(candidates: seq<Key>, rand: int, digest: Digest, out: seq<Key>)
    requires |Table(candidates, rand, digest)| < 2 && Shuffled(out, candidates, rand, digest)
    ensures var m := Table(candidates, rand, digest); (m == map[] ==> out == []) && forall d <- m :: out == [m[d]]
  {
    var m := Table(candidates, rand, digest);
    TableKeys(candidates, rand, digest);
    forall i | 0 <= i < |out| ensures Holds(m, m.Keys, out[i], rand, digest) {
      assert C.Count(out, out[i]) > 0;
    }
    forall d <- m ensures out == [m[d]] {
      assert Holds(m, m.Keys, m[d], rand, digest);
      assert C.Count(out, m[d]) == 1;
      assert m.Keys == {d} by {
        forall e <- m ensures e == d {
          Single(m.Keys, d, e);
        }
      }
      assert forall i :: 0 <= i < |out| ==> out[i] == m[d];
      if |out| > 1 {
        Repeated(out, 0, 1);
      }
    }
  }

  lemma Single(s: set<int>, d: int, e: int)
    requires |s| < 2 && d in s && e in s
    ensures e == d
  {
    assert |s - {d}| == |s| - 1;
    assert e != d ==> e in s - {d};
  }

  lemma TableOneMore(candidates: seq<Key>, last: Key, rand: int, digest: Digest)
    ensures Table(candidates + [last], rand, digest) == Table(candidates, rand, digest)[digest(last, rand) := last]
  {
    assert (candidates + [last])[..|candidates|] == candidates;
  }

  lemma TableOfTwo(a: Key, b: Key, rand: int, digest: Digest)
    ensures Table([a], rand, digest) == map[digest(a, rand) := a]
    ensures Table([a, b], rand, digest) == map[digest(a, rand) := a][digest(b, rand) := b]
  {
    TableOneMore([], a, rand, digest);
    assert [] + [a] == [a];
    TableOneMore([a], b, rand, digest);
    assert [a] + [b] == [a, b];
  }

  // Two candidates come out in either order.
  lemma TwoOrders(a: Key, b: Key, rand: int, digest: Digest)
    requires digest(a, rand) != digest(b, rand)
    ensures Shuffled([a, b], [a, b], rand, digest) && Shuffled([b, a], [a, b], rand, digest) && [a, b] != [b, a]
  {
    TableOfTwo(a, b, rand, digest);
    assert [a, b][0] != [b, a][0];
  }

  // A candidate named twice comes out once.
  lemma TwiceNamed(a: Key, rand: int, digest: Digest)
    ensures Shuffled([a], [a, a], rand, digest) && multiset([a]) != multiset([a, a])
  {
    TableOfTwo(a, a, rand, digest);
    assert multiset([a, a])[a] == 2;
  }

  // The candidates that the block of this fold shuffles.
  function ToShuffle(f: Fold): (l: seq<Key>) {
    var slot := f.beacon.height % EPOCH;
    if !f.random || slot < RANDOM_TIME then []
    else if slot == RANDOM_TIME then f.beacon.beaconNext + f.beaconStaked
    else f.beacon.beaconCurrent
  }

  // Any two results of the shuffle leave the same state.
  ghost predicate Agree(f: Fold, shardOf: ShardOf, digest: Digest) {
    forall one, two | Shuffled(one, ToShuffle(f), f.beacon.random, digest)
                      && Shuffled(two, ToShuffle(f), f.beacon.random, digest) ::
      Finish(f, one, shardOf) == Finish(f, two, shardOf)
  }

  lemma AgreeExactly(f: Fold, shardOf: ShardOf, digest: Digest)
    requires f.beacon.height > 1
    ensures Agree(f, shardOf, digest) <==> |Table(ToShuffle(f), f.beacon.random, digest)| < 2
  {
    var list, rand := ToShuffle(f), f.beacon.random;
    if |Table(list, rand, digest)| < 2 {
      forall one, two | Shuffled(one, list, rand, digest) && Shuffled(two, list, rand, digest)
        ensures Finish(f, one, shardOf) == Finish(f, two, shardOf)
      {
        OneResult(list, rand, digest, one, two);
      }
    } else {
      var one, two := TwoResults(list, rand, digest);
      PendingShows(f, one, two, shardOf);
    }
  }

  /** Two nodes with the same state that apply the same block are sure to agree on the next state exactly when the
      block shuffles candidates of fewer than two digests. */
  lemma NodesAgreeExactly(b: Beacon, height: nat, insts: seq<Instruction>, shardOf: ShardOf, digest: Digest)
    requires height > 1 && ApplyAll(Begin(b, height), insts).Ok?
    ensures var f := ApplyAll(Begin(b, height), insts).value;
            (forall one, two | Shuffled(one, ToShuffle(f), f.beacon.random, digest)
                               && Shuffled(two, ToShuffle(f), f.beacon.random, digest) ::
               Update(b, height, insts, one, shardOf) == Update(b, height, insts, two, shardOf))
            <==> |Table(ToShuffle(f), f.beacon.random, digest)| < 2
  {
    AppliedHeight(Begin(b, height), insts);
    var f := ApplyAll(Begin(b, height), insts).value;
    AgreeExactly(f, shardOf, digest);
    forall shuffled: seq<Key>
      ensures Update(b, height, insts, shuffled, shardOf) == Outcome.Ok(Finish(f, shuffled, shardOf))
    {
    }
  }

  lemma PendingShows(f: Fold, one: seq<Key>, two: seq<Key>, shardOf: ShardOf)
    requires ToShuffle(f) != [] && one != two
    ensures Finish(f, one, shardOf) != Finish(f, two, shardOf)
  {
    var p := f.beacon.beaconPending;
    assert (p + one)[|p|..] == one && (p + two)[|p|..] == two;
    assert Finish(f, one, shardOf).beaconPending == p + one;
    assert Finish(f, two, shardOf).beaconPending == p + two;
  }

  // ---------------------------------------------------------------------------------------------
  // The books of the beacon's candidates
  // ---------------------------------------------------------------------------------------------

  // How often k occurs among the waiting, pending and serving keys of the beacon itself.
  function Total(b: Beacon, k: Key): (c: nat) {
    C.Count(b.beaconNext, k) + C.Count(b.beaconCurrent, k) + C.Count(b.beaconPending, k) + C.Count(b.beaconCommittee, k)
  }

  function OutOf(swaps: seq<Instruction>, k: Key): (c: nat) {
    if swaps != [] && swaps[0].SwapBeacon? then C.Count(swaps[0].out, k) else 0
  }

  // How often k leaves the beacon committee with a block, which holds one swap of it at most.
  function Leaving(insts: seq<Instruction>, k: Key): (c: nat) { OutOf(BeaconSwaps(insts), k) }

  function Lost(b: Beacon, block: C.Block, digest: Digest, k: Key): (n: int) {
    if RandomDue(b, b.height + 1) then Dropped(b.beaconCurrent, block.nonce, digest, k) else 0
  }

  predicate Phase(b: Beacon, size: nat) {
    C.Phase(b) && |b.beaconCommittee| <= size && (b.height % EPOCH != RANDOM_TIME ==> b.beaconCurrent == [])
  }

  ghost predicate Step(b: Beacon, b': Beacon, block: C.Block, size: nat, shardOf: ShardOf, digest: Digest) {
    && C.Step(b, b', block, size, shardOf)
    && (RandomDue(b, b.height + 1) ==> Shuffled(block.shuffled, b.beaconCurrent, block.nonce, digest))
  }

  lemma OwnSwapBalances(b: Beacon, height: nat, size: nat, k: Key)
    requires |b.beaconCommittee| <= size
    ensures var l := OwnSwap(b, height, size);
            var r := ReplayAll(b.beaconPending, b.beaconCommittee, l);
            r.Replayed? && C.Count(r.pending, k) + C.Count(r.committee, k) + OutOf(l, k)
                           == C.Count(b.beaconPending, k) + C.Count(b.beaconCommittee, k)
  {
    var l, swap := OwnSwap(b, height, size), Swap(b.beaconPending, b.beaconCommittee, size, OFFSET);
    if l != [] {
      ReplayMatchesSwap(b.beaconPending, b.beaconCommittee, size);
      SwapConserves(b.beaconPending, b.beaconCommittee, size, OFFSET);
      assert l == [] + [l[0]];
      ReplayOneMore(b.beaconPending, b.beaconCommittee, [], l[0]);
      C.CountAppend(swap.out + swap.committee, swap.pending, k);
      C.CountAppend(swap.out, swap.committee, k);
      C.CountAppend(b.beaconCommittee, b.beaconPending, k);
    }
  }

  // The end of Update moves the lists of candidates on; only the shuffle may change their content.
  lemma FinishBalances(f: Fold, shuffled: seq<Key>, shardOf: ShardOf, k: Key)
    requires f.beacon.height > 1 && (f.random ==> f.beacon.height % EPOCH > RANDOM_TIME)
    requires f.beacon.height % EPOCH == RANDOM_TIME ==> f.beacon.beaconCurrent == []
    ensures Total(Finish(f, shuffled, shardOf), k) + (if f.random then C.Count(f.beacon.beaconCurrent, k) else 0)
            == Total(f.beacon, k) + C.Count(f.beaconStaked, k) + (if f.random then C.Count(shuffled, k) else 0)
  {
    C.CountAppend(f.beacon.beaconNext, f.beaconStaked, k);
    C.CountAppend(f.beacon.beaconPending, shuffled, k);
    assert C.Count([], k) == 0;
  }

  lemma OwnSides(f: Fold, insts: seq<Instruction>)
    requires ApplyAll(f, insts).Ok?
    ensures var g := ApplyAll(f, insts).value;
            && ReplayAll(f.beacon.beaconPending, f.beacon.beaconCommittee, BeaconSwaps(insts))
               == Replayed(g.beacon.beaconPending, g.beacon.beaconCommittee)
            && g.beacon.beaconNext == f.beacon.beaconNext && g.beacon.beaconCurrent == f.beacon.beaconCurrent
            && g.beaconStaked == f.beaconStaked + BeaconStakedBy(insts)
  {
    AcceptedBySides(f, insts);
    assert OtherSides(f, ApplyAll(f, insts).value, insts);
  }

  // What the instructions of a produced block leave of the beacon's own lists.
  lemma InstructionsBalance(b: Beacon, height: nat, insts: seq<Instruction>, size: nat, k: Key)
    requires |b.beaconCommittee| <= size && ApplyAll(Begin(b, height), insts).Ok?
    requires BeaconSwaps(insts) == OwnSwap(b, height, size)
    ensures var g := ApplyAll(Begin(b, height), insts).value;
            && Total(g.beacon, k) + Leaving(insts, k) == Total(b, k)
            && g.beaconStaked == BeaconStakedBy(insts) && g.beacon.beaconCurrent == b.beaconCurrent
            && |g.beacon.beaconCommittee| <= size
  {
    OwnSides(Begin(b, height), insts);
    OwnSwapBalances(b, height, size, k);
    R.OwnSwapReplays(b, height, size);
  }

  // What a produced block hands to the end of Update.
  predicate HandsOn(b: Beacon, g: Fold, insts: seq<Instruction>, size: nat, k: Key) {
    && g.beacon.height == b.height + 1 && (g.random <==> RandomDue(b, b.height + 1))
    && g.beacon.beaconCurrent == b.beaconCurrent && |g.beacon.beaconCommittee| <= size
    && g.beaconStaked == BeaconStakedBy(insts) && Total(g.beacon, k) + Leaving(insts, k) == Total(b, k)
  }

  lemma StepHandsOn(b: Beacon, b': Beacon, block: C.Block, size: nat, shardOf: ShardOf, k: Key)
    requires Phase(b, size) && C.Step(b, b', block, size, shardOf)
    ensures ApplyAll(Begin(b, b.height + 1), block.insts).Ok?
    ensures var g := ApplyAll(Begin(b, b.height + 1), block.insts).value;
            HandsOn(b, g, block.insts, size, k) && b' == Finish(g, block.shuffled, shardOf)
  {
    C.ProducedFold(b, block, size, shardOf);
    InstructionsBalance(b, b.height + 1, block.insts, size, k);
  }

  lemma StepMoves(b: Beacon, b': Beacon, block: C.Block, size: nat, shardOf: ShardOf)
    requires Phase(b, size) && C.Step(b, b', block, size, shardOf)
    ensures Phase(b', size) && b'.height == b.height + 1
  {
    C.PhaseMoves(b, b', block, size, shardOf);
    StepHandsOn(b, b', block, size, shardOf, Blank);
    UpdateMoves(b, ApplyAll(Begin(b, b.height + 1), block.insts).value, block.insts, block.shuffled, size, shardOf);
  }

  lemma UpdateMoves(b: Beacon, g: Fold, insts: seq<Instruction>, shuffled: seq<Key>, size: nat, shardOf: ShardOf)
    requires Phase(b, size) && HandsOn(b, g, insts, size, Blank)
    ensures var b' := Finish(g, shuffled, shardOf);
            |b'.beaconCommittee| <= size && (b'.height % EPOCH != RANDOM_TIME ==> b'.beaconCurrent == [])
  {
    C.NextSlot(b.height);
  }

  /** One produced block: the beacon's candidates change by stakes, by the keys swapped out, and by what the shuffle
      drops. */
  lemma StepBalances(b: Beacon, b': Beacon, block: C.Block, size: nat, shardOf: ShardOf, digest: Digest, k: Key)
    requires Phase(b, size) && Step(b, b', block, size, shardOf, digest)
    ensures Total(b', k) + Leaving(block.insts, k) + Lost(b, block, digest, k)
            == Total(b, k) + C.Count(BeaconStakedBy(block.insts), k)
  {
    StepHandsOn(b, b', block, size, shardOf, k);
    UpdateBalances(b, ApplyAll(Begin(b, b.height + 1), block.insts).value, block, size, shardOf, digest, k);
  }

  lemma UpdateBalances(b: Beacon, g: Fold, block: C.Block, size: nat, shardOf: ShardOf, digest: Digest, k: Key)
    requires Phase(b, size) && HandsOn(b, g, block.insts, size, k)
    requires g.random ==> Shuffled(block.shuffled, b.beaconCurrent, block.nonce, digest)
    ensures Total(Finish(g, block.shuffled, shardOf), k) + Leaving(block.insts, k) + Lost(b, block, digest, k)
            == Total(b, k) + C.Count(BeaconStakedBy(block.insts), k)
  {
    C.NextSlot(b.height);
    FinishBalances(g, block.shuffled, shardOf, k);
  }

  ghost predicate Run(bs: seq<Beacon>, blocks: seq<C.Block>, size: nat, shardOf: ShardOf, digest: Digest) {
    && |bs| == |blocks| + 1
    && forall i {:trigger bs[i], blocks[i]} ::
      0 <= i < |blocks| ==> Step(bs[i], bs[i + 1], blocks[i], size, shardOf, digest)
  }

  function AllLeaving(blocks: seq<C.Block>, k: Key): (c: nat) {
    if blocks == [] then 0 else AllLeaving(blocks[..|blocks| - 1], k) + Leaving(blocks[|blocks| - 1].insts, k)
  }

  function AllStakes(blocks: seq<C.Block>, k: Key): (c: nat) {
    if blocks == [] then 0
    else AllStakes(blocks[..|blocks| - 1], k) + C.Count(BeaconStakedBy(blocks[|blocks| - 1].insts), k)
  }

  function AllLost(bs: seq<Beacon>, blocks: seq<C.Block>, digest: Digest, k: Key): (n: int)
    requires |bs| == |blocks| + 1
  {
    if blocks == [] then 0
    else
      var n := |blocks| - 1;
      AllLost(bs[..n + 1], blocks[..n], digest, k) + Lost(bs[n], blocks[n], digest, k)
  }

  lemma {:induction false} RunLoses(bs: seq<Beacon>, blocks: seq<C.Block>, size: nat, shardOf: ShardOf, digest: Digest,
                                    k: Key)
    requires Run(bs, blocks, size, shardOf, digest) && Phase(bs[0], size)
    ensures Phase(bs[|blocks|], size)
    ensures Total(bs[|blocks|], k) + AllLeaving(blocks, k) + AllLost(bs, blocks, digest, k)
            == Total(bs[0], k) + AllStakes(blocks, k)
  {
    if blocks != [] {
      var n := |blocks| - 1;
      RunLoses(bs[..n + 1], blocks[..n], size, shardOf, digest, k);
      assert Step(bs[n], bs[n + 1], blocks[n], size, shardOf, digest);
      StepMoves(bs[n], bs[n + 1], blocks[n], size, shardOf);
      StepBalances(bs[n], bs[n + 1], blocks[n], size, shardOf, digest, k);
    }
  }

  // Every block that shuffles finds candidates of different digests.
  predicate AllDistinct(bs: seq<Beacon>, blocks: seq<C.Block>, digest: Digest)
    requires |bs| == |blocks| + 1
  {
    forall i {:trigger blocks[i]} :: 0 <= i < |blocks| && RandomDue(bs[i], bs[i].height + 1) ==>
      DistinctDigests(bs[i].beaconCurrent, blocks[i].nonce, digest)
  }

  lemma {:induction false} LostNone(bs: seq<Beacon>, blocks: seq<C.Block>, digest: Digest, k: Key)
    requires |bs| == |blocks| + 1
    ensures AllLost(bs, blocks, digest, k) >= 0
    ensures AllDistinct(bs, blocks, digest) ==> AllLost(bs, blocks, digest, k) == 0
  {
    if blocks != [] {
      var n := |blocks| - 1;
      LostNone(bs[..n + 1], blocks[..n], digest, k);
      NothingGained(bs[n].beaconCurrent, blocks[n].nonce, digest, k);
      if AllDistinct(bs, blocks, digest) {
        assert forall i :: 0 <= i < n ==> blocks[..n][i] == blocks[i] && bs[..n + 1][i] == bs[i];
        if RandomDue(bs[n], bs[n].height + 1) {
          NothingDropped(bs[n].beaconCurrent, blocks[n].nonce, digest, k);
        }
      }
    }
  }

  lemma {:induction false} LostSome(bs: seq<Beacon>, blocks: seq<C.Block>, digest: Digest, i: nat, k: Key)
    requires |bs| == |blocks| + 1 && i < |blocks| && Lost(bs[i], blocks[i], digest, k) > 0
    ensures AllLost(bs, blocks, digest, k) > 0
  {
    var n := |blocks| - 1;
    LostNone(bs[..n + 1], blocks[..n], digest, k);
    NothingGained(bs[n].beaconCurrent, blocks[n].nonce, digest, k);
    if i < n {
      LostSome(bs[..n + 1], blocks[..n], digest, i, k);
    }
  }

  /** Over a run the books of the beacon's candidates balance for every key exactly when each block that brings a random
      number finds candidates of different digests; otherwise keys are missing. */
  lemma RunBalancesExactly(bs: seq<Beacon>, blocks: seq<C.Block>, size: nat, shardOf: ShardOf, digest: Digest)
    requires Run(bs, blocks, size, shardOf, digest) && Phase(bs[0], size)
    ensures (forall k :: Total(bs[|blocks|], k) + AllLeaving(blocks, k) == Total(bs[0], k) + AllStakes(blocks, k))
            <==> AllDistinct(bs, blocks, digest)
  {
    if AllDistinct(bs, blocks, digest) {
      forall k ensures Total(bs[|blocks|], k) + AllLeaving(blocks, k) == Total(bs[0], k) + AllStakes(blocks, k) {
        RunLoses(bs, blocks, size, shardOf, digest, k);
        LostNone(bs, blocks, digest, k);
      }
    } else {
      var k := SomeLost(bs, blocks, digest);
      RunLoses(bs, blocks, size, shardOf, digest, k);
    }
  }

  lemma SomeLost(bs: seq<Beacon>, blocks: seq<C.Block>, digest: Digest) returns (k: Key)
    requires |bs| == |blocks| + 1 && !AllDistinct(bs, blocks, digest)
    ensures AllLost(bs, blocks, digest, k) > 0
  {
    var n :| 0 <= n < |blocks| && RandomDue(bs[n], bs[n].height + 1)
             && !DistinctDigests(bs[n].beaconCurrent, blocks[n].nonce, digest);
    var list, rand := bs[n].beaconCurrent, blocks[n].nonce;
    var i, j :| 0 <= i < j < |list| && digest(list[i], rand) == digest(list[j], rand);
    k := SomeDropped(list, i, j, rand, digest);
    LostSome(bs, blocks, digest, n, k);
  }
}
