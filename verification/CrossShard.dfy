// Delivery of cross-shard blocks: the beacon links, for every ordered pair of shards, the heights of the sender's
// blocks that concern the receiver (InsertBeaconBlock in blockchain/beaconprocess.go). The receiver's producer
// (getCrossShardData in blockchain/shardproducer.go) and its pre-sign check (VerifyPreProcessingShardBlock in
// blockchain/shardprocess.go) follow the links.
module CrossShard {
  import opened Common

  // ---------------------------------------------------------------------------------------------
  // The links of one pair
  // ---------------------------------------------------------------------------------------------

  // The stored next heights of one pair of shards, and the last registered height.
  datatype Links = Links(next: map<nat, nat>, last: nat)

  const NoLinks := Links(map[], 0)

  // Registering a height: the last one points to it, and it points to nothing yet.
  function Register(l: Links, height: nat): (r: Links) { Links(l.next[l.last := height][height := 0], height) }

  function RegisterAll(l: Links, heights: seq<nat>): (r: Links) {
    if heights == [] then l else Register(RegisterAll(l, heights[..|heights| - 1]), heights[|heights| - 1])
  }

  // Position p of a list of heights that starts after height 0.
  function At(h: seq<nat>, p: nat): (n: nat)
    requires p <= |h|
  {
    if p == 0 then 0 else h[p - 1]
  }

  predicate Ascending(h: seq<nat>) {
    (forall p :: 0 <= p < |h| ==> 0 < h[p]) && forall p, q :: 0 <= p < q < |h| ==> h[p] < h[q]
  }

  /** The links form one chain: from 0 through the registered heights, ending in 0, and nothing else. */
  ghost predicate Linked(l: Links, h: seq<nat>) {
    && Ascending(h)
    && l.last == At(h, |h|)
    && (forall k :: k in l.next <==> h != [] && (k == 0 || k in h))
    && (forall p {:trigger At(h, p)} :: 0 <= p < |h| ==> At(h, p) in l.next && l.next[At(h, p)] == h[p])
    && (h != [] ==> l.last in l.next && l.next[l.last] == 0)
  }

  lemma AscendingBelow(h: seq<nat>, p: nat, q: nat)
    requires Ascending(h) && p < q <= |h|
    ensures At(h, p) < At(h, q)
  {
  }

  lemma AscendingSnoc(h: seq<nat>, x: nat)
    requires Ascending(h)
    ensures Ascending(h + [x]) <==> At(h, |h|) < x
  {
    var g := h + [x];
    assert g[|h|] == x;
    if Ascending(g) && h != [] {
      assert g[|h| - 1] < g[|h|];
    }
  }

  // A higher height extends the chain at its end.
  lemma RegisterHigher(l: Links, h: seq<nat>, x: nat)
    requires Linked(l, h) && At(h, |h|) < x
    ensures Linked(Register(l, x), h + [x])
  {
    AscendingSnoc(h, x);
    forall p | 0 <= p < |h + [x]|
      ensures At(h + [x], p) in Register(l, x).next && Register(l, x).next[At(h + [x], p)] == (h + [x])[p]
    {
      RegisterLink(l, h, x, p);
    }
    RegisterKeys(l, h, x);
  }

  lemma RegisterLink(l: Links, h: seq<nat>, x: nat, p: nat)
    requires Ascending(h) && l.last == At(h, |h|) < x && p <= |h|
    requires p < |h| ==> At(h, p) in l.next && l.next[At(h, p)] == h[p]
    ensures At(h + [x], p) in Register(l, x).next && Register(l, x).next[At(h + [x], p)] == (h + [x])[p]
  {
    assert At(h + [x], p) == At(h, p);
    if p < |h| {
      AscendingBelow(h, p, |h|);
    }
  }

  lemma RegisterKeys(l: Links, h: seq<nat>, x: nat)
    requires Linked(l, h)
    ensures forall k :: k in Register(l, x).next <==> k == 0 || k in h + [x]
  {
    forall k ensures k in Register(l, x).next <==> k == 0 || k in h + [x] {
      assert k in h + [x] <==> k in h || k == x;
      assert h != [] ==> l.last in h;
    }
  }

  // Registering the last height again changes nothing.
  lemma RegisterSame(l: Links, h: seq<nat>)
    requires Linked(l, h) && h != []
    ensures Register(l, At(h, |h|)) == l
  {
    assert l.next[l.last := l.last][l.last := 0] == l.next;
  }

  // The list of registered heights after one more.
  function Add(h: seq<nat>, x: nat): (r: seq<nat>) { if h != [] && x == At(h, |h|) then h else h + [x] }

  /** Registering extends the chain exactly when the height is positive and not below the last one. */
  lemma RegisterExtends(l: Links, h: seq<nat>, x: nat)
    requires Linked(l, h)
    ensures Linked(Register(l, x), Add(h, x)) <==> At(h, |h|) <= x && 0 < x
  {
    if At(h, |h|) < x {
      RegisterHigher(l, h, x);
    } else if x == At(h, |h|) && h != [] {
      RegisterSame(l, h);
    } else {
      AscendingSnoc(h, x);
    }
  }

  // ---------------------------------------------------------------------------------------------
  // Registering a beacon block
  // ---------------------------------------------------------------------------------------------

  // A shard block as the beacon records it: its height and the shards it sends to.
  datatype ShardState = ShardState(height: nat, crossShard: seq<Shard>)

  function Repeats(height: nat, shards: seq<Shard>, to: Shard): (r: seq<nat>) {
    if shards == [] then []
    else
      var front := Repeats(height, shards[..|shards| - 1], to);
      if shards[|shards| - 1] == to then front + [height] else front
  }

  // The heights that a list of shard blocks registers for one receiver.
  function HeightsFor(states: seq<ShardState>, to: Shard): (r: seq<nat>) {
    if states == [] then []
    else
      HeightsFor(states[..|states| - 1], to) + Repeats(states[|states| - 1].height, states[|states| - 1].crossShard, to)
  }

  lemma {:induction false} RepeatsMean(height: nat, shards: seq<Shard>, to: Shard, h: nat)
    ensures h in Repeats(height, shards, to) <==> h == height && to in shards
  {
    if shards != [] {
      RepeatsMean(height, shards[..|shards| - 1], to, h);
      assert shards == shards[..|shards| - 1] + [shards[|shards| - 1]];
    }
  }

  /** A height is registered for a receiver exactly when a block of that height names it. */
  lemma {:induction false} HeightsMean(states: seq<ShardState>, to: Shard, h: nat)
    ensures h in HeightsFor(states, to) <==> NamesAt(states, to, h)
  {
    if states != [] {
      var front, last := states[..|states| - 1], states[|states| - 1];
      HeightsMean(front, to, h);
      RepeatsMean(last.height, last.crossShard, to, h);
      NamesOneMore(front, last, to, h);
      assert states == front + [last];
    }
  }

  lemma NamesOneMore(states: seq<ShardState>, last: ShardState, to: Shard, h: nat)
    ensures NamesAt(states + [last], to, h) <==> NamesAt(states, to, h) || (last.height == h && to in last.crossShard)
  {
    var all := states + [last];
    if i :| 0 <= i < |states| && states[i].height == h && to in states[i].crossShard {
      assert all[i] == states[i];
    }
    assert all[|states|] == last;
  }

  // Some block of this height names the receiver.
  predicate NamesAt(states: seq<ShardState>, to: Shard, h: nat) {
    exists i :: 0 <= i < |states| && states[i].height == h && to in states[i].crossShard
  }

  lemma {:induction false} RegisterAllAppend(l: Links, a: seq<nat>, b: seq<nat>)
    ensures RegisterAll(l, a + b) == RegisterAll(RegisterAll(l, a), b)
  {
    if b == [] {
      assert a + b == a;
    } else {
      RegisterAllAppend(l, a, b[..|b| - 1]);
      assert (a + b)[..|a + b| - 1] == a + b[..|b| - 1];
    }
  }

  /** The database of links and the beacon's last heights. */
  class CrossShardIndex {
    var next: map<(Shard, Shard), map<nat, nat>>
    var last: map<(Shard, Shard), nat>

    // A missing entry reads as no links and height zero.
    function Pair(from: Shard, to: Shard): (l: Links)
      reads this
    {
      Links(if (from, to) in next then next[(from, to)] else map[], if (from, to) in last then last[(from, to)] else 0)
    }

    constructor ()
      ensures forall f: Shard, t: Shard :: Pair(f, t) == NoLinks
    {
      next, last := map[], map[];
    }

    method StoreNext(from: Shard, to: Shard, cur: nat, height: nat)
      modifies this`next
      ensures Pair(from, to) == old(Pair(from, to)).(next := old(Pair(from, to)).next[cur := height])
      ensures forall f: Shard, t: Shard :: (f, t) != (from, to) ==> Pair(f, t) == old(Pair(f, t))
    {
      next := next[(from, to) := (if (from, to) in next then next[(from, to)] else map[])[cur := height]];
    }

    method RegisterOne(from: Shard, to: Shard, height: nat)
      modifies this
      ensures Pair(from, to) == Register(old(Pair(from, to)), height)
      ensures forall f: Shard, t: Shard :: (f, t) != (from, to) ==> Pair(f, t) == old(Pair(f, t))
    {
      var lastHeight := Pair(from, to).last;
      StoreNext(from, to, lastHeight, height);
      StoreNext(from, to, height, 0);
      last := last[(from, to) := height];
    }

    method RegisterShardBlock(from: Shard, state: ShardState)
      modifies this
      ensures forall f: Shard, t: Shard :: Pair(f, t) == if f == from && t != from
                then RegisterAll(old(Pair(f, t)), Repeats(state.height, state.crossShard, t)) else old(Pair(f, t))
    {
      ghost var shards := state.crossShard;
      for i := 0 to |state.crossShard|
        invariant forall f: Shard, t: Shard :: Pair(f, t) == if f == from && t != from
                    then RegisterAll(old(Pair(f, t)), Repeats(state.height, shards[..i], t)) else old(Pair(f, t))
      {
        assert shards[..i + 1][..i] == shards[..i];
        var to := state.crossShard[i];
        if from == to {
          continue;
        }
        ghost var before := Repeats(state.height, shards[..i], to);
        assert (before + [state.height])[..|before|] == before;
        RegisterOne(from, to, state.height);
      }
      assert shards[..|shards|] == shards;
    }

    /** The registration loops for the shard blocks of one shard. */
    method RegisterShard(from: Shard, states: seq<ShardState>)
      modifies this
      ensures forall f: Shard, t: Shard :: Pair(f, t) == if f == from && t != from
                then RegisterAll(old(Pair(f, t)), HeightsFor(states, t)) else old(Pair(f, t))
    {
      for i := 0 to |states|
        invariant forall f: Shard, t: Shard :: Pair(f, t) == if f == from && t != from
                    then RegisterAll(old(Pair(f, t)), HeightsFor(states[..i], t)) else old(Pair(f, t))
      {
        assert states[..i + 1][..i] == states[..i];
        ghost var done := states[..i];
        forall t: Shard
          ensures RegisterAll(old(Pair(from, t)),
                              HeightsFor(done, t) + Repeats(states[i].height, states[i].crossShard, t))
                         == RegisterAll(RegisterAll(old(Pair(from, t)), HeightsFor(done, t)),
                                        Repeats(states[i].height, states[i].crossShard, t))
        {
          RegisterAllAppend(old(Pair(from, t)), HeightsFor(done, t),
                            Repeats(states[i].height, states[i].crossShard, t));
        }
        RegisterShardBlock(from, states[i]);
      }
      assert states[..|states|] == states;
    }

    /** A beacon block, its shards in any order: each pair's links grow by the heights that concern it. */
    method RegisterBlock(states: map<Shard, seq<ShardState>>)
      modifies this
      ensures forall f: Shard, t: Shard :: Pair(f, t) == if f in states && t != f
                then RegisterAll(old(Pair(f, t)), HeightsFor(states[f], t)) else old(Pair(f, t))
    {
      var todo := states.Keys;
      while todo != {}
        invariant todo <= states.Keys
        invariant forall f: Shard, t: Shard :: Pair(f, t) == if f in states && f !in todo && t != f
                    then RegisterAll(old(Pair(f, t)), HeightsFor(states[f], t)) else old(Pair(f, t))
        decreases todo
      {
        var from :| from in todo;
        RegisterShard(from, states[from]);
        todo := todo - {from};
      }
    }
  }
}
