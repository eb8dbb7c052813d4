// The pool of cross-shard blocks waiting at the receiving shard (mempool/cross_shard_pool_v2.go): per sending shard,
// the blocks the beacon has confirmed as next (valid) and the others (pending).
module CrossShardPool {
  import opened Common
  import opened Sorting
  import opened CrossShard
  import opened Delivery

  const MAX_PENDING := 100

  // ---------------------------------------------------------------------------------------------
  // One sending shard
  // ---------------------------------------------------------------------------------------------

  // The blocks of one sending shard in the pool.
  datatype Lane = Lane(valid: seq<Cross>, pending: seq<Cross>)

  const NoBlocks := Lane([], [])

  // Cut off the leading blocks at or below a height.
  function DropLow(s: seq<Cross>, height: nat): (r: seq<Cross>) {
    if s != [] && s[0].height <= height then DropLow(s[1..], height) else s
  }

  function Purge(l: Lane, height: nat): (r: Lane) { Lane(DropLow(l.valid, height), DropLow(l.pending, height)) }

  // The next height the beacon confirmed, or 0.
  function Wait(next: map<nat, nat>, best: nat): (h: nat) { if best in next then next[best] else 0 }

  // Leading blocks of the awaited height move. The start height stays the best one, so the awaited height does too.
  function Promote(l: Lane, wait: nat): (r: Lane)
    decreases l.pending
  {
    if l.pending != [] && l.pending[0].height == wait
    then Promote(Lane(l.valid + [l.pending[0]], l.pending[1..]), wait)
    else l
  }

  function Update(l: Lane, best: nat, next: map<nat, nat>): (r: Lane) { Promote(Purge(l, best), Wait(next, best)) }

  predicate HasHeight(s: seq<Cross>, height: nat) { exists i :: 0 <= i < |s| && s[i].height == height }

  predicate Holds(l: Lane, b: Cross) { b in l.valid || b in l.pending }

  function Enqueue(l: Lane, b: Cross): (r: Lane) { l.(pending := Sort(l.pending + [b], HeightKey)) }

  /** The pending blocks are in strict order above the best height. At most one block is valid: it is the beacon's
      successor of the best height, and no pending block has its height. */
  predicate Orderly(l: Lane, h: seq<nat>, p: nat) {
    && p <= |h|
    && Rising(l.pending)
    && Above(l.pending, At(h, p))
    && |l.valid| <= 1
    && (l.valid != [] ==> p < |h| && l.valid[0].height == h[p] && !HasHeight(l.pending, h[p]))
  }

  lemma {:induction false} DropLowRising(s: seq<Cross>, height: nat)
    requires Rising(s)
    ensures Rising(DropLow(s, height)) && Above(DropLow(s, height), height)
    ensures forall b :: b in DropLow(s, height) <==> b in s && height < b.height
  {
    if s != [] && s[0].height <= height {
      assert s == [s[0]] + s[1..];
      assert Rising(s[1..]);
      DropLowRising(s[1..], height);
    } else {
      forall b | b in s ensures height < b.height {
        var i :| 0 <= i < |s| && s[i] == b;
        assert s[0].height <= b.height;
      }
    }
  }

  // The lowest pending block above the best height has height x.
  predicate NextUp(s: seq<Cross>, best: nat, x: nat) {
    exists i :: 0 <= i < |s| && s[i].height == x && best < x && forall j :: 0 <= j < i ==> s[j].height <= best
  }

  lemma {:induction false} DropLowHead(s: seq<Cross>, best: nat, x: nat)
    requires best < x
    ensures NextUp(s, best, x) <==> DropLow(s, best) != [] && DropLow(s, best)[0].height == x
  {
    if s != [] {
      if s[0].height <= best {
        DropLowHead(s[1..], best, x);
        NextUpTail(s, best, x);
      } else {
        NextUpHead(s, best, x);
      }
    }
  }

  lemma NextUpTail(s: seq<Cross>, best: nat, x: nat)
    requires best < x && s != [] && s[0].height <= best
    ensures NextUp(s, best, x) <==> NextUp(s[1..], best, x)
  {
    if NextUp(s, best, x) {
      var i :| 0 <= i < |s| && s[i].height == x && forall j :: 0 <= j < i ==> s[j].height <= best;
      assert s[1..][i - 1].height == x;
    }
    if NextUp(s[1..], best, x) {
      var i :| 0 <= i < |s[1..]| && s[1..][i].height == x && forall j :: 0 <= j < i ==> s[1..][j].height <= best;
      assert s[i + 1].height == x;
      forall j | 0 <= j < i + 1 ensures s[j].height <= best {
        if j > 0 {
          assert s[j] == s[1..][j - 1];
        }
      }
    }
  }

  lemma NextUpHead(s: seq<Cross>, best: nat, x: nat)
    requires best < x && s != [] && best < s[0].height
    ensures NextUp(s, best, x) <==> s[0].height == x
  {
    if NextUp(s, best, x) {
      var i :| 0 <= i < |s| && s[i].height == x && forall j :: 0 <= j < i ==> s[j].height <= best;
      assert i == 0;
    }
  }

  // What is purged from an orderly lane when the best height moves on to position q of a longer chain.
  lemma PurgeOrderly(l: Lane, h: seq<nat>, p: nat, g: seq<nat>, q: nat)
    requires Orderly(l, h, p) && Ascending(g) && h <= g && p <= q <= |g|
    ensures Orderly(Purge(l, At(g, q)), g, q)
    ensures forall b :: Holds(Purge(l, At(g, q)), b) <==> Holds(l, b) && At(g, q) < b.height
    ensures Purge(l, At(g, q)).valid != [] <==> q < |g| && HasHeight(l.valid, g[q])
  {
    var best := At(g, q);
    assert At(h, p) == At(g, p);
    if p < q {
      AscendingBelow(g, p, q);
    }
    DropLowRising(l.pending, best);
    DropLowRising(l.valid, best);
    if l.valid != [] {
      assert l.valid == [l.valid[0]] && DropLow(l.valid[1..], best) == [];
      assert h[p] == At(g, p + 1);
      if q < |g| {
        assert HasHeight(l.valid, l.valid[0].height);
        assert g[q] == At(g, q + 1);
      }
      if p < q {
        ValidGone(g, p, q);
      } else {
        AscendingBelow(g, p, p + 1);
        assert !HasHeight(DropLow(l.pending, best), h[p]) by {
          forall i | 0 <= i < |DropLow(l.pending, best)| ensures DropLow(l.pending, best)[i].height != h[p] {
            var b := DropLow(l.pending, best)[i];
            assert b in l.pending;
          }
        }
      }
    }
  }

  lemma ValidGone(g: seq<nat>, p: nat, q: nat)
    requires Ascending(g) && p < q <= |g|
    ensures g[p] <= At(g, q) && (q < |g| ==> g[p] < g[q])
  {
  }

  // The links of a node that has seen the first `known` registered heights: one chain of them, and nothing beyond.
  predicate Sees(next: map<nat, nat>, g: seq<nat>, known: nat) {
    && known <= |g| && Threaded(next, g[..known])
    && forall q: nat {:trigger At(g, q)} :: known < q <= |g| ==> At(g, q) !in next
  }

  lemma LinkedSees(l: Links, g: seq<nat>, known: nat)
    requires Ascending(g) && known <= |g| && Linked(l, g[..known])
    ensures Sees(l.next, g, known)
  {
    LinkedIsThreaded(l, g[..known]);
    forall q: nat | known < q <= |g| ensures At(g, q) !in l.next {
      assert forall i :: 0 <= i < known ==> g[..known][i] != g[q - 1];
    }
  }

  lemma WaitIs(next: map<nat, nat>, g: seq<nat>, known: nat, q: nat)
    requires Sees(next, g, known) && q <= |g|
    ensures Wait(next, At(g, q)) == if q < known then g[q] else 0
  {
    if q <= known {
      var h := g[..known];
      assert At(h, q) == At(g, q);
      assert Link(next, At(h, q), h != [], if q < |h| then h[q] else 0);
    }
  }

  lemma {:induction false} PromoteKeeps(l: Lane, wait: nat)
    ensures forall b :: Holds(Promote(l, wait), b) <==> Holds(l, b)
    decreases l.pending
  {
    if l.pending != [] && l.pending[0].height == wait {
      assert l.pending == [l.pending[0]] + l.pending[1..];
      PromoteKeeps(Lane(l.valid + [l.pending[0]], l.pending[1..]), wait);
    }
  }

  lemma PromoteOrderly(l: Lane, g: seq<nat>, q: nat, wait: nat)
    requires Orderly(l, g, q) && (wait == 0 || (q < |g| && wait == g[q]))
    ensures Orderly(Promote(l, wait), g, q)
    ensures Promote(l, wait).valid != [] <==> l.valid != [] || (l.pending != [] && l.pending[0].height == wait)
  {
    if l.pending != [] && l.pending[0].height == wait {
      var rest := l.pending[1..];
      assert HasHeight(l.pending, wait);
      assert forall i :: 0 <= i < |rest| ==> rest[i] == l.pending[i + 1];
      assert Rising(rest) && Above(rest, wait) && Above(rest, At(g, q));
      assert Promote(l, wait) == Lane(l.valid + [l.pending[0]], rest);
    }
  }

  /** After an update, from any earlier orderly state: the lane is orderly, exactly the blocks above the best height are
      kept, and a block is valid exactly when the pool already had the successor valid, or has it next in line and the
      node's links already tell. */
  lemma UpdateOrderly(l: Lane, h: seq<nat>, p: nat, g: seq<nat>, q: nat, known: nat, next: map<nat, nat>)
    requires Orderly(l, h, p) && Ascending(g) && h <= g && p <= q <= |g| && Sees(next, g, known)
    ensures Orderly(Update(l, At(g, q), next), g, q)
    ensures forall b :: Holds(Update(l, At(g, q), next), b) <==> Holds(l, b) && At(g, q) < b.height
    ensures Update(l, At(g, q), next).valid != [] <==>
              q < |g| && (HasHeight(l.valid, g[q]) || (q < known && NextUp(l.pending, At(g, q), g[q])))
  {
    PurgeOrderly(l, h, p, g, q);
    WaitIs(next, g, known, q);
    var wait := Wait(next, At(g, q));
    PromoteOrderly(Purge(l, At(g, q)), g, q, wait);
    PromoteKeeps(Purge(l, At(g, q)), wait);
    if q < |g| {
      AscendingBelow(g, q, q + 1);
      DropLowHead(l.pending, At(g, q), g[q]);
    }
  }

  lemma EnqueueOrderly(l: Lane, h: seq<nat>, p: nat, b: Cross)
    requires Orderly(l, h, p) && At(h, p) < b.height && !HasHeight(l.valid, b.height) && !HasHeight(l.pending, b.height)
    ensures Orderly(Enqueue(l, b), h, p)
    ensures forall c :: Holds(Enqueue(l, b), c) <==> Holds(l, c) || c == b
  {
    var all, r := l.pending + [b], Sort(l.pending + [b], HeightKey);
    SameElements(r, all);
    EnqueueRising(l.pending, b);
    forall i | 0 <= i < |r| ensures At(h, p) < r[i].height && (l.valid != [] ==> r[i].height != l.valid[0].height) {
      assert r[i] in all;
      if r[i] == b && l.valid != [] {
        assert l.valid[0].height != b.height;
      } else if r[i] in l.pending {
        var k :| 0 <= k < |l.pending| && l.pending[k] == r[i];
        assert l.valid != [] ==> l.pending[k].height != h[p];
      }
    }
  }

  lemma EnqueueRising(s: seq<Cross>, b: Cross)
    requires Rising(s) && !HasHeight(s, b.height)
    ensures Rising(Sort(s + [b], HeightKey))
  {
    assert Strict(s, HeightKey);
    var i := SortAppended(s, b, HeightKey);
    var r := Sort(s + [b], HeightKey);
    forall i, j | 0 <= i < j < |r| ensures r[i].height < r[j].height {
      assert HeightKey(r[i]) < HeightKey(r[j]);
    }
  }

  // ---------------------------------------------------------------------------------------------
  // The pool
  // ---------------------------------------------------------------------------------------------

  function Blocks(m: map<Shard, seq<Cross>>, s: Shard): (r: seq<Cross>) { if s in m then m[s] else [] }

  datatype Added = Expected(heights: map<Shard, nat>) | WrongShard | Old | Duplicate | Unsigned | Full

  method CutLow(blocks: seq<Cross>, height: nat) returns (r: seq<Cross>)
    ensures r == DropLow(blocks, height)
  {
    var removeIndex := 0;
    assert blocks[0..] == blocks;
    while removeIndex < |blocks| && blocks[removeIndex].height <= height
      invariant removeIndex <= |blocks|
      invariant DropLow(blocks, height) == DropLow(blocks[removeIndex..], height)
    {
      removeIndex := removeIndex + 1;
    }
    r := blocks[removeIndex..];
  }

  method CutAll(pool: map<Shard, seq<Cross>>, heights: map<Shard, nat>) returns (r: map<Shard, seq<Cross>>)
    ensures r.Keys == pool.Keys
    ensures forall s: Shard :: Blocks(r, s) == DropLow(Blocks(pool, s), Best(heights, s))
  {
    r := pool;
    var todo := pool.Keys;
    while todo != {}
      invariant todo <= pool.Keys && r.Keys == pool.Keys
      invariant forall s: Shard :: Blocks(r, s) ==
                  if s in todo then Blocks(pool, s) else DropLow(Blocks(pool, s), Best(heights, s))
      decreases todo
    {
      var shard :| shard in todo;
      var rest := CutLow(pool[shard], Best(heights, shard));
      r := r[shard := rest];
      todo := todo - {shard};
    }
  }

  method PromoteOne(l: Lane, waitHeight: nat) returns (r: Lane, waits: bool)
    ensures r == Promote(l, waitHeight) && waits == (r.pending != [])
  {
    var index := 0;
    assert l.valid + l.pending[..0] == l.valid && l.pending[0..] == l.pending;
    while index < |l.pending| && l.pending[index].height == waitHeight
      invariant index <= |l.pending|
      invariant Promote(l, waitHeight) == Promote(Lane(l.valid + l.pending[..index], l.pending[index..]), waitHeight)
    {
      assert l.valid + l.pending[..index + 1] == l.valid + l.pending[..index] + [l.pending[index]];
      assert l.pending[index..][1..] == l.pending[index + 1..];
      index := index + 1;
    }
    waits := index < |l.pending|;
    r := l;
    if index > 0 {
      r := Lane(l.valid + l.pending[..index], l.pending[index..]);
    }
  }

  // The lane of one shard in a pair of pools.
  function LaneIn(valid: map<Shard, seq<Cross>>, pending: map<Shard, seq<Cross>>, s: Shard): (l: Lane) {
    Lane(Blocks(valid, s), Blocks(pending, s))
  }

  lemma NothingPending(l: Lane, wait: nat)
    requires l.pending == []
    ensures Promote(l, wait) == l
  {
  }

  lemma SetLane(v: map<Shard, seq<Cross>>, p: map<Shard, seq<Cross>>, shard: Shard, l: Lane)
    ensures forall s: Shard {:trigger LaneIn(v[shard := l.valid], p[shard := l.pending], s)} ::
              LaneIn(v[shard := l.valid], p[shard := l.pending], s) == if s == shard then l else LaneIn(v, p, s)
  {
  }

  lemma SetPending(v: map<Shard, seq<Cross>>, p: map<Shard, seq<Cross>>, shard: Shard, x: seq<Cross>)
    ensures forall s: Shard {:trigger LaneIn(v, p[shard := x], s)} ::
              LaneIn(v, p[shard := x], s) == if s == shard then Lane(Blocks(v, s), x) else LaneIn(v, p, s)
  {
  }

  function Promoted(valid: map<Shard, seq<Cross>>, pending: map<Shard, seq<Cross>>, best: map<Shard, nat>,
                    next: map<Shard, map<nat, nat>>, s: Shard): (l: Lane)
  {
    Promote(LaneIn(valid, pending, s), Wait(Table(next, s), Best(best, s)))
  }

  method PromoteAll(valid: map<Shard, seq<Cross>>, pending: map<Shard, seq<Cross>>, best: map<Shard, nat>,
                    next: map<Shard, map<nat, nat>>)
    returns (v: map<Shard, seq<Cross>>, p: map<Shard, seq<Cross>>, expected: map<Shard, nat>)
    ensures forall s: Shard {:trigger LaneIn(v, p, s)} :: LaneIn(v, p, s) == Promoted(valid, pending, best, next, s)
    ensures forall s: Shard :: s in expected <==> LaneIn(v, p, s).pending != []
    ensures forall s: Shard :: s in expected ==> expected[s] == Wait(Table(next, s), Best(best, s))
  {
    v, p, expected := valid, pending, map[];
    var todo := pending.Keys;
    forall s: Shard | s !in pending
      ensures Promoted(valid, pending, best, next, s) == LaneIn(valid, pending, s)
    {
      NothingPending(LaneIn(valid, pending, s), Wait(Table(next, s), Best(best, s)));
    }
    while todo != {}
      invariant todo <= pending.Keys
      invariant forall s: Shard {:trigger LaneIn(v, p, s)} :: LaneIn(v, p, s) ==
                  if s in todo then LaneIn(valid, pending, s) else Promoted(valid, pending, best, next, s)
      invariant forall s: Shard :: s in expected <==> s !in todo && LaneIn(v, p, s).pending != []
      invariant forall s: Shard :: s in expected ==> expected[s] == Wait(Table(next, s), Best(best, s))
      decreases todo
    {
      var shard :| shard in todo;
      var waitHeight := Wait(Table(next, shard), Best(best, shard));
      var lane, waits := PromoteOne(LaneIn(v, p, shard), waitHeight);
      SetLane(v, p, shard, lane);
      v, p := v[shard := lane.valid], p[shard := lane.pending];
      if waits {
        expected := expected[shard := waitHeight];
      }
      todo := todo - {shard};
    }
  }

  // The conditions on a new block, in terms of the lane of its shard and the height last seen as best.
  predicate Welcome(l: Lane, state: nat, b: Cross) {
    && |l.pending| <= MAX_PENDING
    && state < b.height
    && !HasHeight(l.valid, b.height)
    && !HasHeight(l.pending, b.height)
  }

  /** A block is welcome exactly when it is above the best height last seen, none in the pool has its height, and no
      more than a hundred are pending. */
  lemma WelcomeExactly(l: Lane, state: nat, b: Cross)
    ensures Welcome(l, state, b) <==>
              state < b.height && |l.pending| < 101 && forall c :: Holds(l, c) ==> c.height != b.height
  {
    forall c | Holds(l, c) && c.height == b.height
      ensures HasHeight(l.valid, b.height) || HasHeight(l.pending, b.height)
    {
      if c in l.valid {
        var i :| 0 <= i < |l.valid| && l.valid[i] == c;
        assert l.valid[i].height == b.height;
      } else {
        var i :| 0 <= i < |l.pending| && l.pending[i] == c;
        assert l.pending[i].height == b.height;
      }
    }
    if i :| 0 <= i < |l.valid| && l.valid[i].height == b.height {
      assert Holds(l, l.valid[i]);
    }
    if i :| 0 <= i < |l.pending| && l.pending[i].height == b.height {
      assert Holds(l, l.pending[i]);
    }
  }

  // Why a block for this shard is refused, if it is.
  method Refusal(l: Lane, state: nat, blk: Cross, signed: bool) returns (r: Option<Added>)
    ensures r.None? <==> signed && Welcome(l, state, blk)
    ensures r.Some? ==> !r.value.Expected?
  {
    if blk.height <= state {
      return Some(Old);
    }
    var inValid := HasKey(l.valid, blk.height, HeightKey);
    if inValid {
      return Some(Duplicate);
    }
    var inPending := HasKey(l.pending, blk.height, HeightKey);
    if inPending {
      return Some(Duplicate);
    }
    if !signed {
      return Some(Unsigned);
    }
    if |l.pending| > MAX_PENDING {
      return Some(Full);
    }
    return None;
  }

  class Pool {
    const shardID: Shard
    var validPool: map<Shard, seq<Cross>>
    var pendingPool: map<Shard, seq<Cross>>
    var crossShardState: map<Shard, nat>

    function LaneOf(s: Shard): (l: Lane)
      reads this
    {
      LaneIn(validPool, pendingPool, s)
    }

    constructor (id: Shard)
      ensures shardID == id && crossShardState == map[] && forall s: Shard :: LaneOf(s) == NoBlocks
    {
      shardID, validPool, pendingPool, crossShardState := id, map[], map[], map[];
    }

    /** Blocks leave only from the front, at or below the given heights. */
    method RemoveBlockByHeight(heights: map<Shard, nat>)
      modifies this`validPool, this`pendingPool
      ensures forall s: Shard :: LaneOf(s) == Purge(old(LaneOf(s)), Best(heights, s))
    {
      validPool := CutAll(validPool, heights);
      pendingPool := CutAll(pendingPool, heights);
    }

    /** Against the best heights and the links of the moment; the heights still waited for are returned. */
    method UpdatePool(best: map<Shard, nat>, next: map<Shard, map<nat, nat>>) returns (expected: map<Shard, nat>)
      modifies this
      ensures crossShardState == best
      ensures forall s: Shard :: LaneOf(s) == Update(old(LaneOf(s)), Best(best, s), Table(next, s))
      ensures forall s: Shard :: s in expected <==> LaneOf(s).pending != []
      ensures forall s: Shard :: s in expected ==> expected[s] == Wait(Table(next, s), Best(best, s))
    {
      crossShardState := best;
      RemoveBlockByHeight(crossShardState);
      validPool, pendingPool, expected := PromoteAll(validPool, pendingPool, best, next);
    }

    /** A block is refused without any change, or it joins the pending blocks in order and the pool is updated. */
    method AddCrossShardBlock(blk: Cross, from: Shard, to: Shard, signed: bool, best: map<Shard, nat>,
                              next: map<Shard, map<nat, nat>>) returns (r: Added)
      modifies this
      ensures r.Expected? <==>
                to == shardID && signed && old(Welcome(LaneOf(from), Best(crossShardState, from), blk))
      ensures r.Expected? ==>
                LaneOf(from) == Update(Enqueue(old(LaneOf(from)), blk), Best(best, from), Table(next, from))
      ensures r.Expected? ==> forall s: Shard :: s != from ==>
                                LaneOf(s) == Update(old(LaneOf(s)), Best(best, s), Table(next, s))
      ensures r.Expected? ==> crossShardState == best
      ensures !r.Expected? ==> unchanged(this)
    {
      if to != shardID {
        return WrongShard;
      }
      var refusal := Refusal(LaneOf(from), Best(crossShardState, from), blk, signed);
      if refusal.Some? {
        return refusal.value;
      }
      Join(blk, from);
      var expected := UpdatePool(best, next);
      return Expected(expected);
    }

    method Join(blk: Cross, from: Shard)
      modifies this`pendingPool
      ensures LaneOf(from) == Enqueue(old(LaneOf(from)), blk)
      ensures forall s: Shard :: s != from ==> LaneOf(s) == old(LaneOf(s))
    {
      var sorted := Sort(Blocks(pendingPool, from) + [blk], HeightKey);
      SetPending(validPool, pendingPool, from, sorted);
      pendingPool := pendingPool[from := sorted];
    }

    /** The valid blocks up to each shard's limit, a missing or zero limit being none. */
    method GetValidBlock(limit: map<Shard, nat>) returns (r: map<Shard, seq<Cross>>)
      ensures forall s: Shard :: s in r <==> Limited(LaneOf(s).valid, Best(limit, s)) != []
      ensures forall s: Shard :: s in r ==> r[s] == Limited(LaneOf(s).valid, Best(limit, s))
    {
      r := map[];
      var todo := validPool.Keys;
      while todo != {}
        invariant todo <= validPool.Keys
        invariant forall s: Shard :: s in r <==> s !in todo && Limited(LaneOf(s).valid, Best(limit, s)) != []
        invariant forall s: Shard :: s in r ==> r[s] == Limited(LaneOf(s).valid, Best(limit, s))
        decreases todo
      {
        var shard :| shard in todo;
        var blocks, taken, i := validPool[shard], [], 0;
        assert blocks[0..] == blocks;
        while i < |blocks| && !(Best(limit, shard) != 0 && Best(limit, shard) < blocks[i].height)
          invariant i <= |blocks|
          invariant Limited(blocks, Best(limit, shard)) == taken + Limited(blocks[i..], Best(limit, shard))
        {
          taken := taken + [blocks[i]];
          i := i + 1;
        }
        if taken != [] {
          r := r[shard := taken];
        }
        todo := todo - {shard};
      }
    }
  }

  function Limited(s: seq<Cross>, limit: nat): (r: seq<Cross>) {
    if s == [] || (limit != 0 && limit < s[0].height) then [] else [s[0]] + Limited(s[1..], limit)
  }

  /** The blocks from the first on up to the limit, a zero limit being none. */
  lemma {:induction false} LimitedIs(s: seq<Cross>, limit: nat)
    ensures var r := Limited(s, limit);
            && r <= s && (forall i :: 0 <= i < |r| ==> limit == 0 || r[i].height <= limit)
            && (|r| < |s| ==> limit != 0 && limit < s[|r|].height)
  {
    if !(s == [] || (limit != 0 && limit < s[0].height)) {
      LimitedIs(s[1..], limit);
      assert s == [s[0]] + s[1..];
    }
  }

  // ---------------------------------------------------------------------------------------------
  // Runs of one lane
  // ---------------------------------------------------------------------------------------------

  // The beacon's chain of heights, how many of them the node's links know, the position of the receiver's best height,
  // which may be ahead of the links, and the position the pool last saw.
  datatype PoolState = PoolState(lane: Lane, chain: seq<nat>, known: nat, best: nat, seen: nat)

  const EmptyPool := PoolState(NoBlocks, [], 0, 0, 0)

  datatype Event = Advance(chain: seq<nat>, known: nat, best: nat) | Refresh(next: map<nat, nat>)
                 | Arrive(b: Cross, next: map<nat, nat>) | Remove

  predicate Next(s: PoolState, e: Event, t: PoolState) {
    && s.best <= |s.chain|
    && match e {
         case Advance(chain, known, best) =>
           && s.chain <= chain && Ascending(chain) && s.best <= best <= |chain| && s.known <= known <= |chain|
           && t == s.(chain := chain, known := known, best := best)
         case Refresh(next) =>
           Sees(next, s.chain, s.known) && t == s.(lane := Update(s.lane, At(s.chain, s.best), next), seen := s.best)
         case Arrive(b, next) =>
           && Sees(next, s.chain, s.known) && s.seen <= |s.chain| && Welcome(s.lane, At(s.chain, s.seen), b)
           && t == s.(lane := Update(Enqueue(s.lane, b), At(s.chain, s.best), next), seen := s.best)
         case Remove => t == s.(lane := Purge(s.lane, At(s.chain, s.best)))
       }
  }

  predicate Inv(s: PoolState) {
    && Ascending(s.chain)
    && s.seen <= s.best <= |s.chain|
    && Orderly(s.lane, s.chain, s.seen)
    && |s.lane.pending| <= MAX_PENDING + 1
  }

  lemma {:induction false} DropLowShorter(s: seq<Cross>, height: nat)
    ensures |DropLow(s, height)| <= |s|
  {
    if s != [] && s[0].height <= height {
      DropLowShorter(s[1..], height);
    }
  }

  lemma {:induction false} PromoteShorter(l: Lane, wait: nat)
    ensures |Promote(l, wait).pending| <= |l.pending|
    decreases l.pending
  {
    if l.pending != [] && l.pending[0].height == wait {
      PromoteShorter(Lane(l.valid + [l.pending[0]], l.pending[1..]), wait);
    }
  }

  lemma UpdateShorter(l: Lane, best: nat, next: map<nat, nat>)
    ensures |Update(l, best, next).pending| <= |l.pending|
  {
    DropLowShorter(l.pending, best);
    PromoteShorter(Purge(l, best), Wait(next, best));
  }

  lemma RemoveOrderly(s: PoolState)
    requires Inv(s)
    ensures Orderly(Purge(s.lane, At(s.chain, s.best)), s.chain, s.seen)
    ensures forall b ::
              Holds(Purge(s.lane, At(s.chain, s.best)), b) <==> Holds(s.lane, b) && At(s.chain, s.best) < b.height
    ensures |Purge(s.lane, At(s.chain, s.best)).pending| <= |s.lane.pending|
  {
    PurgeOrderly(s.lane, s.chain, s.seen, s.chain, s.best);
    DropLowShorter(s.lane.pending, At(s.chain, s.best));
    var l := Purge(s.lane, At(s.chain, s.best));
    if s.seen < s.best {
      AscendingBelow(s.chain, s.seen, s.best);
      if s.lane.valid != [] {
        ValidGone(s.chain, s.seen, s.best);
      }
    }
  }

  /** Every step keeps the pool orderly; blocks enter only by arriving and leave only at or below the best height. */
  lemma NextInv(s: PoolState, e: Event, t: PoolState)
    requires Inv(s) && Next(s, e, t)
    ensures Inv(t)
    ensures forall b :: Holds(s.lane, b) && !Holds(t.lane, b) ==> b.height <= At(t.chain, t.best)
    ensures forall b :: Holds(t.lane, b) && !Holds(s.lane, b) ==> e.Arrive? && e.b == b
  {
    match e {
      case Advance(chain, known, best) =>
        assert At(chain, s.seen) == At(s.chain, s.seen);
      case Refresh(next) =>
        UpdateOrderly(s.lane, s.chain, s.seen, s.chain, s.best, s.known, next);
        UpdateShorter(s.lane, At(s.chain, s.best), next);
      case Arrive(b, next) =>
        EnqueueOrderly(s.lane, s.chain, s.seen, b);
        SameElements(Sort(s.lane.pending + [b], HeightKey), s.lane.pending + [b]);
        UpdateOrderly(Enqueue(s.lane, b), s.chain, s.seen, s.chain, s.best, s.known, next);
        UpdateShorter(Enqueue(s.lane, b), At(s.chain, s.best), next);
      case Remove =>
        RemoveOrderly(s);
    }
  }

  predicate Run(run: seq<PoolState>, events: seq<Event>) {
    && |run| == |events| + 1 && run[0] == EmptyPool
    && forall i {:trigger events[i]} :: 0 <= i < |events| ==> Next(run[i], events[i], run[i + 1])
  }

  /** In every run: at most one valid block, the confirmed successor of the best height; no height both valid and
      pending; what GetValidBlock offers is in strict order and above zero, as the producer and the check need it. */
  lemma {:induction false} RunInv(run: seq<PoolState>, events: seq<Event>, i: nat)
    requires Run(run, events) && i < |run|
    ensures Inv(run[i]) && Rising(run[i].lane.valid) && Above(run[i].lane.valid, 0)
  {
    if i > 0 {
      RunInv(run, events, i - 1);
      assert Next(run[i - 1], events[i - 1], run[i - 1 + 1]);
      NextInv(run[i - 1], events[i - 1], run[i]);
    }
  }
}
