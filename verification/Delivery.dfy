// The receiving side of cross-shard delivery: the block producer picks blocks from the pool along the links
// (getCrossShardData in blockchain/shardproducer.go), a validator checks another producer's choice against its own pool
// and links (VerifyPreProcessingShardBlock in blockchain/shardprocess.go), and an inserted block moves the best height.
module Delivery {
  import opened Common
  import opened Sorting
  import opened CrossShard

  // A cross-shard block in the pool. `sound` tells whether its committee is known and VerifyCrossShardBlock passes.
  datatype Cross = Cross(height: nat, payload: nat, sound: bool)

  // What a shard block carries over from one cross-shard block.
  datatype Coin = Coin(height: nat, payload: nat)

  function CoinOf(b: Cross): (c: Coin) { Coin(b.height, b.payload) }

  predicate Rising(s: seq<Cross>) { forall i, j :: 0 <= i < j < |s| ==> s[i].height < s[j].height }

  // The carried blocks are the registered ones from position p on.
  predicate Covers(coins: seq<Coin>, h: seq<nat>, p: nat) {
    p + |coins| <= |h| && forall i :: 0 <= i < |coins| ==> coins[i].height == h[p + i]
  }

  // A sound block with this height and payload is in the pool.
  predicate Held(c: Coin, pool: seq<Cross>) { Cross(c.height, c.payload, true) in pool }

  predicate AllHeld(coins: seq<Coin>, pool: seq<Cross>) { forall i :: 0 <= i < |coins| ==> Held(coins[i], pool) }

  // ---------------------------------------------------------------------------------------------
  // The producer's choice
  // ---------------------------------------------------------------------------------------------

  function Follow(pool: seq<Cross>, start: nat, next: map<nat, nat>): (r: seq<Coin>) {
    if pool == [] || pool[0].height <= start || start !in next then []
    else if next[start] != pool[0].height then Follow(pool[1..], start, next)
    else if !pool[0].sound then []
    else [CoinOf(pool[0])] + Follow(pool[1..], pool[0].height, next)
  }

  // One pass of the producer over the pooled blocks of one shard.
  method Collect(pool: seq<Cross>, best: nat, next: map<nat, nat>) returns (coins: seq<Coin>)
    ensures coins == Follow(pool, best, next)
  {
    coins := [];
    var startHeight := best;
    var i := 0;
    assert pool[0..] == pool;
    while i < |pool|
      invariant 0 <= i <= |pool|
      invariant Follow(pool, best, next) == coins + Follow(pool[i..], startHeight, next)
    {
      var blk := pool[i];
      if blk.height <= startHeight || startHeight !in next {
        break;
      }
      i := i + 1;
      if next[startHeight] != blk.height {
        continue;
      }
      startHeight := blk.height;
      if !blk.sound {
        break;
      }
      coins := coins + [CoinOf(blk)];
    }
  }

  // The producer: the pooled blocks of every shard, sorted and followed; shards that give nothing are absent.
  method GetCrossShardData(valid: map<Shard, seq<Cross>>, best: map<Shard, nat>, next: map<Shard, map<nat, nat>>)
    returns (body: map<Shard, seq<Coin>>)
    ensures forall s: Shard :: s in body <==> s in valid && Chosen(valid[s], Best(best, s), Table(next, s)) != []
    ensures forall s: Shard :: s in body ==> body[s] == Chosen(valid[s], Best(best, s), Table(next, s))
  {
    body := map[];
    var todo := valid.Keys;
    while todo != {}
      invariant todo <= valid.Keys
      invariant forall s: Shard :: s in body <==>
                  s in valid && s !in todo && Chosen(valid[s], Best(best, s), Table(next, s)) != []
      invariant forall s: Shard :: s in body ==> body[s] == Chosen(valid[s], Best(best, s), Table(next, s))
      decreases todo
    {
      var fromShard :| fromShard in todo;
      var coins := Collect(Sort(valid[fromShard], HeightKey), Best(best, fromShard), Table(next, fromShard));
      if coins != [] {
        body := body[fromShard := coins];
      }
      todo := todo - {fromShard};
    }
  }

  function HeightKey(b: Cross): (k: int) { b.height }

  // A missing entry reads as height zero, or as no links.
  function Best(best: map<Shard, nat>, s: Shard): (h: nat) { if s in best then best[s] else 0 }

  function Table(next: map<Shard, map<nat, nat>>, s: Shard): (t: map<nat, nat>) { if s in next then next[s] else map[] }

  function Chosen(pool: seq<Cross>, best: nat, next: map<nat, nat>): (coins: seq<Coin>) {
    Follow(Sort(pool, HeightKey), best, next)
  }

  predicate Ready(pool: seq<Cross>, height: nat) {
    exists i :: 0 <= i < |pool| && pool[i].height == height && pool[i].sound
  }

  // What is chosen is a stretch of the registered heights, and it ends only where the pool has no sound next block.
  predicate Maximal(pool: seq<Cross>, h: seq<nat>, q: nat) { q < |h| ==> !Ready(pool, h[q]) }

  lemma CoversCons(c: Coin, coins: seq<Coin>, h: seq<nat>, p: nat)
    requires p < |h| && c.height == h[p] && Covers(coins, h, p + 1)
    ensures Covers([c] + coins, h, p)
  {
    forall i | 0 <= i < |[c] + coins| ensures ([c] + coins)[i].height == h[p + i] {
      if i > 0 {
        assert coins[i - 1].height == h[p + 1 + (i - 1)];
      }
    }
  }

  lemma HeldMore(coins: seq<Coin>, pool: seq<Cross>)
    requires pool != [] && AllHeld(coins, pool[1..])
    ensures AllHeld(coins, pool)
  {
    forall i | 0 <= i < |coins| ensures Held(coins[i], pool) {
      assert Held(coins[i], pool[1..]);
    }
  }

  // The link out of every position of the chain: to the next height, and from the last one to 0.
  predicate Threaded(next: map<nat, nat>, h: seq<nat>) {
    && Ascending(h)
    && forall p: nat {:trigger At(h, p)} :: p <= |h| ==> Link(next, At(h, p), h != [], if p < |h| then h[p] else 0)
  }

  predicate Link(next: map<nat, nat>, cur: nat, known: bool, to: nat) {
    if known then cur in next && next[cur] == to else cur !in next
  }

  lemma LinkedIsThreaded(l: Links, h: seq<nat>)
    requires Linked(l, h)
    ensures Threaded(l.next, h)
  {
    forall p: nat | p <= |h| ensures Link(l.next, At(h, p), h != [], if p < |h| then h[p] else 0) {
      assert p > 0 ==> At(h, p) in h;
    }
  }

  /** Whatever the pool holds, the producer carries over exactly the next registered heights, from sound blocks. */
  lemma {:induction false} FollowCovers(next: map<nat, nat>, h: seq<nat>, p: nat, pool: seq<Cross>)
    requires Threaded(next, h) && p <= |h|
    ensures Covers(Follow(pool, At(h, p), next), h, p)
    ensures AllHeld(Follow(pool, At(h, p), next), pool)
    decreases pool
  {
    if pool == [] || pool[0].height <= At(h, p) || h == [] {
    } else if next[At(h, p)] != pool[0].height {
      FollowCovers(next, h, p, pool[1..]);
      HeldMore(Follow(pool[1..], At(h, p), next), pool);
    } else if pool[0].sound {
      FollowCovers(next, h, p + 1, pool[1..]);
      var rest := Follow(pool[1..], At(h, p + 1), next);
      CoversCons(CoinOf(pool[0]), rest, h, p);
      HeldMore(rest, pool);
      assert Held(CoinOf(pool[0]), pool);
    }
  }

  predicate Above(pool: seq<Cross>, height: nat) { forall i :: 0 <= i < |pool| ==> height < pool[i].height }

  lemma ReadyRest(pool: seq<Cross>, height: nat)
    requires pool != [] && !Ready(pool[1..], height) && (pool[0].height != height || !pool[0].sound)
    ensures !Ready(pool, height)
  {
    forall i | 0 <= i < |pool| ensures !(pool[i].height == height && pool[i].sound) {
      if i > 0 {
        assert pool[i] == pool[1..][i - 1];
      }
    }
  }

  /** With a pool in strict order above the best height, the producer stops only where the pool has nothing to offer. */
  lemma {:induction false} FollowMaximal(next: map<nat, nat>, h: seq<nat>, p: nat, pool: seq<Cross>)
    requires Threaded(next, h) && p <= |h| && Rising(pool) && Above(pool, At(h, p))
    ensures Maximal(pool, h, p + |Follow(pool, At(h, p), next)|)
    decreases pool
  {
    if pool == [] || h == [] {
    } else {
      assert Rising(pool[1..]) && Above(pool[1..], pool[0].height);
      if next[At(h, p)] != pool[0].height {
        FollowMaximal(next, h, p, pool[1..]);
        SkippedIsBelow(next, h, p, pool);
      } else if pool[0].sound {
        FollowMaximal(next, h, p + 1, pool[1..]);
        var q := p + |Follow(pool, At(h, p), next)|;
        if q < |h| {
          ReadyRest(pool, h[q]);
        }
      } else {
        assert !Ready(pool[1..], h[p]);
        ReadyRest(pool, h[p]);
      }
    }
  }

  lemma SkippedIsBelow(next: map<nat, nat>, h: seq<nat>, p: nat, pool: seq<Cross>)
    requires Threaded(next, h) && p <= |h| && pool != [] && Above(pool[1..], pool[0].height) && Above(pool, At(h, p))
    requires h != [] && At(h, p) in next && next[At(h, p)] != pool[0].height
    requires Maximal(pool[1..], h, p + |Follow(pool[1..], At(h, p), next)|)
    ensures Maximal(pool, h, p + |Follow(pool[1..], At(h, p), next)|)
  {
    var r := Follow(pool[1..], At(h, p), next);
    FollowCovers(next, h, p, pool[1..]);
    if p + |r| < |h| {
      if r != [] {
        assert Held(r[0], pool[1..]) && r[0].height == h[p];
      }
      ReadyRest(pool, h[p + |r|]);
    }
  }

  // ---------------------------------------------------------------------------------------------
  // The validator's check
  // ---------------------------------------------------------------------------------------------

  // The first pooled block of a height, or the length of the pool.
  function Find(pool: seq<Cross>, height: nat): (i: nat)
    ensures i <= |pool|
    ensures i < |pool| ==> pool[i].height == height
    ensures forall j :: 0 <= j < i ==> pool[j].height != height
  {
    if pool == [] || pool[0].height == height then 0 else 1 + Find(pool[1..], height)
  }

  predicate Passes(coins: seq<Coin>, pool: seq<Cross>, start: nat, next: map<nat, nat>) {
    coins == [] ||
    var i := Find(pool, coins[0].height);
    && i < |pool|
    && start in next && next[start] == coins[0].height
    && pool[i].sound && CoinOf(pool[i]) == coins[0]
    && Passes(coins[1..], pool[i..], coins[0].height, next)
  }

  // The nested loops of the check for one shard; `isValids` counts the coins that found their block.
  method CheckCoins(coins: seq<Coin>, pool: seq<Cross>, best: nat, next: map<nat, nat>) returns (ok: bool)
    ensures ok == Passes(coins, pool, best, next)
  {
    var startHeight, isValids, blocks := best, 0, pool;
    assert coins[0..] == coins;
    for k := 0 to |coins|
      invariant 0 <= isValids <= k
      invariant isValids == k ==> Passes(coins, pool, best, next) == Passes(coins[k..], blocks, startHeight, next)
      invariant isValids < k ==> !Passes(coins, pool, best, next)
    {
      assert coins[k..][0] == coins[k] && coins[k..][1..] == coins[k + 1..];
      var index := 0;
      while index < |blocks| && blocks[index].height != coins[k].height
        invariant 0 <= index <= |blocks|
        invariant forall j :: 0 <= j < index ==> blocks[j].height != coins[k].height
      {
        index := index + 1;
      }
      FindIs(blocks, coins[k].height, index);
      if index < |blocks| {
        if startHeight !in next || next[startHeight] != coins[k].height {
          return false;
        }
        if !blocks[index].sound || CoinOf(blocks[index]) != coins[k] {
          return false;
        }
        startHeight, blocks, isValids := coins[k].height, blocks[index..], isValids + 1;
      }
    }
    ok := isValids == |coins|;
  }

  lemma {:induction false} FindIs(pool: seq<Cross>, height: nat, i: nat)
    requires i <= |pool| && (forall j :: 0 <= j < i ==> pool[j].height != height)
    requires i < |pool| ==> pool[i].height == height
    ensures Find(pool, height) == i
  {
  }

  // The shard is in the pool, and its coins pass.
  predicate ShardPasses(s: Shard, coins: seq<Coin>, valid: map<Shard, seq<Cross>>, best: map<Shard, nat>,
                        next: map<Shard, map<nat, nat>>)
  {
    s in valid && Passes(coins, Sort(valid[s], HeightKey), Best(best, s), Table(next, s))
  }

  // Every named shard passes.
  predicate AllPass(body: map<Shard, seq<Coin>>, valid: map<Shard, seq<Cross>>, best: map<Shard, nat>,
                    next: map<Shard, map<nat, nat>>)
  {
    forall s: Shard {:trigger body[s]} :: s in body ==> ShardPasses(s, body[s], valid, best, next)
  }

  method CheckShard(s: Shard, coins: seq<Coin>, valid: map<Shard, seq<Cross>>, best: map<Shard, nat>,
                    next: map<Shard, map<nat, nat>>) returns (ok: bool)
    ensures ok == ShardPasses(s, coins, valid, best, next)
  {
    if s !in valid {
      return false;
    }
    ok := CheckCoins(coins, Sort(valid[s], HeightKey), Best(best, s), Table(next, s));
  }

  // The whole check: every shard named by the block must be in the pool, and its coins must pass.
  method VerifyCrossShard(body: map<Shard, seq<Coin>>, valid: map<Shard, seq<Cross>>, best: map<Shard, nat>,
                          next: map<Shard, map<nat, nat>>) returns (ok: bool)
    ensures ok == AllPass(body, valid, best, next)
  {
    var todo := body.Keys;
    while todo != {}
      invariant todo <= body.Keys
      invariant forall s: Shard {:trigger body[s]} :: s in body && s !in todo ==>
                  ShardPasses(s, body[s], valid, best, next)
      decreases todo
    {
      var fromShard :| fromShard in todo;
      var good := CheckShard(fromShard, body[fromShard], valid, best, next);
      if !good {
        return false;
      }
      todo := todo - {fromShard};
    }
    return true;
  }

  lemma HeldThere(c: Coin, pool: seq<Cross>)
    requires Rising(pool) && Held(c, pool)
    ensures Find(pool, c.height) < |pool| && pool[Find(pool, c.height)] == Cross(c.height, c.payload, true)
  {
    var i :| 0 <= i < |pool| && pool[i] == Cross(c.height, c.payload, true);
    FindIs(pool, c.height, i);
  }

  predicate HeadFits(coins: seq<Coin>, h: seq<nat>, p: nat, pool: seq<Cross>)
    requires coins != []
  {
    p < |h| && coins[0].height == h[p] && Held(coins[0], pool)
  }

  // A zero link, out of the last height, matches no pooled block.
  lemma PassesHead(next: map<nat, nat>, h: seq<nat>, p: nat, coins: seq<Coin>, pool: seq<Cross>)
    requires Threaded(next, h) && p <= |h| && Above(pool, 0) && coins != []
    ensures Passes(coins, pool, At(h, p), next) ==> HeadFits(coins, h, p, pool)
  {
    assert Link(next, At(h, p), h != [], if p < |h| then h[p] else 0);
    if Passes(coins, pool, At(h, p), next) {
      var i := Find(pool, coins[0].height);
      assert pool[i] == Cross(coins[0].height, coins[0].payload, true);
    }
  }

  lemma PassesTail(next: map<nat, nat>, h: seq<nat>, p: nat, coins: seq<Coin>, pool: seq<Cross>)
    requires Threaded(next, h) && p <= |h| && Rising(pool) && coins != [] && HeadFits(coins, h, p, pool)
    ensures Find(pool, coins[0].height) < |pool|
    ensures Passes(coins, pool, At(h, p), next) <==>
              Passes(coins[1..], pool[Find(pool, coins[0].height)..], At(h, p + 1), next)
  {
    HeldThere(coins[0], pool);
    assert Link(next, At(h, p), h != [], h[p]);
  }

  /** The check accepts exactly the next registered heights, each with the payload of a sound pooled block. */
  lemma {:induction false} PassesExactly(next: map<nat, nat>, h: seq<nat>, p: nat, coins: seq<Coin>, pool: seq<Cross>)
    requires Threaded(next, h) && p <= |h| && Rising(pool) && Above(pool, 0)
    ensures Passes(coins, pool, At(h, p), next) <==> Covers(coins, h, p) && AllHeld(coins, pool)
    decreases coins
  {
    if coins != [] {
      if HeadFits(coins, h, p, pool) {
        var i := Find(pool, coins[0].height);
        PassesTail(next, h, p, coins, pool);
        PassesExactly(next, h, p + 1, coins[1..], pool[i..]);
        CoversSplit(coins, h, p);
        HeldThere(coins[0], pool);
        if Covers(coins, h, p) {
          HeldSplit(coins, pool, h, p, i);
        }
      } else {
        PassesHead(next, h, p, coins, pool);
        HeadNeeded(coins, h, p, pool);
      }
    }
  }

  lemma HeadNeeded(coins: seq<Coin>, h: seq<nat>, p: nat, pool: seq<Cross>)
    requires coins != []
    ensures Covers(coins, h, p) && AllHeld(coins, pool) ==> p < |h| && coins[0].height == h[p] && Held(coins[0], pool)
  {
    assert Covers(coins, h, p) ==> coins[0].height == h[p + 0];
  }

  lemma CoversSplit(coins: seq<Coin>, h: seq<nat>, p: nat)
    requires coins != [] && p < |h|
    ensures Covers(coins, h, p) <==> coins[0].height == h[p] && Covers(coins[1..], h, p + 1)
  {
    assert coins == [coins[0]] + coins[1..];
    if coins[0].height == h[p] && Covers(coins[1..], h, p + 1) {
      CoversCons(coins[0], coins[1..], h, p);
    }
    if Covers(coins, h, p) {
      assert coins[0].height == h[p + 0];
      forall i | 0 <= i < |coins[1..]| ensures coins[1..][i].height == h[p + 1 + i] {
        assert coins[i + 1].height == h[p + (i + 1)];
      }
    }
  }

  // The remaining coins are higher, so their blocks lie further on in the pool.
  lemma HeldSplit(coins: seq<Coin>, pool: seq<Cross>, h: seq<nat>, p: nat, i: nat)
    requires Ascending(h) && Rising(pool) && coins != [] && Covers(coins, h, p)
    requires i < |pool| && pool[i] == Cross(coins[0].height, coins[0].payload, true)
    ensures AllHeld(coins, pool) <==> AllHeld(coins[1..], pool[i..])
  {
    forall k | 0 <= k < |coins[1..]| ensures Held(coins[1..][k], pool) <==> Held(coins[1..][k], pool[i..]) {
      var c := coins[1..][k];
      assert c.height == h[p + (k + 1)] && coins[0].height == h[p + 0];
      if Held(c, pool) {
        var j :| 0 <= j < |pool| && pool[j] == Cross(c.height, c.payload, true);
        assert i <= j && pool[i..][j - i] == pool[j];
      }
    }
    if AllHeld(coins, pool) {
      forall k | 0 <= k < |coins[1..]| ensures Held(coins[1..][k], pool[i..]) {
        assert Held(coins[k + 1], pool);
      }
    }
    if AllHeld(coins[1..], pool[i..]) {
      forall k | 0 <= k < |coins| ensures Held(coins[k], pool) {
        if k > 0 {
          assert coins[k] == coins[1..][k - 1];
        }
      }
    }
  }

  /** What a producer chooses from its pool passes its own check. */
  lemma ChoicePasses(next: map<nat, nat>, h: seq<nat>, p: nat, pool: seq<Cross>)
    requires Threaded(next, h) && p <= |h| && Rising(pool) && Above(pool, 0)
    ensures Passes(Follow(pool, At(h, p), next), pool, At(h, p), next)
  {
    FollowCovers(next, h, p, pool);
    PassesExactly(next, h, p, Follow(pool, At(h, p), next), pool);
  }

  /** Accepted coins are the next registered heights, in whatever order the pool is. */
  lemma {:induction false} PassesCovers(next: map<nat, nat>, h: seq<nat>, p: nat, coins: seq<Coin>, pool: seq<Cross>)
    requires Threaded(next, h) && p <= |h| && Above(pool, 0) && Passes(coins, pool, At(h, p), next)
    ensures Covers(coins, h, p)
    decreases coins
  {
    if coins != [] {
      PassesHead(next, h, p, coins, pool);
      var i := Find(pool, coins[0].height);
      assert Above(pool[i..], 0);
      PassesCovers(next, h, p + 1, coins[1..], pool[i..]);
      CoversSplit(coins, h, p);
    }
  }
}
