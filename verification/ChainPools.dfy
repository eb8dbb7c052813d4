// The pool objects over the discipline of BlockPools: one pool for a single chain (mempool/beacon_pool.go and
// mempool/shard_pool.go) and one for all shards at the beacon (mempool/shard_to_beacon_pool_v2.go).
module ChainPools {
  import opened Common
  import opened Sorting
  import opened BlockPools

  method LatestOf(rule: Rule, pool: seq<Block>, latest: nat) returns (lastHeight: nat)
    ensures lastHeight == Climb(rule, pool, latest)
  {
    lastHeight := latest;
    assert pool[0..] == pool;
    for i := 0 to |pool|
      invariant Climb(rule, pool, latest) == Climb(rule, pool[i..], lastHeight)
    {
      if lastHeight + 1 != pool[i].height && (rule.Stopping? || pool[i].height > lastHeight) {
        break;
      }
      lastHeight := pool[i].height;
    }
  }

  method WithoutLow(pool: seq<Block>, height: nat) returns (r: seq<Block>)
    ensures r == DropLow(pool, height)
  {
    r := pool;
    assert pool[0..] == pool;
    for index := 0 to |pool|
      invariant r == pool && (index == |pool| ==> pool == [])
      invariant DropLow(pool, height) == DropLow(pool[index..], height)
    {
      if pool[index].height <= height {
        if index == |pool| - 1 {
          return pool[index + 1..];
        }
        continue;
      } else {
        return pool[index..];
      }
    }
  }

  datatype Refusal = Old | Duplicate | ValidFull | InvalidFull

  datatype Verdict = Keep(pool: seq<Block>) | Refuse(why: Refusal)

  // The tests on a new block, and the blocks that stay beside it.
  method Admit(l: Lane, b: Block) returns (v: Verdict)
    ensures v.Keep? <==> Accepts(l, b)
    ensures v.Keep? ==> v.pool == Kept(l)
  {
    if b.height <= l.latest {
      return Refuse(Old);
    }
    var found := HasKey(l.pool, b.height, HeightKey);
    if found {
      return Refuse(Duplicate);
    }
    var pool := l.pool;
    if |pool| != 0 {
      var numValid := l.latest - pool[0].height;
      var numInvalid := |pool| - numValid;
      if numValid > MAX_VALID {
        return Refuse(ValidFull);
      }
      var last := pool[|pool| - 1];
      if numInvalid > MAX_INVALID {
        if last.height > b.height {
          pool := pool[..|pool| - 1];
        } else {
          return Refuse(InvalidFull);
        }
      }
    }
    return Keep(pool);
  }

  method TryAdd(rule: Rule, l: Lane, b: Block) returns (r: Lane, ok: bool)
    ensures ok == Accepts(l, b) && r == Add(rule, l, b)
  {
    var verdict := Admit(l, b);
    if verdict.Refuse? {
      return l, false;
    }
    var pool := Sort(verdict.pool + [b], HeightKey);
    var latest := LatestOf(rule, pool, l.latest);
    return Lane(pool, latest), true;
  }

  method TryAddOrderly(rule: Rule, l: Lane, b: Block, ghost base: nat) returns (r: Lane, ok: bool)
    requires Inv(rule, l, base)
    ensures ok == Accepts(l, b) && r == Add(rule, l, b)
    ensures Inv(rule, r, base) && l.latest <= r.latest && (!ok ==> r == l)
  {
    AddInv(rule, l, base, b);
    r, ok := TryAdd(rule, l, b);
  }

  // The blocks up to the latest height and up to the limit, a zero limit being none.
  method TakeReady(l: Lane, limit: nat) returns (r: seq<Block>)
    ensures r == Ready(l.pool, Bound(l.latest, limit))
  {
    r := [];
    assert l.pool[0..] == l.pool;
    for i := 0 to |l.pool|
      invariant Ready(l.pool, Bound(l.latest, limit)) == r + Ready(l.pool[i..], Bound(l.latest, limit))
    {
      if l.pool[i].height > l.latest || (limit != 0 && limit < l.pool[i].height) {
        break;
      }
      r := r + [l.pool[i]];
    }
  }

  function Bound(latest: nat, limit: nat): (r: nat) { if limit != 0 && limit < latest then limit else latest }

  // ---------------------------------------------------------------------------------------------
  // One chain
  // ---------------------------------------------------------------------------------------------

  class ChainPool {
    const rule: Rule
    var pool: seq<Block>
    var latestValidHeight: nat
    // The height last set by the chain.
    ghost var base: nat

    ghost predicate Valid()
      reads this
    {
      Inv(rule, Contents(), base)
    }

    ghost function Contents(): (l: Lane)
      reads this
    {
      Lane(pool, latestValidHeight)
    }

    constructor (r: Rule)
      ensures Valid() && rule == r && Contents() == Lane([], 1) && base == 1
    {
      rule, pool, latestValidHeight, base := r, [], 1, 1;
    }

    /** The chain has moved, or been reset, to a height. */
    method SetState(height: nat)
      requires Valid()
      modifies this
      ensures Valid() && base == height && Contents() == Reset(rule, old(Contents()), height)
      ensures Maximal(Contents())
    {
      ResetInv(rule, Lane(pool, latestValidHeight), height);
      latestValidHeight := height;
      pool := WithoutLow(pool, height);
      latestValidHeight := LatestOf(rule, pool, latestValidHeight);
      base := height;
    }

    method AddBlock(b: Block) returns (ok: bool)
      requires Valid()
      modifies this
      ensures Valid() && base == old(base)
      ensures ok == Accepts(old(Contents()), b) && Contents() == Add(rule, old(Contents()), b)
      ensures latestValidHeight >= old(latestValidHeight)
    {
      var l;
      l, ok := TryAddOrderly(rule, Lane(pool, latestValidHeight), b, base);
      pool, latestValidHeight := l.pool, l.latest;
    }

    /** Exactly the blocks after the base up to the latest height. */
    method GetValidBlock() returns (r: seq<Block>)
      requires Valid()
      ensures |r| == latestValidHeight - base && r <= pool
      ensures forall i :: 0 <= i < |r| ==> r[i].height == base + 1 + i
    {
      r := TakeReady(Lane(pool, latestValidHeight), 0);
      ReadyExactly(Lane(pool, latestValidHeight), base);
    }
  }

  // ---------------------------------------------------------------------------------------------
  // All shards at the beacon
  // ---------------------------------------------------------------------------------------------

  function Blocks(m: map<Shard, seq<Block>>, s: Shard): (r: seq<Block>) { if s in m then m[s] else [] }

  // A missing or zero height counts as 1.
  function Height(m: map<Shard, nat>, s: Shard): (h: nat) { if s in m && m[s] != 0 then m[s] else 1 }

  function LaneIn(pool: map<Shard, seq<Block>>, latest: map<Shard, nat>, s: Shard): (l: Lane) {
    Lane(Blocks(pool, s), Height(latest, s))
  }

  lemma SetHeight(m: map<Shard, nat>, shard: Shard, h: nat)
    requires h > 0
    ensures forall s: Shard {:trigger Height(m[shard := h], s)} ::
              Height(m[shard := h], s) == if s == shard then h else Height(m, s)
  {
  }

  lemma SetBlocks(m: map<Shard, seq<Block>>, shard: Shard, x: seq<Block>)
    ensures forall s: Shard {:trigger Blocks(m[shard := x], s)} ::
              Blocks(m[shard := x], s) == if s == shard then x else Blocks(m, s)
  {
  }

  // The latest heights recomputed for every shard that has an entry in the pool.
  method Refresh(pool: map<Shard, seq<Block>>, latest: map<Shard, nat>) returns (r: map<Shard, nat>)
    requires forall s: Shard :: AllAbove(Blocks(pool, s), 0)
    ensures forall s: Shard {:trigger Height(r, s)} ::
              Height(r, s) == Climb(Through, Blocks(pool, s), Height(latest, s))
  {
    r := latest;
    var todo := pool.Keys;
    while todo != {}
      invariant todo <= pool.Keys
      invariant forall s: Shard {:trigger Height(r, s)} ::
                  Height(r, s) == if s in todo then Height(latest, s)
                                  else Climb(Through, Blocks(pool, s), Height(latest, s))
      decreases todo
    {
      var shard :| shard in todo;
      var lastHeight := LatestOf(Through, pool[shard], Height(latest, shard));
      ClimbPositive(Blocks(pool, shard), Height(latest, shard));
      SetHeight(r, shard, lastHeight);
      r := r[shard := lastHeight];
      todo := todo - {shard};
    }
  }

  lemma {:induction false} ClimbPositive(pool: seq<Block>, last: nat)
    requires last > 0 && AllAbove(pool, 0)
    ensures Climb(Through, pool, last) > 0
  {
    if pool != [] {
      assert AllAbove(pool[1..], 0);
      ClimbPositive(pool[1..], pool[0].height);
    }
  }

  // Every block at or below its shard's new height leaves the pool.
  method RemovePending(pool: map<Shard, seq<Block>>, heights: map<Shard, nat>) returns (r: map<Shard, seq<Block>>)
    ensures forall s: Shard {:trigger Blocks(r, s)} ::
              Blocks(r, s) == if s in heights then DropLow(Blocks(pool, s), heights[s]) else Blocks(pool, s)
  {
    r := pool;
    var todo := heights.Keys;
    while todo != {}
      invariant todo <= heights.Keys
      invariant forall s: Shard {:trigger Blocks(r, s)} :: Blocks(r, s) ==
                  if s in heights && s !in todo then DropLow(Blocks(pool, s), heights[s]) else Blocks(pool, s)
      decreases todo
    {
      var shard :| shard in todo;
      var rest := WithoutLow(Blocks(pool, shard), heights[shard]);
      SetBlocks(r, shard, rest);
      r := r[shard := rest];
      todo := todo - {shard};
    }
  }

  // Heights below 1 count as 1; the given heights replace the latest ones.
  function Raised(heights: map<Shard, nat>): (r: map<Shard, nat>)
    ensures r.Keys == heights.Keys && forall s :: s in r ==> r[s] == Height(heights, s)
  {
    map s | s in heights :: Height(heights, s)
  }

  // Where to ask for more blocks: after the latest height, when no block is valid.
  datatype Reply = Nothing | Request(from: nat, to: nat) | Refused

  function Asked(l: Lane): (r: Reply) {
    if l.pool != [] && l.pool[0].height > l.latest
    then
      var offset := l.pool[0].height - l.latest;
      Request(l.latest + 1, l.latest + if offset > MAX_VALID then MAX_VALID else offset)
    else Nothing
  }

  /** Blocks are asked for exactly when some are held and none is valid: the missing ones below the lowest and that one
      itself, but no more than a thousand. */
  lemma AskedExactly(l: Lane, base: nat, h: nat)
    requires Inv(Through, l, base)
    ensures Asked(l) != Refused && (Asked(l).Request? <==> l.pool != [] && l.latest == base)
    ensures Asked(l).Request? ==>
              (Asked(l).from <= h <= Asked(l).to <==>
                 l.latest < h <= l.latest + 1000 && h <= l.pool[0].height)
    ensures Asked(l).Request? && l.latest < h < l.pool[0].height ==> !HasHeight(l.pool, h)
  {
    if l.pool != [] {
      if l.latest > base {
        assert l.pool[0].height == base + 1 + 0;
      } else {
        AfterStretch(l, base, 0);
      }
      forall i | 0 < i < |l.pool| ensures l.pool[0].height < l.pool[i].height {
        assert HeightKey(l.pool[0]) < HeightKey(l.pool[i]);
      }
    }
  }

  // Refreshing an orderly lane changes nothing.
  lemma RefreshSame(l: Lane, base: nat)
    requires Inv(Through, l, base)
    ensures Climb(Through, l.pool, l.latest) == l.latest
  {
    ClimbInv(Through, l.pool, base, l.latest);
    LatestUnique(l.pool, base, Climb(Through, l.pool, l.latest), l.latest);
  }

  class ShardToBeaconPool {
    var pool: map<Shard, seq<Block>>
    var latestValidHeight: map<Shard, nat>
    ghost var base: map<Shard, nat>

    ghost function LaneOf(s: Shard): (l: Lane)
      reads this
    {
      LaneIn(pool, latestValidHeight, s)
    }

    ghost predicate Valid()
      reads this
    {
      forall s: Shard {:trigger LaneOf(s)} :: Inv(Through, LaneOf(s), Height(base, s))
    }

    constructor ()
      ensures Valid() && forall s: Shard :: LaneOf(s) == Lane([], 1) && Height(base, s) == 1
    {
      pool, latestValidHeight, base := map[], map[], map[];
    }

    method AddShardToBeaconBlock(b: Block, shard: Shard) returns (r: Reply)
      requires Valid()
      modifies this
      ensures Valid() && base == old(base)
      ensures LaneOf(shard) == Add(Through, old(LaneOf(shard)), b)
      ensures forall s: Shard {:trigger LaneOf(s)} :: s != shard ==> LaneOf(s) == old(LaneOf(s))
      ensures r == if Accepts(old(LaneOf(shard)), b) then Asked(LaneOf(shard)) else Refused
      ensures LaneOf(shard).latest >= old(LaneOf(shard)).latest
    {
      assert Inv(Through, LaneOf(shard), Height(base, shard));
      var l, ok := TryAddOrderly(Through, LaneIn(pool, latestValidHeight, shard), b, Height(base, shard));
      if ok {
        SetLane(shard, l);
        r := Asked(l);
      } else {
        r := Refused;
      }
    }

    method SetLane(shard: Shard, l: Lane)
      requires l.latest > 0
      modifies this`pool, this`latestValidHeight
      ensures LaneOf(shard) == l
      ensures forall s: Shard {:trigger LaneOf(s)} :: s != shard ==> LaneOf(s) == old(LaneOf(s))
    {
      SetBlocks(pool, shard, l.pool);
      SetHeight(latestValidHeight, shard, l.latest);
      pool := pool[shard := l.pool];
      latestValidHeight := latestValidHeight[shard := l.latest];
    }

    /** Each shard's blocks up to its latest height and its limit. */
    method GetValidPendingBlock(limit: map<Shard, nat>) returns (r: map<Shard, seq<Block>>)
      ensures forall s: Shard :: s in r <==> Ready(LaneOf(s).pool, Bound(LaneOf(s).latest, Limit(limit, s))) != []
      ensures forall s: Shard :: s in r ==> r[s] == Ready(LaneOf(s).pool, Bound(LaneOf(s).latest, Limit(limit, s)))
    {
      r := map[];
      var todo := pool.Keys;
      while todo != {}
        invariant todo <= pool.Keys
        invariant forall s: Shard :: s in r <==>
                    s !in todo && Ready(LaneOf(s).pool, Bound(LaneOf(s).latest, Limit(limit, s))) != []
        invariant forall s: Shard :: s in r ==> r[s] == Ready(LaneOf(s).pool, Bound(LaneOf(s).latest, Limit(limit, s)))
        decreases todo
      {
        var shard :| shard in todo;
        var blocks := TakeReady(LaneIn(pool, latestValidHeight, shard), Limit(limit, shard));
        if blocks != [] {
          r := r[shard := blocks];
        }
        todo := todo - {shard};
      }
    }

    /** The chain's new heights: each named shard is reset to its height, the others stay as they are. */
    method SetShardState(heights: map<Shard, nat>)
      requires Valid()
      modifies this
      ensures Valid()
      ensures forall s: Shard {:trigger LaneOf(s)} :: LaneOf(s) ==
                if s in heights then Reset(Through, old(LaneOf(s)), Height(heights, s)) else old(LaneOf(s))
      ensures forall s: Shard :: Height(base, s) == if s in heights then Height(heights, s) else old(Height(base, s))
    {
      ghost var pool0, latest0, base0 := pool, latestValidHeight, base;
      forall s: Shard ensures Inv(Through, LaneIn(pool0, latest0, s), Height(base0, s)) {
        assert Inv(Through, LaneOf(s), Height(base, s));
      }
      var raised := Raised(heights);
      latestValidHeight := latestValidHeight + raised;
      pool := RemovePending(pool, raised);
      forall s: Shard ensures AllAbove(Blocks(pool, s), 0) {
        DropLowAbove(LaneIn(pool0, latest0, s), Height(base0, s), Height(heights, s));
      }
      latestValidHeight := Refresh(pool, latestValidHeight);
      base := base + raised;
      forall s: Shard
        ensures LaneIn(pool, latestValidHeight, s) ==
                  if s in heights then Reset(Through, LaneIn(pool0, latest0, s), Height(heights, s))
                  else LaneIn(pool0, latest0, s)
        ensures Inv(Through, LaneIn(pool, latestValidHeight, s), Height(base, s))
      {
        if s in heights {
          ResetInv(Through, LaneIn(pool0, latest0, s), Height(heights, s));
        } else {
          RefreshSame(LaneIn(pool0, latest0, s), Height(base0, s));
        }
      }
    }
  }

  function Limit(limit: map<Shard, nat>, s: Shard): (h: nat) { if s in limit then limit[s] else 0 }

  lemma DropLowAbove(l: Lane, base: nat, height: nat)
    requires Inv(Through, l, base)
    ensures AllAbove(l.pool, 0) && AllAbove(DropLow(l.pool, height), 0)
  {
    DropLowStrict(l.pool, height);
  }

  /** In an orderly lane the blocks handed out under a limit are the ones right after the base, in order. */
  lemma ReadyBounded(l: Lane, base: nat, top: nat)
    requires Contiguous(l, base) && top <= l.latest
    ensures Ready(l.pool, top) <= l.pool && |Ready(l.pool, top)| == if top < base then 0 else top - base
    ensures forall i :: 0 <= i < |Ready(l.pool, top)| ==> Ready(l.pool, top)[i].height == base + 1 + i <= top
  {
    var n := if top < base then 0 else top - base;
    if n < l.latest - base {
      assert l.pool[n].height == base + 1 + n;
    } else if n < |l.pool| {
      AfterStretch(l, base, n);
    }
    ReadyPrefix(l.pool, top, n);
  }

  /** With a limit, zero meaning none, exactly the blocks up to the latest height and up to the limit. */
  lemma ReadyWithin(l: Lane, base: nat, limit: nat, b: Block)
    requires Contiguous(l, base)
    ensures b in Ready(l.pool, Bound(l.latest, limit)) <==>
              b in l.pool && b.height <= l.latest && (limit == 0 || b.height <= limit)
  {
    var top := Bound(l.latest, limit);
    var r := Ready(l.pool, top);
    ReadyBounded(l, base, top);
    if b in l.pool && b.height <= top {
      var i :| 0 <= i < |l.pool| && l.pool[i] == b;
      if l.latest - base <= i {
        AfterStretch(l, base, i);
      }
      assert i < |r| && r[i] == b;
    }
  }
}
