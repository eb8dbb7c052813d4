// Exactly-once, in-order delivery between two shards, over every run: the beacon registers the sender's blocks, nodes
// of the receiving shard see the beacon's links with any delay, and each new block of the receiver carries over coins
// that some node chose or checked against its own pool and its own links.
module DeliveryRuns {
  import opened Common
  import opened Sorting
  import opened CrossShard
  import opened CrossShardBody
  import opened Delivery
  import B = BlockPools

  // ---------------------------------------------------------------------------------------------
  // Registering in order
  // ---------------------------------------------------------------------------------------------

  // Heights that never fall, above lo and up to hi.
  predicate Climbs(s: seq<nat>, lo: nat, hi: nat) {
    (forall i :: 0 <= i < |s| ==> lo < s[i] <= hi) && forall i, j :: 0 <= i < j < |s| ==> s[i] <= s[j]
  }

  // The heights right after the last processed one.
  predicate Consecutive(states: seq<ShardState>, top: nat) {
    forall i :: 0 <= i < |states| ==> states[i].height == top + 1 + i
  }

  lemma {:induction false} RepeatsSame(height: nat, shards: seq<Shard>, to: Shard)
    ensures forall i :: 0 <= i < |Repeats(height, shards, to)| ==> Repeats(height, shards, to)[i] == height
  {
    if shards != [] {
      RepeatsSame(height, shards[..|shards| - 1], to);
    }
  }

  lemma {:induction false} HeightsClimb(states: seq<ShardState>, to: Shard, top: nat)
    requires Consecutive(states, top)
    ensures Climbs(HeightsFor(states, to), top, top + |states|)
  {
    if states != [] {
      HeightsClimb(states[..|states| - 1], to, top);
      var s := states[|states| - 1];
      RepeatsSame(s.height, s.crossShard, to);
    }
  }

  // The registered heights after some more registrations.
  function AddAll(h: seq<nat>, heights: seq<nat>): (r: seq<nat>) {
    if heights == [] then h else Add(AddAll(h, heights[..|heights| - 1]), heights[|heights| - 1])
  }

  /** Registering heights that never fall keeps one chain, and only adds to its end. */
  lemma {:induction false} RegisterAllExtends(l: Links, h: seq<nat>, heights: seq<nat>, lo: nat, hi: nat)
    requires Linked(l, h) && At(h, |h|) <= lo <= hi && Climbs(heights, lo, hi)
    ensures Linked(RegisterAll(l, heights), AddAll(h, heights))
    ensures h <= AddAll(h, heights)
    ensures heights == [] ==> AddAll(h, heights) == h
    ensures heights != [] ==> At(AddAll(h, heights), |AddAll(h, heights)|) == heights[|heights| - 1]
  {
    if heights != [] {
      var front, x := heights[..|heights| - 1], heights[|heights| - 1];
      RegisterAllExtends(l, h, front, lo, hi);
      assert front != [] ==> front[|front| - 1] <= x;
      RegisterExtends(RegisterAll(l, front), AddAll(h, front), x);
    }
  }

  // ---------------------------------------------------------------------------------------------
  // Runs of one pair of shards
  // ---------------------------------------------------------------------------------------------

  // top is the beacon's best height of the sender, 1 after genesis; views are all the link tables the beacon chain ever
  // had; coins are those the receiver has carried over, and best is its best cross-shard height. The receiver has
  // halted when a block it accepted stops Update.
  datatype State = State(top: nat, heights: seq<nat>, links: Links, views: seq<Links>, coins: seq<Coin>, best: nat,
                         halted: bool)

  const Start := State(1, [], NoLinks, [NoLinks], [], 0, false)

  // The two shards, and the receivers that the header of a shard block names.
  datatype Pair = Pair(from: Shard, to: Shard, named: B.Block -> seq<Shard>)

  // A beacon block: its producer's pool has seen any arrivals and resets, the last reset to the beacon's best height,
  // and the producer takes some of the blocks the pool hands out, from the first on. Or a receiver block with a body:
  // its producer, or a node that checked it, had some pool of the sender's blocks and one of the views.
  datatype Event = Register(history: seq<B.Event>, take: nat) | Carry(body: Body, pool: seq<Cross>, view: nat)

  // Chosen from the pool, or checked against it; pooled blocks are above the best height, so above zero.
  predicate Acceptable(coins: seq<Coin>, pool: seq<Cross>, best: nat, view: Links) {
    || (coins != [] && coins == Chosen(pool, best, view.next))
    || (pool != [] && Above(pool, 0) && Passes(coins, Sort(pool, HeightKey), best, view.next))
  }

  // The shard blocks of a beacon block, as it records them.
  function StatesOf(blocks: seq<B.Block>, named: B.Block -> seq<Shard>): (r: seq<ShardState>)
    ensures |r| == |blocks|
    ensures forall i :: 0 <= i < |r| ==> r[i] == ShardState(blocks[i].height, named(blocks[i]))
  {
    seq(|blocks|, i requires 0 <= i < |blocks| => ShardState(blocks[i].height, named(blocks[i])))
  }

  function Offered(history: seq<B.Event>): (blocks: seq<B.Block>) {
    var l := B.After(B.Through, 1, history).0;
    B.Ready(l.pool, l.latest)
  }

  predicate BeaconBlock(s: State, t: State, history: seq<B.Event>, take: nat, pair: Pair) {
    && B.After(B.Through, 1, history).1 == s.top && take <= |Offered(history)|
    && Records(s, t, StatesOf(Offered(history)[..take], pair.named), pair.to)
  }

  predicate Records(s: State, t: State, states: seq<ShardState>, to: Shard) {
    var heights := HeightsFor(states, to);
    t == s.(top := s.top + |states|, heights := AddAll(s.heights, heights), links := RegisterAll(s.links, heights),
            views := s.views + [RegisterAll(s.links, heights)])
  }

  predicate ReceiverBlock(s: State, t: State, body: Body, pool: seq<Cross>, view: nat, from: Shard) {
    && !s.halted
    && (from in body ==> view < |s.views| && Acceptable(body[from], pool, s.best, s.views[view]))
    && match Apply(map[from := s.best], body)
       case Panicked => t == s.(halted := true)
       case Updated(best) => t == s.(coins := s.coins + Part(body, from), best := Best(best, from))
  }

  predicate Next(s: State, e: Event, t: State, pair: Pair) {
    match e
    case Register(history, take) => BeaconBlock(s, t, history, take, pair)
    case Carry(body, pool, view) => ReceiverBlock(s, t, body, pool, view, pair.from)
  }

  predicate Run(run: seq<State>, events: seq<Event>, pair: Pair) {
    && |run| == |events| + 1 && run[0] == Start
    && forall i {:trigger events[i]} :: 0 <= i < |events| ==> Next(run[i], events[i], run[i + 1], pair)
  }

  ghost predicate ViewOf(view: Links, heights: seq<nat>) {
    exists k :: 0 <= k <= |heights| && Linked(view, heights[..k])
  }

  ghost predicate AllViews(views: seq<Links>, heights: seq<nat>) {
    forall i :: 0 <= i < |views| ==> ViewOf(views[i], heights)
  }

  /** One growing chain of links, and the receiver has taken exactly a prefix of it. */
  ghost predicate Inv(s: State) {
    && Linked(s.links, s.heights)
    && At(s.heights, |s.heights|) <= s.top
    && AllViews(s.views, s.heights)
    && Covers(s.coins, s.heights, 0)
    && s.best == At(s.heights, |s.coins|)
  }

  lemma ViewGrows(view: Links, h: seq<nat>, g: seq<nat>)
    requires ViewOf(view, h) && h <= g
    ensures ViewOf(view, g)
  {
    var k :| 0 <= k <= |h| && Linked(view, h[..k]);
    assert g[..k] == h[..k];
  }

  /** What a producer takes from its pool follows the beacon's best height without a gap. */
  lemma OfferedConsecutive(history: seq<B.Event>, take: nat, named: B.Block -> seq<Shard>)
    requires take <= |Offered(history)|
    ensures Consecutive(StatesOf(Offered(history)[..take], named), B.After(B.Through, 1, history).1)
  {
    var (l, base) := B.After(B.Through, 1, history);
    B.HandedOut(B.Through, 1, history, l, base);
  }

  lemma BeaconBlockInv(s: State, t: State, history: seq<B.Event>, take: nat, pair: Pair)
    requires Inv(s) && BeaconBlock(s, t, history, take, pair)
    ensures Inv(t) && Before(s, t)
  {
    OfferedConsecutive(history, take, pair.named);
    RecordsInv(s, t, StatesOf(Offered(history)[..take], pair.named), pair.to);
  }

  lemma RecordsInv(s: State, t: State, states: seq<ShardState>, to: Shard)
    requires Inv(s) && Consecutive(states, s.top) && Records(s, t, states, to)
    ensures Inv(t) && Before(s, t)
  {
    var heights := HeightsFor(states, to);
    HeightsClimb(states, to, s.top);
    RegisterAllExtends(s.links, s.heights, heights, s.top, s.top + |states|);
    forall i | 0 <= i < |t.views| ensures ViewOf(t.views[i], t.heights) {
      if i < |s.views| {
        ViewGrows(s.views[i], s.heights, t.heights);
      } else {
        assert t.heights[..|t.heights|] == t.heights;
      }
    }
    assert At(t.heights, |s.coins|) == At(s.heights, |s.coins|);
  }

  // A view that ends before the best height offers nothing.
  lemma BeyondView(view: Links, h: seq<nat>, k: nat, n: nat)
    requires Ascending(h) && k < n <= |h| && Linked(view, h[..k])
    ensures At(h, n) !in view.next
  {
    assert At(h, n) == h[n - 1];
    forall i | 0 <= i < k ensures h[..k][i] != h[n - 1] {
    }
  }

  lemma NothingAcceptable(coins: seq<Coin>, pool: seq<Cross>, view: Links, best: nat)
    requires best !in view.next && coins != []
    ensures !Acceptable(coins, pool, best, view)
  {
  }

  lemma InsideView(view: Links, h: seq<nat>, k: nat, n: nat)
    requires n <= k <= |h| && Linked(view, h[..k])
    ensures Threaded(view.next, h[..k]) && At(h[..k], n) == At(h, n)
  {
    LinkedIsThreaded(view, h[..k]);
  }

  lemma AcceptableCovers(coins: seq<Coin>, pool: seq<Cross>, view: Links, h: seq<nat>, n: nat)
    requires Ascending(h) && n <= |h| && ViewOf(view, h) && coins != [] && Acceptable(coins, pool, At(h, n), view)
    ensures Covers(coins, h, n)
  {
    var k :| 0 <= k <= |h| && Linked(view, h[..k]);
    if k < n {
      BeyondView(view, h, k, n);
      NothingAcceptable(coins, pool, view, At(h, n));
    } else {
      InsideView(view, h, k, n);
      AcceptableInView(coins, pool, view, h[..k], n);
    }
  }

  lemma AcceptableInView(coins: seq<Coin>, pool: seq<Cross>, view: Links, h: seq<nat>, n: nat)
    requires Threaded(view.next, h) && n <= |h| && Acceptable(coins, pool, At(h, n), view)
    ensures Covers(coins, h, n)
  {
    if coins == Chosen(pool, At(h, n), view.next) {
      FollowCovers(view.next, h, n, Sort(pool, HeightKey));
    } else {
      SortAbove(pool, 0);
      PassesCovers(view.next, h, n, coins, Sort(pool, HeightKey));
    }
  }

  lemma SortAbove(pool: seq<Cross>, height: nat)
    requires Above(pool, height)
    ensures Above(Sort(pool, HeightKey), height)
  {
    var sorted := Sort(pool, HeightKey);
    SameElements(sorted, pool);
    forall i | 0 <= i < |sorted| ensures height < sorted[i].height {
      assert sorted[i] in pool;
    }
  }

  lemma CoversAppend(a: seq<Coin>, b: seq<Coin>, h: seq<nat>)
    requires Covers(a, h, 0) && Covers(b, h, |a|) && b != []
    ensures Covers(a + b, h, 0) && b[|b| - 1].height == At(h, |a + b|)
  {
    assert b[|b| - 1].height == h[|a| + (|b| - 1)];
    forall i | 0 <= i < |a + b| ensures (a + b)[i].height == h[0 + i] {
      if i >= |a| {
        assert b[i - |a|].height == h[|a| + (i - |a|)];
      } else {
        assert a[i].height == h[0 + i];
      }
    }
  }

  lemma CarryInv(s: State, coins: seq<Coin>)
    requires Inv(s) && coins != [] && Covers(coins, s.heights, |s.coins|)
    ensures Inv(s.(coins := s.coins + coins, best := Last(coins)))
    ensures Before(s, s.(coins := s.coins + coins, best := Last(coins)))
  {
    CoversAppend(s.coins, coins, s.heights);
  }

  lemma ApplyBest(b: nat, body: Body, from: Shard)
    requires !SomeEmpty(body)
    ensures Apply(map[from := b], body).Updated?
    ensures Best(Apply(map[from := b], body).best, from) == if from in body then Last(body[from]) else b
  {
  }

  lemma ReceiverBlockInv(s: State, t: State, body: Body, pool: seq<Cross>, view: nat, from: Shard)
    requires Inv(s) && ReceiverBlock(s, t, body, pool, view, from)
    ensures Inv(t) && Before(s, t)
  {
    if SomeEmpty(body) {
      assert t == s.(halted := true);
    } else {
      ApplyBest(s.best, body, from);
      if from in body {
        assert ViewOf(s.views[view], s.heights);
        AcceptableCovers(body[from], pool, s.views[view], s.heights, |s.coins|);
        CarryInv(s, body[from]);
      } else {
        assert s.coins + [] == s.coins;
      }
    }
  }

  lemma NextInv(s: State, e: Event, t: State, pair: Pair)
    requires Inv(s) && Next(s, e, t, pair)
    ensures Inv(t) && Before(s, t)
  {
    match e
    case Register(history, take) => BeaconBlockInv(s, t, history, take, pair);
    case Carry(body, pool, view) => ReceiverBlockInv(s, t, body, pool, view, pair.from);
  }

  // s comes before t: nothing registered or carried is lost.
  predicate Before(s: State, t: State) { s.heights <= t.heights && s.coins <= t.coins }

  /** In every reachable state the links form one ascending chain and the receiver's coins are a prefix of it. */
  lemma {:induction false} RunInv(run: seq<State>, events: seq<Event>, pair: Pair, i: nat)
    requires Run(run, events, pair) && i < |run|
    ensures Inv(run[i])
  {
    if i == 0 {
      StartInv();
    } else {
      RunInv(run, events, pair, i - 1);
      assert Next(run[i - 1], events[i - 1], run[i - 1 + 1], pair);
      NextInv(run[i - 1], events[i - 1], run[i], pair);
    }
  }

  lemma StartInv()
    ensures Inv(Start)
  {
    assert Linked(NoLinks, Start.heights[..0]);
  }

  /** None skipped, none repeated, none reordered: position by position, for every pair of carried blocks. */
  lemma ExactlyOnce(run: seq<State>, events: seq<Event>, pair: Pair, i: nat, a: nat, b: nat)
    requires Run(run, events, pair) && i < |run| && a < |run[i].coins| && b < |run[i].coins|
    ensures |run[i].coins| <= |run[i].heights| && run[i].coins[a].height == run[i].heights[a]
    ensures run[i].coins[a].height < run[i].coins[b].height <==> a < b
  {
    RunInv(run, events, pair, i);
    InOrder(run[i].coins, run[i].heights, a, b);
  }

  lemma InOrder(coins: seq<Coin>, h: seq<nat>, a: nat, b: nat)
    requires Ascending(h) && Covers(coins, h, 0) && a < |coins| && b < |coins|
    ensures coins[a].height == h[a] && (coins[a].height < coins[b].height <==> a < b)
  {
    assert coins[a].height == h[0 + a] && coins[b].height == h[0 + b];
  }

  lemma BeforeBefore(s: State, t: State, u: State)
    requires Before(s, t) && Before(t, u)
    ensures Before(s, u)
  {
  }

  lemma StepGrows(run: seq<State>, events: seq<Event>, pair: Pair, i: nat)
    requires Run(run, events, pair) && i + 1 < |run|
    ensures Before(run[i], run[i + 1])
  {
    RunInv(run, events, pair, i);
    NextInv(run[i], events[i], run[i + 1], pair);
  }

  /** Registered heights and carried coins only grow. */
  lemma {:induction false} RunGrows(run: seq<State>, events: seq<Event>, pair: Pair, i: nat, j: nat)
    requires Run(run, events, pair) && i <= j < |run|
    ensures Before(run[i], run[j])
    decreases j
  {
    if i < j {
      RunGrows(run, events, pair, i, j - 1);
      StepGrows(run, events, pair, j - 1);
      BeforeBefore(run[i], run[j - 1], run[j]);
    }
  }

  /** The receiver halts exactly at an accepted block that has an empty list in its body. */
  lemma HaltsAtEmptyList(run: seq<State>, events: seq<Event>, pair: Pair, i: nat)
    requires Run(run, events, pair) && i < |events| && !run[i].halted
    ensures run[i + 1].halted <==> events[i].Carry? && SomeEmpty(events[i].body)
  {
    assert Next(run[i], events[i], run[i + 1], pair);
  }

  // ---------------------------------------------------------------------------------------------
  // Waiting
  // ---------------------------------------------------------------------------------------------

  // Some receiver block before step i was chosen from, or checked against, a pool that held this coin's block.
  predicate FromPool(events: seq<Event>, i: nat, c: Coin) {
    exists e :: 0 <= e < i <= |events| && events[e].Carry? && Held(c, events[e].pool)
  }

  lemma {:induction false} PassesHeld(coins: seq<Coin>, pool: seq<Cross>, start: nat, next: map<nat, nat>)
    requires Passes(coins, pool, start, next)
    ensures AllHeld(coins, pool)
    decreases coins
  {
    if coins != [] {
      var i := Find(pool, coins[0].height);
      PassesHeld(coins[1..], pool[i..], coins[0].height, next);
      forall k | 0 <= k < |coins| ensures Held(coins[k], pool) {
        if k > 0 {
          assert coins[1..][k - 1] == coins[k] && Held(coins[k], pool[i..]);
        }
      }
    }
  }

  lemma {:induction false} FollowHeld(pool: seq<Cross>, start: nat, next: map<nat, nat>)
    ensures AllHeld(Follow(pool, start, next), pool)
    decreases pool
  {
    if !(pool == [] || pool[0].height <= start || start !in next) {
      if next[start] != pool[0].height {
        FollowHeld(pool[1..], start, next);
        HeldMore(Follow(pool[1..], start, next), pool);
      } else if pool[0].sound {
        FollowHeld(pool[1..], pool[0].height, next);
        HeldMore(Follow(pool[1..], pool[0].height, next), pool);
        assert Held(CoinOf(pool[0]), pool);
      }
    }
  }

  lemma AcceptableHeld(coins: seq<Coin>, pool: seq<Cross>, best: nat, view: Links)
    requires Acceptable(coins, pool, best, view)
    ensures AllHeld(coins, pool)
  {
    var sorted := Sort(pool, HeightKey);
    SameElements(sorted, pool);
    if coins == Chosen(pool, best, view.next) {
      FollowHeld(sorted, best, view.next);
    } else {
      PassesHeld(coins, sorted, best, view.next);
    }
    forall k | 0 <= k < |coins| ensures Held(coins[k], pool) {
      assert Held(coins[k], sorted);
    }
  }

  /** Whatever is carried over was a sound block in somebody's pool. */
  lemma {:induction false} CarriedFromPool(run: seq<State>, events: seq<Event>, pair: Pair, i: nat, a: nat)
    requires Run(run, events, pair) && i < |run| && a < |run[i].coins|
    ensures FromPool(events, i, run[i].coins[a])
  {
    if i > 0 {
      var s, t := run[i - 1], run[i];
      assert Next(run[i - 1], events[i - 1], run[i - 1 + 1], pair);
      StepGrows(run, events, pair, i - 1);
      if a < |s.coins| {
        CarriedFromPool(run, events, pair, i - 1, a);
        var e :| 0 <= e < i - 1 && events[e].Carry? && Held(s.coins[a], events[e].pool);
      } else {
        CoinsOfStep(s, t, events[i - 1], pair);
        HeldAtEnd(s.coins, Part(events[i - 1].body, pair.from), events[i - 1].pool, a);
      }
    }
  }

  lemma CoinsOfStep(s: State, t: State, e: Event, pair: Pair)
    requires Next(s, e, t, pair)
    ensures t.coins == s.coins ||
            (e.Carry? && t.coins == s.coins + Part(e.body, pair.from) && AllHeld(Part(e.body, pair.from), e.pool))
  {
    match e
    case Register(history, take) =>
    case Carry(body, pool, view) =>
      if pair.from in body {
        AcceptableHeld(body[pair.from], pool, s.best, s.views[view]);
      }
  }

  lemma HeldAtEnd(coins: seq<Coin>, part: seq<Coin>, pool: seq<Cross>, a: nat)
    requires AllHeld(part, pool) && |coins| <= a < |coins + part|
    ensures Held((coins + part)[a], pool)
  {
    assert (coins + part)[a] == part[a - |coins|];
  }

  /** A registered height whose block never reaches a pool stops the receiver there: it carries over no later block. */
  lemma WaitsForEver(run: seq<State>, events: seq<Event>, pair: Pair, i: nat, p: nat)
    requires Run(run, events, pair) && i < |run| && p < |run[i].heights|
    requires forall e, b :: 0 <= e < i && events[e].Carry? && b in events[e].pool ==> b.height != run[i].heights[p]
    ensures |run[i].coins| <= p
  {
    if p < |run[i].coins| {
      ExactlyOnce(run, events, pair, i, p, p);
      CarriedFromPool(run, events, pair, i, p);
    }
  }

  // ---------------------------------------------------------------------------------------------
  // What is registered
  // ---------------------------------------------------------------------------------------------

  // The beacon took a block of this height whose header names the receiver.
  predicate TookFor(e: Event, h: nat, pair: Pair) {
    e.Register? && e.take <= |Offered(e.history)| &&
    exists k :: 0 <= k < e.take && Offered(e.history)[k].height == h && pair.to in pair.named(Offered(e.history)[k])
  }

  lemma {:induction false} AddAllMembers(h: seq<nat>, heights: seq<nat>, x: nat)
    ensures x in AddAll(h, heights) <==> x in h || x in heights
  {
    if heights != [] {
      AddAllMembers(h, heights[..|heights| - 1], x);
      assert heights == heights[..|heights| - 1] + [heights[|heights| - 1]];
    }
  }

  lemma StepRegisters(s: State, t: State, e: Event, pair: Pair, h: nat)
    requires Next(s, e, t, pair)
    ensures h in t.heights <==> h in s.heights || TookFor(e, h, pair)
  {
    if e.Register? {
      var blocks := Offered(e.history)[..e.take];
      var states := StatesOf(blocks, pair.named);
      AddAllMembers(s.heights, HeightsFor(states, pair.to), h);
      HeightsMean(states, pair.to, h);
      BlocksTook(e, h, pair, states);
    }
  }

  lemma BlocksTook(e: Event, h: nat, pair: Pair, states: seq<ShardState>)
    requires e.Register? && e.take <= |Offered(e.history)|
    requires states == StatesOf(Offered(e.history)[..e.take], pair.named)
    ensures TookFor(e, h, pair) <==>
              exists i :: 0 <= i < |states| && states[i].height == h && pair.to in states[i].crossShard
  {
    if TookFor(e, h, pair) {
      var k :| 0 <= k < e.take && Offered(e.history)[k].height == h && pair.to in pair.named(Offered(e.history)[k]);
      assert states[k].height == h;
    }
    if i :| 0 <= i < |states| && states[i].height == h && pair.to in states[i].crossShard {
      assert Offered(e.history)[i].height == h;
    }
  }

  // The beacon took such a block before step i.
  predicate TookBefore(events: seq<Event>, i: nat, h: nat, pair: Pair) {
    exists e :: 0 <= e < i <= |events| && TookFor(events[e], h, pair)
  }

  lemma TookOneMore(events: seq<Event>, i: nat, h: nat, pair: Pair)
    requires i < |events|
    ensures TookBefore(events, i + 1, h, pair) <==> TookBefore(events, i, h, pair) || TookFor(events[i], h, pair)
  {
  }

  /** In every run exactly the heights of those sender's blocks are registered that the beacon took and whose header
      names the receiver. */
  lemma {:induction false} RegisteredExactly(run: seq<State>, events: seq<Event>, pair: Pair, i: nat, h: nat)
    requires Run(run, events, pair) && i < |run|
    ensures h in run[i].heights <==> TookBefore(events, i, h, pair)
  {
    if i > 0 {
      RegisteredExactly(run, events, pair, i - 1, h);
      assert Next(run[i - 1], events[i - 1], run[i - 1 + 1], pair);
      StepRegisters(run[i - 1], run[i], events[i - 1], pair, h);
      TookOneMore(events, i - 1, h, pair);
    }
  }
}
