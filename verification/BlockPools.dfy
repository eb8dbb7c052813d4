// The height-ordered block pools: mempool/shard_to_beacon_pool_v2.go, mempool/beacon_pool.go and mempool/shard_pool.go
// share one discipline. Blocks arrive in any order above a base height that the chain resets; the pool is sorted and
// keeps the latest height up to which it holds every block after the base.
module BlockPools {
  import opened Sorting

  const MAX_VALID := 1000
  const MAX_INVALID := 200

  datatype Block = Block(height: nat, id: nat)

  function HeightKey(b: Block): (k: int) { b.height }

  // One chain's blocks and its latest valid height.
  datatype Lane = Lane(pool: seq<Block>, latest: nat)

  // The beacon's pools look through blocks at or below the latest height; the shard pool stops at them.
  datatype Rule = Through | Stopping

  function Climb(rule: Rule, pool: seq<Block>, last: nat): (r: nat) {
    if pool == [] then last
    else if last + 1 == pool[0].height || (rule.Through? && pool[0].height <= last)
    then Climb(rule, pool[1..], pool[0].height)
    else last
  }

  predicate HasHeight(pool: seq<Block>, height: nat) { exists i :: 0 <= i < |pool| && pool[i].height == height }

  // The program's counts; the valid one is negative when the lowest block is above the latest height.
  function Valids(l: Lane): (n: int)
    requires l.pool != []
  {
    l.latest - l.pool[0].height
  }

  function Invalids(l: Lane): (n: int)
    requires l.pool != []
  {
    |l.pool| - Valids(l)
  }

  predicate Crowded(l: Lane) { l.pool != [] && Invalids(l) > MAX_INVALID }

  predicate Accepts(l: Lane, b: Block) {
    && l.latest < b.height
    && !HasHeight(l.pool, b.height)
    && (l.pool != [] ==> Valids(l) <= MAX_VALID)
    && (Crowded(l) ==> b.height < l.pool[|l.pool| - 1].height)
  }

  // The blocks that stay when a new one is accepted.
  function Kept(l: Lane): (pool: seq<Block>) { if Crowded(l) then l.pool[..|l.pool| - 1] else l.pool }

  function Add(rule: Rule, l: Lane, b: Block): (r: Lane) {
    if !Accepts(l, b) then l
    else
      var pool := Sort(Kept(l) + [b], HeightKey);
      Lane(pool, Climb(rule, pool, l.latest))
  }

  function DropLow(pool: seq<Block>, height: nat): (r: seq<Block>) {
    if pool != [] && pool[0].height <= height then DropLow(pool[1..], height) else pool
  }

  function Reset(rule: Rule, l: Lane, base: nat): (r: Lane) {
    var pool := DropLow(l.pool, base);
    Lane(pool, Climb(rule, pool, base))
  }

  // ---------------------------------------------------------------------------------------------
  // What every pool keeps
  // ---------------------------------------------------------------------------------------------

  // The first n blocks are those right after the base.
  predicate Stretch(pool: seq<Block>, base: nat, n: int) {
    n <= |pool| && forall i :: 0 <= i < n ==> pool[i].height == base + 1 + i
  }

  /** Strictly sorted, above the base, and holding every block from the base to the latest height. */
  predicate Contiguous(l: Lane, base: nat) {
    && Strict(l.pool, HeightKey)
    && AllAbove(l.pool, base)
    && base <= l.latest
    && Stretch(l.pool, base, l.latest - base)
  }

  // The stretch goes on as far as the pool allows.
  predicate Maximal(l: Lane) { !HasHeight(l.pool, l.latest + 1) }

  const LIMIT := MAX_VALID + MAX_INVALID + 1

  predicate Inv(rule: Rule, l: Lane, base: nat) {
    Contiguous(l, base) && |l.pool| <= LIMIT && (rule.Through? || l.latest == base ==> Maximal(l))
  }

  // How far the lowest block of a lane without a valid block is above the base: the program counts the gap as blocks.
  function Gap(l: Lane, base: nat): (n: int)
    requires l.pool != []
  {
    l.pool[0].height - base
  }

  /** A new block above the latest height is accepted by a lane that holds something exactly when at most 1001 blocks
      are valid and either fewer than 200 others are held or it is below the highest. Without a valid block the gap
      below the lowest counts as well. */
  lemma AcceptsExactly(rule: Rule, l: Lane, base: nat, b: Block)
    requires Inv(rule, l, base)
    ensures var valid, rest := l.latest - base, |l.pool| - (l.latest - base);
            Accepts(l, b) <==>
              && l.latest < b.height && (forall c :: c in l.pool ==> c.height != b.height)
              && (l.pool != [] ==>
                    && valid <= 1001
                    && ((if valid > 0 then rest < 200 else |l.pool| + Gap(l, base) <= 200)
                        || b.height < l.pool[|l.pool| - 1].height))
  {
    HasHeightIff(l.pool, b.height);
    if l.pool != [] && l.latest > base {
      assert l.pool[0].height == base + 1 + 0;
    }
  }

  // In a contiguous lane the blocks after the stretch are above the latest height.
  lemma AfterStretch(l: Lane, base: nat, i: nat)
    requires Contiguous(l, base) && l.latest - base <= i < |l.pool|
    ensures l.latest < l.pool[i].height
  {
    var n := l.latest - base;
    if n > 0 {
      assert l.pool[n - 1].height == base + 1 + (n - 1);
      assert HeightKey(l.pool[n - 1]) < HeightKey(l.pool[i]);
    }
  }

  /** From the base, both rules climb exactly to the end of the longest stretch. */
  lemma {:induction false} ClimbFromBase(rule: Rule, pool: seq<Block>, base: nat)
    requires Strict(pool, HeightKey) && AllAbove(pool, base)
    ensures base <= Climb(rule, pool, base) && Stretch(pool, base, Climb(rule, pool, base) - base)
    ensures !HasHeight(pool, Climb(rule, pool, base) + 1)
  {
    if pool != [] {
      TailAbove(pool);
      if pool[0].height == base + 1 {
        ClimbFromBase(rule, pool[1..], base + 1);
        var r := Climb(rule, pool, base);
        forall i | 0 <= i < r - base ensures pool[i].height == base + 1 + i {
          if i > 0 {
            assert pool[1..][i - 1].height == base + 1 + 1 + (i - 1);
          }
        }
        HeightInTail(pool, r + 1);
      } else {
        assert !HasHeight(pool, base + 1);
      }
    }
  }

  lemma TailAbove(pool: seq<Block>)
    requires Strict(pool, HeightKey) && pool != []
    ensures Strict(pool[1..], HeightKey) && AllAbove(pool[1..], pool[0].height)
  {
    forall i | 0 <= i < |pool[1..]| ensures pool[0].height < pool[1..][i].height {
      assert HeightKey(pool[0]) < HeightKey(pool[i + 1]);
    }
  }

  lemma HeightInTail(pool: seq<Block>, height: nat)
    requires pool != [] && pool[0].height != height && !HasHeight(pool[1..], height)
    ensures !HasHeight(pool, height)
  {
    forall i | 0 <= i < |pool| ensures pool[i].height != height {
      if i > 0 {
        assert pool[1..][i - 1].height != height;
      }
    }
  }

  /** From a latest height with its stretch in the pool: looking through climbs to the end of the longest stretch;
      stopping does so only from an empty stretch, and otherwise does not move. */
  lemma ClimbFromLatest(rule: Rule, pool: seq<Block>, base: nat, latest: nat)
    requires Strict(pool, HeightKey) && AllAbove(pool, base)
    requires base <= latest && Stretch(pool, base, latest - base)
    ensures Climb(rule, pool, latest) ==
              if rule.Through? || latest == base then Climb(rule, pool, base) else latest
    ensures latest <= Climb(rule, pool, latest)
  {
    ClimbFromBase(rule, pool, base);
    if latest > base {
      assert pool[0].height == base + 1 + 0;
      var top := Climb(rule, pool, base);
      if top < latest {
        assert pool[top - base].height == base + 1 + (top - base);
        assert HasHeight(pool, top + 1);
      }
    }
  }

  // The counts against the stretch: a crowded pool has blocks beyond it, and another one has room.
  lemma Counts(l: Lane, base: nat)
    requires Contiguous(l, base) && l.pool != []
    ensures Crowded(l) ==> l.latest - base < |l.pool|
    ensures Valids(l) <= MAX_VALID && !Crowded(l) ==> |l.pool| < LIMIT
  {
    if l.latest == base {
      AfterStretch(l, base, 0);
    } else {
      assert l.pool[0].height == base + 1 + 0;
    }
  }

  predicate AllAbove(pool: seq<Block>, base: nat) { forall i :: 0 <= i < |pool| ==> base < pool[i].height }

  lemma Around(pool: seq<Block>, base: nat, n: nat, b: Block, i: nat)
    requires n <= i <= |pool| && Stretch(pool, base, n) && AllAbove(pool, base) && base < b.height
    ensures var r := pool[..i] + [b] + pool[i..];
            Stretch(r, base, n) && AllAbove(r, base) && forall x :: x in r <==> x in pool || x == b
  {
    var r := pool[..i] + [b] + pool[i..];
    assert forall j :: 0 <= j < |r| ==> r[j] == if j < i then pool[j] else if j == i then b else pool[j - 1];
    assert pool == pool[..i] + pool[i..];
  }

  // The place of a higher block is after the stretch.
  lemma PlaceAfter(pool: seq<Block>, base: nat, n: nat, b: Block, i: nat)
    requires Stretch(pool, base, n) && base + n < b.height && i <= |pool|
    requires forall j :: i <= j < |pool| ==> HeightKey(b) < HeightKey(pool[j])
    ensures n <= i
  {
    assert i < n ==> HeightKey(pool[i]) == base + 1 + i;
  }

  // Putting a higher block into a strictly sorted pool leaves the stretch where it is.
  lemma JoinStretch(pool: seq<Block>, base: nat, n: nat, b: Block)
    requires Strict(pool, HeightKey) && !HasHeight(pool, b.height) && AllAbove(pool, base)
    requires Stretch(pool, base, n) && base + n < b.height
    ensures var r := Sort(pool + [b], HeightKey);
            && Strict(r, HeightKey) && Stretch(r, base, n) && |r| == |pool| + 1 && AllAbove(r, base)
            && forall x :: x in r <==> x in pool || x == b
  {
    forall j | 0 <= j < |pool| ensures HeightKey(pool[j]) != HeightKey(b) {
      assert pool[j].height != b.height;
    }
    var i := SortAppended(pool, b, HeightKey);
    PlaceAfter(pool, base, n, b, i);
    Around(pool, base, n, b, i);
  }

  lemma KeptStays(l: Lane, base: nat, b: Block)
    requires Contiguous(l, base) && Accepts(l, b)
    ensures Strict(Kept(l), HeightKey) && !HasHeight(Kept(l), b.height) && Kept(l) <= l.pool
    ensures |Kept(l)| < LIMIT || |Kept(l)| < |l.pool|
    ensures Stretch(Kept(l), base, l.latest - base)
  {
    if l.pool != [] {
      Counts(l, base);
    }
    forall i | 0 <= i < |Kept(l)| ensures Kept(l)[i].height != b.height {
      assert Kept(l)[i] == l.pool[i];
    }
  }

  lemma ClimbInv(rule: Rule, pool: seq<Block>, base: nat, latest: nat)
    requires Strict(pool, HeightKey) && AllAbove(pool, base) && |pool| <= LIMIT
    requires base <= latest && Stretch(pool, base, latest - base)
    ensures Inv(rule, Lane(pool, Climb(rule, pool, latest)), base) && latest <= Climb(rule, pool, latest)
    ensures latest == base ==> Maximal(Lane(pool, Climb(rule, pool, latest)))
    ensures rule.Stopping? && latest != base ==> Climb(rule, pool, latest) == latest
  {
    ClimbFromBase(rule, pool, base);
    ClimbFromLatest(rule, pool, base, latest);
  }

  lemma AddAccepted(rule: Rule, l: Lane, base: nat, b: Block)
    requires Contiguous(l, base) && |l.pool| <= LIMIT && Accepts(l, b)
    ensures Inv(rule, Add(rule, l, b), base) && l.latest <= Add(rule, l, b).latest
    ensures forall x :: x in Add(rule, l, b).pool <==> x in Kept(l) || x == b
    ensures l.latest == base ==> Maximal(Add(rule, l, b))
    ensures rule.Stopping? && l.latest != base ==> Add(rule, l, b).latest == l.latest
  {
    var kept := Kept(l);
    KeptStays(l, base, b);
    assert AllAbove(kept, base);
    JoinStretch(kept, base, l.latest - base, b);
    ClimbInv(rule, Sort(kept + [b], HeightKey), base, l.latest);
  }

  /** Accepting a block keeps the pool sorted, contiguous and bounded, and never lowers the latest height; the one block
      that may be evicted is higher than both the latest height and the new block. */
  lemma AddInv(rule: Rule, l: Lane, base: nat, b: Block)
    requires Inv(rule, l, base)
    ensures Inv(rule, Add(rule, l, b), base) && l.latest <= Add(rule, l, b).latest
    ensures forall x :: x in l.pool && x !in Add(rule, l, b).pool ==> l.latest < x.height && b.height < x.height
    ensures forall x :: x in Add(rule, l, b).pool ==> x in l.pool || x == b
    ensures Accepts(l, b) <==> b in Add(rule, l, b).pool && b !in l.pool
  {
    if Accepts(l, b) {
      AddAccepted(rule, l, base, b);
      KeptStays(l, base, b);
      forall x | x in l.pool && x !in Kept(l) ensures l.latest < x.height && b.height < x.height {
        Evicted(l, base, b, x);
      }
    }
  }

  lemma Evicted(l: Lane, base: nat, b: Block, x: Block)
    requires Contiguous(l, base) && Accepts(l, b) && x in l.pool && x !in Kept(l)
    ensures l.latest < x.height && b.height < x.height
  {
    var i :| 0 <= i < |l.pool| && l.pool[i] == x;
    if i < |Kept(l)| {
      assert Kept(l)[i] == x;
    }
  }

  lemma {:induction false} DropLowStrict(pool: seq<Block>, height: nat)
    requires Strict(pool, HeightKey)
    ensures Strict(DropLow(pool, height), HeightKey) && |DropLow(pool, height)| <= |pool|
    ensures AllAbove(DropLow(pool, height), height)
    ensures forall x :: x in DropLow(pool, height) <==> x in pool && height < x.height
  {
    if pool != [] {
      TailAbove(pool);
      if pool[0].height <= height {
        DropLowStrict(pool[1..], height);
        assert pool == [pool[0]] + pool[1..];
      } else {
        forall i | 0 <= i < |pool| ensures height < pool[i].height {
          assert i > 0 ==> HeightKey(pool[0]) < HeightKey(pool[i]);
        }
      }
    }
  }

  /** Whatever the new base, lower or higher: exactly the blocks above it stay, and the stretch is maximal. */
  lemma ResetInv(rule: Rule, l: Lane, base: nat)
    requires Strict(l.pool, HeightKey) && |l.pool| <= LIMIT
    ensures Inv(rule, Reset(rule, l, base), base) && Maximal(Reset(rule, l, base))
    ensures forall x :: x in Reset(rule, l, base).pool <==> x in l.pool && base < x.height
  {
    DropLowStrict(l.pool, base);
    ClimbFromBase(rule, DropLow(l.pool, base), base);
  }

  // ---------------------------------------------------------------------------------------------
  // Runs
  // ---------------------------------------------------------------------------------------------

  datatype Event = Arrive(b: Block) | Rebase(base: nat)

  // The lane and its base after some events.
  function After(rule: Rule, start: nat, events: seq<Event>): (r: (Lane, nat)) {
    if events == [] then (Lane([], start), start)
    else
      var (l, base) := After(rule, start, events[..|events| - 1]);
      match events[|events| - 1]
      case Arrive(b) => (Add(rule, l, b), base)
      case Rebase(to) => (Reset(rule, l, to), to)
  }

  // The blocks handed out: those at or below the latest height.
  function Ready(pool: seq<Block>, height: nat): (r: seq<Block>) {
    if pool == [] || height < pool[0].height then [] else [pool[0]] + Ready(pool[1..], height)
  }

  /** Over every run, with any sequence of bases. */
  lemma {:induction false} RunInv(rule: Rule, start: nat, events: seq<Event>)
    ensures var (l, base) := After(rule, start, events); Inv(rule, l, base)
  {
    if events != [] {
      RunInv(rule, start, events[..|events| - 1]);
      var (l, base) := After(rule, start, events[..|events| - 1]);
      match events[|events| - 1]
      case Arrive(b) => AddInv(rule, l, base, b);
      case Rebase(to) => ResetInv(rule, l, to);
    }
  }

  lemma {:induction false} ReadyPrefix(pool: seq<Block>, height: nat, n: nat)
    requires n <= |pool| && (forall i :: 0 <= i < n ==> pool[i].height <= height)
    requires n < |pool| ==> height < pool[n].height
    ensures Ready(pool, height) == pool[..n]
  {
    if n > 0 {
      ReadyPrefix(pool[1..], height, n - 1);
      assert pool[..n] == [pool[0]] + pool[1..][..n - 1];
    }
  }

  lemma ReadyExactly(l: Lane, base: nat)
    requires Contiguous(l, base)
    ensures Ready(l.pool, l.latest) == l.pool[..l.latest - base]
    ensures forall i :: 0 <= i < l.latest - base ==> Ready(l.pool, l.latest)[i].height == base + 1 + i
  {
    var n := l.latest - base;
    if n < |l.pool| {
      AfterStretch(l, base, n);
    }
    ReadyPrefix(l.pool, l.latest, n);
  }

  /** What is handed out in any reachable state is exactly the blocks from the base to the latest height, in order, and
      for the beacon's pools the block after that is not in the pool. */
  lemma HandedOut(rule: Rule, start: nat, events: seq<Event>, l: Lane, base: nat)
    requires After(rule, start, events) == (l, base)
    ensures base <= l.latest && |Ready(l.pool, l.latest)| == l.latest - base && Ready(l.pool, l.latest) <= l.pool
    ensures forall i :: 0 <= i < l.latest - base ==> Ready(l.pool, l.latest)[i].height == base + 1 + i
    ensures rule.Through? ==> !HasHeight(l.pool, l.latest + 1)
  {
    RunInv(rule, start, events);
    ReadyExactly(l, base);
  }

  // ---------------------------------------------------------------------------------------------
  // The shard pool's early stop
  // ---------------------------------------------------------------------------------------------

  lemma NextHeld(l: Lane, base: nat, b: Block)
    requires Contiguous(l, base) && |l.pool| <= LIMIT && Accepts(l, b)
    ensures HasHeight(Add(Stopping, l, b).pool, l.latest + 1)
            <==> HasHeight(l.pool, l.latest + 1) || b.height == l.latest + 1
  {
    AddAccepted(Stopping, l, base, b);
    KeptStays(l, base, b);
    HasHeightIff(Add(Stopping, l, b).pool, l.latest + 1);
    HasHeightIff(l.pool, l.latest + 1);
    assert b in Add(Stopping, l, b).pool;
    forall x | x in l.pool && x !in Kept(l) ensures x.height > l.latest + 1 {
      Evicted(l, base, b, x);
    }
  }

  /** The shard pool's latest height is maximal after an arrival exactly when no block was valid before it, or nothing
      was missed before and the arrival is not the next block. */
  lemma StopsShort(l: Lane, base: nat, b: Block)
    requires Inv(Stopping, l, base)
    ensures Maximal(Add(Stopping, l, b)) <==>
              l.latest == base || (Maximal(l) && !(Accepts(l, b) && b.height == l.latest + 1))
  {
    if Accepts(l, b) {
      AddAccepted(Stopping, l, base, b);
      NextHeld(l, base, b);
    }
  }

  lemma HasHeightIff(pool: seq<Block>, height: nat)
    ensures HasHeight(pool, height) <==> exists x :: x in pool && x.height == height
  {
    if HasHeight(pool, height) {
      var i :| 0 <= i < |pool| && pool[i].height == height;
      assert pool[i] in pool;
    }
  }

  // The next block after a valid one is held but not counted.
  lemma StopsShortExample(id: nat)
    ensures var l := Lane([Block(2, id)], 2);
            Inv(Stopping, l, 1) && Maximal(l) && !Maximal(Add(Stopping, l, Block(3, id)))
  {
    StopsShort(Lane([Block(2, id)], 2), 1, Block(3, id));
  }

  // ---------------------------------------------------------------------------------------------
  // Arrival order
  // ---------------------------------------------------------------------------------------------

  const WINDOW := 199

  function AddAll(l: Lane, arrivals: seq<Block>): (r: Lane) {
    if arrivals == [] then l else Add(Through, AddAll(l, arrivals[..|arrivals| - 1]), arrivals[|arrivals| - 1])
  }

  predicate Within(s: seq<Block>, base: nat) { forall i :: 0 <= i < |s| ==> base < s[i].height <= base + WINDOW }

  lemma {:induction false} Span(pool: seq<Block>, i: nat)
    requires Strict(pool, HeightKey) && i < |pool|
    ensures pool[0].height + i <= pool[i].height
  {
    if i > 0 {
      Span(pool, i - 1);
      assert HeightKey(pool[i - 1]) < HeightKey(pool[i]);
    }
  }

  // Inside the window nothing is ever evicted or refused for lack of room.
  lemma RoomInWindow(l: Lane, base: nat)
    requires Contiguous(l, base) && Within(l.pool, base) && l.pool != []
    ensures !Crowded(l) && Valids(l) <= MAX_VALID && |l.pool| <= WINDOW
  {
    Span(l.pool, |l.pool| - 1);
    assert base < l.pool[0].height && l.pool[|l.pool| - 1].height <= base + WINDOW;
  }

  lemma AddInWindow(l: Lane, base: nat, b: Block)
    requires Inv(Through, l, base) && Within(l.pool, base) && base < b.height <= base + WINDOW
    requires forall x :: x in l.pool && x.height == b.height ==> x == b
    ensures forall x :: x in Add(Through, l, b).pool <==> x in l.pool || x == b
  {
    if l.pool != [] {
      RoomInWindow(l, base);
    }
    HasHeightIff(l.pool, b.height);
    if Accepts(l, b) {
      AddAccepted(Through, l, base, b);
    } else if !HasHeight(l.pool, b.height) {
      OldIsHeld(l, base, b.height);
    }
  }

  lemma OldIsHeld(l: Lane, base: nat, height: nat)
    requires Contiguous(l, base)
    ensures base < height <= l.latest ==> HasHeight(l.pool, height)
  {
    if base < height <= l.latest {
      assert l.pool[height - base - 1].height == base + 1 + (height - base - 1);
    }
  }

  lemma WithinIff(s: seq<Block>, base: nat)
    ensures Within(s, base) <==> forall x :: x in s ==> base < x.height <= base + WINDOW
  {
    if Within(s, base) {
      forall x | x in s ensures base < x.height <= base + WINDOW {
        var i :| 0 <= i < |s| && s[i] == x;
      }
    } else {
      var i :| 0 <= i < |s| && !(base < s[i].height <= base + WINDOW);
      assert s[i] in s;
    }
  }

  /** Inside the window the pool ends up with exactly what arrived, repeated arrivals included. */
  lemma {:induction false} ArrivalsHeld(l: Lane, base: nat, arrivals: seq<Block>)
    requires Inv(Through, l, base) && Within(l.pool, base) && Within(arrivals, base)
    requires Distinguishes(l.pool + arrivals, HeightKey)
    ensures Inv(Through, AddAll(l, arrivals), base) && Within(AddAll(l, arrivals).pool, base)
    ensures forall x :: x in AddAll(l, arrivals).pool <==> x in l.pool + arrivals
  {
    if arrivals == [] {
      assert l.pool + arrivals == l.pool;
    } else {
      var front, b := arrivals[..|arrivals| - 1], arrivals[|arrivals| - 1];
      assert arrivals == front + [b] && l.pool + arrivals == (l.pool + front) + [b];
      assert Distinguishes(l.pool + front, HeightKey) by {
        assert forall x :: x in l.pool + front ==> x in l.pool + arrivals;
      }
      ArrivalsHeld(l, base, front);
      var m := AddAll(l, front);
      forall x | x in m.pool && x.height == b.height ensures x == b {
        assert x in l.pool + arrivals && b in l.pool + arrivals && HeightKey(x) == HeightKey(b);
      }
      AddInWindow(m, base, b);
      AddInv(Through, m, base, b);
      WithinIff(m.pool, base);
      WithinIff(Add(Through, m, b).pool, base);
    }
  }

  lemma LatestUnique(pool: seq<Block>, base: nat, m: nat, n: nat)
    requires Inv(Through, Lane(pool, m), base) && Inv(Through, Lane(pool, n), base)
    ensures m <= n
  {
    OldIsHeld(Lane(pool, m), base, n + 1);
  }

  /** The same blocks within a window of 199 heights above the base leave the same pool in every order. */
  lemma OrderIrrelevant(l: Lane, base: nat, first: seq<Block>, second: seq<Block>)
    requires Inv(Through, l, base) && Within(l.pool, base) && Within(first, base)
    requires Distinguishes(l.pool + first, HeightKey) && forall x :: x in first <==> x in second
    ensures AddAll(l, first) == AddAll(l, second)
  {
    assert forall x :: x in l.pool + first <==> x in l.pool + second;
    WithinIff(first, base);
    WithinIff(second, base);
    ArrivalsHeld(l, base, first);
    ArrivalsHeld(l, base, second);
    var a, b := AddAll(l, first), AddAll(l, second);
    StrictUnique(a.pool, b.pool, HeightKey);
    LatestUnique(a.pool, base, a.latest, b.latest);
    LatestUnique(a.pool, base, b.latest, a.latest);
  }

  // Consecutive blocks from a height on.
  function Upto(lo: nat, k: nat): (r: seq<Block>)
    ensures |r| == k && forall i :: 0 <= i < k ==> r[i] == Block(lo + i, 0)
  {
    if k == 0 then [] else Upto(lo, k - 1) + [Block(lo + k - 1, 0)]
  }

  lemma UptoStrict(lo: nat, k: nat)
    ensures Strict(Upto(lo, k), HeightKey)
  {
  }

  // All but the lowest block of the next 200 arrive, in order: they are held, and none is valid.
  lemma LateFirst(base: nat)
    ensures AddAll(Lane([], base), Upto(base + 2, 199)) == Lane(Upto(base + 2, 199), base)
  {
    var front, b := Upto(base + 2, 198), Block(base + 200, 0);
    assert [] + front == front;
    ArrivalsHeld(Lane([], base), base, front);
    var l := AddAll(Lane([], base), front);
    HeldIs(l, base, 198);
    assert Upto(base + 2, 199)[..198] == front && front + [b] == Upto(base + 2, 199);
    AddAccepted(Through, l, base, b);
    assert forall x :: x in front + [b] <==> x in front || x == b;
    HeldIs(Add(Through, l, b), base, 199);
  }

  lemma HeldIs(l: Lane, base: nat, k: nat)
    requires Contiguous(l, base) && 0 < k && forall x :: x in l.pool <==> x in Upto(base + 2, k)
    ensures l == Lane(Upto(base + 2, k), base)
  {
    UptoStrict(base + 2, k);
    StrictUnique(l.pool, Upto(base + 2, k), HeightKey);
    assert l.pool[0].height == base + 2;
  }

  lemma LateLast(base: nat)
    ensures Block(base + 200, 0) !in AddAll(Lane([], base), Upto(base + 2, 199) + [Block(base + 1, 0)]).pool
  {
    var l, b := Lane(Upto(base + 2, 199), base), Block(base + 1, 0);
    LateFirst(base);
    assert (l.pool + [b])[..199] == l.pool;
    UptoStrict(base + 2, 199);
    AddAccepted(Through, l, base, b);
  }

  lemma InOrder(base: nat)
    ensures Block(base + 200, 0) in AddAll(Lane([], base), Upto(base + 1, 200)).pool
  {
    var front, b := Upto(base + 1, 199), Block(base + 200, 0);
    assert Upto(base + 1, 200)[..199] == front;
    assert [] + front == front;
    ArrivalsHeld(Lane([], base), base, front);
    var l := AddAll(Lane([], base), front);
    if l.pool != [] {
      RoomInWindow(l, base);
    }
    AddAccepted(Through, l, base, b);
  }

  /** The window cannot be wider: 200 consecutive blocks are all held in order, but not when the lowest comes last. */
  lemma WindowIsTight(base: nat)
    ensures var inOrder, late := Upto(base + 1, 200), Upto(base + 2, 199) + [Block(base + 1, 0)];
            && (forall x :: x in inOrder <==> x in late)
            && AddAll(Lane([], base), inOrder) != AddAll(Lane([], base), late)
  {
    var inOrder, late := Upto(base + 1, 200), Upto(base + 2, 199) + [Block(base + 1, 0)];
    forall x ensures x in inOrder <==> x in late {
      if x in inOrder {
        var i :| 0 <= i < 200 && inOrder[i] == x;
        assert x == if i == 0 then late[199] else late[i - 1];
      }
      if x in late {
        var i :| 0 <= i < 200 && late[i] == x;
        assert x == if i == 199 then inOrder[0] else inOrder[i + 1];
      }
    }
    InOrder(base);
    LateLast(base);
  }
}
