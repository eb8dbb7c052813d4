// The fee estimator of mempool/estimatefee.go, seen as an abstract ledger.
//
// The program keeps observed-transaction records behind pointers that are shared between the
// `observed` map, the 25 bins and the undo stack. Here a pointer is a `Ref` into the record
// store `txs`, so sharing and in-place marking of records are explicit. A `Ledger` forgets only
// the order inside a bin: a bin is a set of references.
module FeeLedger {
  import opened MachineWords

  const DEPTH: nat := 25             // estimateFeeDepth
  const UNMINED: nat := 0x7fffffff   // UnminedHeight
  const TWO256: nat := TWO64 * TWO64 * TWO64 * TWO64

  type Hash = n: nat | n < TWO256

  datatype Ref = Nil | Ref(addr: nat)
  datatype Tx = Tx(hash: Hash, feeRate: Uint64, observed: Uint64, mined: Uint64)
  datatype Registered = Registered(hash: Hash, transactions: seq<Ref>)
  datatype Config = Config(maxRollback: Uint32, binSize: nat, maxReplacements: nat, minBlocks: Uint32)

  // The number of blocks a transaction waited when mined at `height`: the index of its bin.
  function Wait(t: Tx, height: Uint64): (b: Uint64) { Sub64(Sub64(height, t.observed), 1) }

  function Elems<T>(s: seq<T>): (e: set<T>) { set x | x in s }

  predicate NoDup<T(==)>(s: seq<T>) { forall i, j :: 0 <= i < j < |s| ==> s[i] != s[j] }

  lemma {:induction false} CountElems<T>(s: seq<T>)
    requires NoDup(s)
    ensures |Elems(s)| == |s|
  {
    if s == [] {
      assert Elems(s) == {};
    } else {
      var front := s[..|s| - 1];
      CountElems(front);
      var last := s[|s| - 1];
      assert s == front + [last] && last !in Elems(front);
      forall x ensures x in Elems(s) <==> x in Elems(front) + {last} {
      }
      assert Elems(s) == Elems(front) + {last};
    }
  }

  lemma {:induction false} NoDupCount<T>(s: seq<T>, x: T)
    requires NoDup(s)
    ensures multiset(s)[x] == if x in s then 1 else 0
  {
    if s != [] {
      var front := s[..|s| - 1];
      assert s == front + [s[|s| - 1]];
      NoDupCount(front, x);
    }
  }

  lemma SubsetSize<T>(a: set<T>, b: set<T>)
    requires a <= b
    ensures |a| <= |b|
  {
    assert b == a + (b - a);
  }

  // No record is dropped twice.
  predicate Apart(stack: seq<Registered>) {
    && (forall k :: 0 <= k < |stack| ==> NoDup(stack[k].transactions))
    && (forall j, k, r :: 0 <= j < k < |stack| && r in stack[j].transactions ==> r !in stack[k].transactions)
  }

  /** What the undo stack is about: everything but the `observed` index. */
  datatype Ledger = Ledger(
    txs: map<Ref, Tx>,
    bins: seq<set<Ref>>,
    dropped: seq<Registered>,
    height: Uint64,
    blocks: Uint32)
  {
    function Top(): (e: Registered)
      requires dropped != []
    {
      dropped[|dropped| - 1]
    }

    // The height of the block that pushed stack entry k.
    function HeightOf(k: nat): (h: int)
      requires k < |dropped|
    {
      height - (|dropped| - 1 - k)
    }

    // Members of bin b mined by the latest block.
    function Fresh(b: nat): (s: set<Ref>)
      requires b < |bins|
    {
      set r | r in bins[b] && r in txs && txs[r].mined == height
    }

    // Members of the list that left bin b.
    function Left(out: seq<Ref>, b: nat): (s: set<Ref>) {
      set r | r in out && r in txs && Wait(txs[r], txs[r].mined) == b
    }

    predicate IsFresh(r: Ref) {
      exists b :: 0 <= b < |bins| && r in Fresh(b)
    }

    // There is a slot for every dropped transaction: the panic in rollback cannot happen.
    predicate Fits()
      requires dropped != []
    {
      forall b :: 0 <= b < |bins| ==> |Left(Top().transactions, b)| <= |Fresh(b)|
    }

    /** Undoing the latest block: what it mined is unmarked and leaves, what it dropped returns. */
    function Undo(): (l: Ledger)
      requires dropped != []
    {
      Ledger(
        map r | r in txs :: if IsFresh(r) then txs[r].(mined := UNMINED) else txs[r],
        seq(|bins|, b requires 0 <= b < |bins| => (bins[b] - Fresh(b)) + Left(Top().transactions, b)),
        dropped[..|dropped| - 1],
        Sub64(height, 1),
        Prev32(blocks))
    }

    // Every entry of the stack can be undone in turn.
    ghost predicate AllFit()
      decreases |dropped|
    {
      dropped == [] || (Fits() && Undo().AllFit())
    }

    predicate Blank() {
      dropped == [] && forall b :: 0 <= b < |bins| ==> bins[b] == {}
    }

    // A record that is binned or dropped: reachable from `observed`, and marked as mined.
    predicate Settled(observed: map<Hash, Ref>, r: Ref) {
      && r in txs
      && txs[r].hash in observed && observed[txs[r].hash] == r
      && txs[r].mined != UNMINED
      && Wait(txs[r], txs[r].mined) < DEPTH
      && (height > UNMINED ==> txs[r].mined > UNMINED)
    }

    predicate BinsOk(observed: map<Hash, Ref>) {
      && |bins| == DEPTH
      && forall b, r :: 0 <= b < DEPTH && r in bins[b] ==>
           Settled(observed, r) && Wait(txs[r], txs[r].mined) == b && txs[r].mined <= height
    }

    predicate StackRecords(observed: map<Hash, Ref>)
      requires |bins| == DEPTH
    {
      forall k, r :: 0 <= k < |dropped| && r in dropped[k].transactions ==> DroppedOk(observed, k, r)
    }

    predicate DroppedOk(observed: map<Hash, Ref>, k: nat, r: Ref)
      requires |bins| == DEPTH && k < |dropped|
    {
      Settled(observed, r) && txs[r].mined < HeightOf(k) && r !in bins[Wait(txs[r], txs[r].mined)]
    }

    predicate StackApart() {
      Apart(dropped)
    }

    predicate StackOk(observed: map<Hash, Ref>)
      requires |bins| == DEPTH
    {
      StackRecords(observed) && StackApart()
    }

    // Heights never meet the sentinel, and the stack never reaches below height zero.
    predicate HeightsOk() {
      && (height == UNMINED ==> Blank())
      && |dropped| <= height + 1
      && (forall k :: 0 <= k < |dropped| ==> HeightOf(k) != UNMINED)
      && (height > UNMINED && dropped != [] ==> HeightOf(0) > UNMINED)
    }

    ghost predicate Sound(observed: map<Hash, Ref>) {
      BinsOk(observed) && StackOk(observed) && HeightsOk() && AllFit()
    }
  }

  // The transactions that the block's purge removes from `observed`.
  predicate TooOld(t: Tx, height: Uint64) {
    t.mined == UNMINED && Sub64(height, t.observed) >= DEPTH
  }

  // A hash as a map key always leads to the record of that hash.
  predicate Indexed(txs: map<Ref, Tx>, observed: map<Hash, Ref>) {
    forall h :: h in observed ==> observed[h] in txs && txs[observed[h]].hash == h
  }

  datatype View = View(cfg: Config, ledger: Ledger, observed: map<Hash, Ref>) {
    /** The invariant of every reachable state. */
    ghost predicate Inv() {
      && cfg.maxReplacements < cfg.binSize
      && |ledger.dropped| <= cfg.maxRollback
      && (forall b :: 0 <= b < |ledger.bins| ==> |ledger.bins[b]| <= cfg.binSize)
      && Indexed(ledger.txs, observed)
      && ledger.Sound(observed)
    }
  }

  // ---------------------------------------------------------------------------------------------
  // Undo keeps the invariant
  // ---------------------------------------------------------------------------------------------

  lemma UndoMarks(l: Ledger, r: Ref)
    requires l.dropped != [] && r in l.txs
    ensures r in l.Undo().txs
    ensures l.Undo().txs[r] == (if l.IsFresh(r) then l.txs[r].(mined := UNMINED) else l.txs[r])
  {
  }

  lemma UndoBins(l: Ledger, b: nat, r: Ref)
    requires l.dropped != [] && b < |l.bins|
    ensures |l.Undo().bins| == |l.bins|
    ensures r in l.Undo().bins[b] <==> (r in l.bins[b] && r !in l.Fresh(b)) || r in l.Left(l.Top().transactions, b)
  {
  }

  lemma DroppedNotFresh(l: Ledger, observed: map<Hash, Ref>, k: nat, r: Ref)
    requires l.BinsOk(observed) && l.StackOk(observed) && k < |l.dropped| && r in l.dropped[k].transactions
    ensures !l.IsFresh(r)
  {
  }

  lemma UndoSettled(l: Ledger, observed: map<Hash, Ref>, r: Ref)
    requires l.dropped != [] && l.HeightsOk() && l.Settled(observed, r) && !l.IsFresh(r)
    requires l.txs[r].mined < l.height
    ensures l.Undo().Settled(observed, r) && l.Undo().txs[r] == l.txs[r]
  {
    UndoMarks(l, r);
    if l.Undo().height > UNMINED {
      assert l.HeightOf(|l.dropped| - 1) == l.height;
      assert l.height > UNMINED;
    }
  }

  lemma UndoBinsOk(l: Ledger, observed: map<Hash, Ref>)
    requires l.dropped != [] && l.BinsOk(observed) && l.StackOk(observed) && l.HeightsOk()
    ensures l.Undo().BinsOk(observed)
  {
    var u := l.Undo();
    var top := |l.dropped| - 1;
    assert l.HeightOf(top) == l.height;
    forall b, r | 0 <= b < DEPTH && r in u.bins[b]
      ensures u.Settled(observed, r) && Wait(u.txs[r], u.txs[r].mined) == b && u.txs[r].mined <= u.height
    {
      UndoBins(l, b, r);
      if r in l.Left(l.Top().transactions, b) {
        assert r in l.dropped[top].transactions;
        DroppedNotFresh(l, observed, top, r);
      } else {
        assert r in l.bins[b] && l.txs[r].mined < l.height;
        NotFreshElsewhere(l, observed, b, r);
      }
      UndoSettled(l, observed, r);
    }
  }

  // The bin of a record is determined by its marks, so it can only be fresh in that bin.
  lemma NotFreshElsewhere(l: Ledger, observed: map<Hash, Ref>, b: nat, r: Ref)
    requires l.BinsOk(observed) && b < DEPTH && r in l.bins[b] && r !in l.Fresh(b)
    ensures !l.IsFresh(r)
  {
  }

  lemma UndoStackOk(l: Ledger, observed: map<Hash, Ref>)
    requires l.dropped != [] && l.BinsOk(observed) && l.StackOk(observed) && l.HeightsOk()
    ensures l.Undo().StackOk(observed)
  {
    var u := l.Undo();
    var top := |l.dropped| - 1;
    forall k, r | 0 <= k < |u.dropped| && r in u.dropped[k].transactions
      ensures u.DroppedOk(observed, k, r)
    {
      assert r in l.dropped[k].transactions;
      DroppedNotFresh(l, observed, k, r);
      assert l.txs[r].mined < l.HeightOf(k) <= l.height;
      UndoSettled(l, observed, r);
      assert u.HeightOf(k) == l.HeightOf(k);
      var b := Wait(l.txs[r], l.txs[r].mined);
      UndoBins(l, b, r);
      assert r !in l.dropped[top].transactions;
    }
  }

  lemma UndoAbove(l: Ledger, observed: map<Hash, Ref>, b: nat, r: Ref)
    requires l.dropped != [] && l.BinsOk(observed) && l.StackOk(observed) && l.HeightsOk()
    requires b < DEPTH && l.height > UNMINED
    ensures r in l.Undo().bins[b] ==> r in l.Undo().txs && l.Undo().txs[r].mined > UNMINED
  {
    if r in l.Undo().bins[b] {
      UndoBins(l, b, r);
      var top := |l.dropped| - 1;
      if r in l.Left(l.Top().transactions, b) {
        assert r in l.dropped[top].transactions;
        DroppedNotFresh(l, observed, top, r);
      } else {
        NotFreshElsewhere(l, observed, b, r);
        assert l.Settled(observed, r);
      }
      UndoMarks(l, r);
    }
  }

  lemma UndoHeightsOk(l: Ledger, observed: map<Hash, Ref>)
    requires l.dropped != [] && l.BinsOk(observed) && l.StackOk(observed) && l.HeightsOk()
    ensures l.Undo().HeightsOk()
  {
    var u := l.Undo();
    var top := |l.dropped| - 1;
    assert l.HeightOf(top) == l.height;
    UndoBinsOk(l, observed);
    forall k | 0 <= k < |u.dropped| ensures u.HeightOf(k) == l.HeightOf(k) {
    }
    assert u.dropped != [] ==> u.HeightOf(|u.dropped| - 1) == u.height;
    if u.height == UNMINED {
      forall b, r | 0 <= b < |u.bins| ensures r !in u.bins[b] {
        UndoAbove(l, observed, b, r);
      }
    }
  }

  lemma UndoSound(l: Ledger, observed: map<Hash, Ref>)
    requires l.dropped != [] && l.Sound(observed)
    ensures l.Undo().Sound(observed)
  {
    UndoBinsOk(l, observed);
    UndoStackOk(l, observed);
    UndoHeightsOk(l, observed);
  }
}
