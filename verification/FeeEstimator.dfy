// The fee estimator of mempool/estimatefee.go: the stateful object. Each method is proved against the
// relations and functions on views, so the facts about runs apply to it.
module FeeEstimator {
  import opened Common
  import opened FeeLedger
  import opened MachineWords
  import opened FeeSteps
  import opened FeeShape
  import opened FeeRuns
  import opened FeeRates
  import opened FeeBins
  import opened FeeUnwind
  import FeeCodec
  import FeeOrder
  import FeeSave

  datatype Registration = Accepted | BadHeight | MinedTwice

  datatype Estimation = Fee(rate: Uint64) | NotEnoughBlocks | ZeroBlocks | TooManyBlocks

  datatype Rollback = RolledBack | NotFound | Panicked

  lemma ObserveUsable(v: View, v': View, r: Ref, t: Tx)
    requires Usable(v) && Observes(v, v', r, t)
    ensures Usable(v')
    ensures SameRates(v.ledger.txs, v'.ledger.txs, v.ledger.bins)
  {
    var l, l' := v.ledger, v'.ledger;
    forall b, x | 0 <= b < DEPTH && x in l'.bins[b]
      ensures Binned(l', x, b) && Rate(l.txs, x) == Rate(l'.txs, x)
    {
      assert Binned(l, x, b);
    }
    forall k, x | 0 <= k < |l'.dropped| && x in l'.dropped[k].transactions ensures Bound(l', x) {
      assert Bound(l, x);
    }
  }

  class FeeEstimator {
    var cfg: Config
    var height: Uint64
    var blocks: Uint32
    var txs: map<Ref, Tx>
    var next: nat
    var observed: map<Hash, Ref>
    var bin: seq<seq<Ref>>
    var dropped: seq<Registered>
    var cached: Option<seq<Uint64>>

    ghost function Now(): (v: View)
      reads this
    {
      View(cfg, Ledger(txs, Sets(bin), dropped, height, blocks), observed)
    }

    ghost predicate Valid()
      reads this
    {
      && |bin| == DEPTH
      && (forall b :: 0 <= b < DEPTH ==> NoDup(bin[b]))
      && (forall r :: r in txs ==> r.Ref? && r.addr < next)
      && Usable(Now())
      && (cached.Some? ==> cached.value == Estimates(NewFeeSet(txs, bin)))
    }

    constructor (maxRollback: Uint32, minRegisteredBlocks: Uint32)
      ensures Valid()
      ensures Now() == Initial(Config(maxRollback, 100, 10, minRegisteredBlocks)) && Now().Inv()
      ensures cfg.maxRollback == maxRollback && cfg.minBlocks == minRegisteredBlocks && blocks == 0
      ensures height == 0x7fff_ffff && txs == map[] && observed == map[] && dropped == []
      ensures |bin| == 25 && forall b :: 0 <= b < 25 ==> bin[b] == []
    {
      cfg := Config(maxRollback, 100, 10, minRegisteredBlocks);
      height, blocks := UNMINED, 0;
      txs, next, observed := map[], 0, map[];
      bin := seq(DEPTH, b => []);
      dropped, cached := [], None;
      new;
      forall b | 0 <= b < DEPTH ensures Elems(bin[b]) == {} {
      }
      assert Sets(bin) == Initial(cfg).ledger.bins;
      InvIsUsable(Now());
    }

    method ObserveTransaction(hash: Hash, feeRate: Uint64, seen: Uint64) returns (ghost r: Ref)
      requires Valid()
      modifies this
      ensures Valid()
      ensures Observes(old(Now()), Now(), r, Tx(hash, feeRate, seen, UNMINED))
    {
      r := Nil;
      if height == UNMINED {
        return;
      }
      if hash !in observed {
        var o := Ref(next);
        r := o;
        next := next + 1;
        txs := txs[o := Tx(hash, feeRate, seen, UNMINED)];
        observed := observed[hash := o];
        ObserveUsable(old(Now()), Now(), o, txs[o]);
        EstimatesFromMembers(old(txs), bin, txs, bin);
      }
    }

    /** Registers a block whose transactions come in some order; `i :|` in AddToBin stands for rand.Intn. */
    method RegisterBlock(hash: Hash, blockHeight: Uint64, block: seq<Hash>)
      returns (result: Registration, ghost gain: seq<set<Ref>>, ghost out: seq<set<Ref>>, ghost entry: Registered,
               ghost done: nat)
      requires Valid() && blockHeight != UNMINED
      modifies this
      ensures Valid() && cached == None
      ensures result.BadHeight? <==> !Extends(old(Now()), blockHeight)
      ensures result.BadHeight? ==> Now() == old(Now())
      ensures result.Accepted? ==> Registers(old(Now()), Now(), hash, blockHeight, block, gain, out, entry)
      ensures result.Accepted? ==> NoneMined(old(Now()), block)
      ensures result.MinedTwice? ==> Refuses(old(Now()), Now(), blockHeight, block, done, gain, out)
    {
      cached := None;
      gain, out, entry, done := [], [], Registered(hash, []), 0;
      if blockHeight != Add64(height, 1) && height != UNMINED {
        result := BadHeight;
        return;
      }
      var ok, bin', txs', observed', dropped';
      ghost var before, after := Now(), Now();
      ok, bin', txs', observed', dropped', after, gain, out, entry, done :=
        Process(before, cfg, observed, dropped, hash, blockHeight, block, bin, txs);
      Install(blockHeight, bin', txs', observed', dropped', after);
      result := if ok then Accepted else MinedTwice;
    }

    // The fields that a block changes.
    method Install(blockHeight: Uint64, bin': seq<seq<Ref>>, txs': map<Ref, Tx>, observed': map<Hash, Ref>,
                   dropped': seq<Registered>, ghost after: View)
      requires cached == None && |bin'| == DEPTH && (forall b :: 0 <= b < DEPTH ==> NoDup(bin'[b]))
      requires (forall r :: r in txs ==> r.Ref? && r.addr < next) && forall r :: r in txs' ==> r in txs
      requires after == View(cfg, Ledger(txs', Sets(bin'), dropped', blockHeight, Next32(blocks)), observed')
               && Usable(after)
      modifies this
      ensures Valid() && cached == None && Now() == after
    {
      height, blocks, bin, txs, observed, dropped := blockHeight, Next32(blocks), bin', txs', observed', dropped';
    }

    /** The answer is always the one a fresh computation over the current bins gives. */
    method EstimateFee(numBlocks: Uint64) returns (result: Estimation)
      requires Valid()
      modifies this`cached
      ensures Valid()
      ensures result == (if blocks < cfg.minBlocks then NotEnoughBlocks
                         else if numBlocks == 0 then ZeroBlocks
                         else if numBlocks > DEPTH then TooManyBlocks
                         else Fee(Estimate(NewFeeSet(txs, bin), numBlocks)))
      ensures result.Fee? ==>
                1 <= numBlocks <= |bin| &&
                if Flatten(bin) == [] then result.rate == 0
                else FeeOrder.MiddleRate(txs, bin, numBlocks, result.rate)
    {
      if blocks < cfg.minBlocks {
        return NotEnoughBlocks;
      }
      if numBlocks == 0 {
        return ZeroBlocks;
      }
      if numBlocks > DEPTH {
        return TooManyBlocks;
      }
      if cached == None {
        FillCache();
      }
      FeeOrder.EstimateMeans(txs, bin, numBlocks);
      return Fee(cached.value[numBlocks - 1]);
    }

    method FillCache()
      requires Valid()
      modifies this`cached
      ensures Valid() && cached == Some(Estimates(NewFeeSet(txs, bin)))
    {
      var fees := AllEstimates(NewFeeSet(txs, bin));
      cached := Some(fees);
      assert Now() == old(Now());
    }

    /** Rolls back the latest block; panics exactly when some bin has no slot left for a dropped transaction. */
    method UndoTop() returns (panicked: bool)
      requires Valid()
      modifies this
      ensures old(dropped) == [] ==> !panicked && Now() == old(Now()) && Valid()
      ensures old(dropped) != [] ==> (panicked <==> !old(Now()).ledger.Fits())
      ensures old(dropped) != [] && !panicked ==> Valid() && Now() == old(Now().(ledger := Now().ledger.Undo()))
    {
      cached := None;
      panicked := false;
      if |dropped| == 0 {
        return;
      }
      ghost var before := Now();
      var bin', txs';
      panicked, bin', txs' := Unwind(before.ledger, dropped[|dropped| - 1].transactions, height, bin, txs);
      if panicked {
        return;
      }
      UndoUsable(before);
      Forget(bin', txs', before.(ledger := before.ledger.Undo()));
    }

    // The fields after the two loops.
    method Forget(bin': seq<seq<Ref>>, txs': map<Ref, Tx>, ghost after: View)
      requires cached == None && dropped != []
      requires |bin'| == DEPTH && (forall b :: 0 <= b < DEPTH ==> NoDup(bin'[b]))
      requires forall r :: r in txs' ==> r.Ref? && r.addr < next
      requires after == View(cfg, Ledger(txs', Sets(bin'), dropped[..|dropped| - 1], Sub64(height, 1), Prev32(blocks)),
                             observed)
      requires Usable(after)
      modifies this
      ensures Valid() && Now() == after
    {
      bin, txs := bin', txs';
      dropped := dropped[..|dropped| - 1];
      blocks := Prev32(blocks);
      height := Sub64(height, 1);
    }

    /** Rolls back to and including the latest block with this hash. */
    method Rollback(hash: Hash) returns (result: Rollback)
      requires Valid()
      modifies this
      ensures old(Now()).Inv() ==> !result.Panicked?
      ensures !result.Panicked? ==> Valid() && RollsBack(old(Now()), Now(), hash)
      ensures result.NotFound? <==> Depth(old(dropped), hash) == 0
    {
      var n := 1;
      while n <= |dropped| && dropped[|dropped| - n].hash != hash
        invariant 1 <= n <= |dropped| + 1
        invariant forall k :: |dropped| - n < k < |dropped| ==> dropped[k].hash != hash
      {
        n := n + 1;
      }
      ghost var before := Now();
      ghost var d := Depth(dropped, hash);
      if n > |dropped| {
        return NotFound;
      }
      assert d == n;
      var panicked := UndoTops(n);
      if panicked {
        return Panicked;
      }
      return RolledBack;
    }

    // The loop of Rollback.
    method UndoTops(n: nat) returns (panicked: bool)
      requires Valid() && n <= |dropped|
      modifies this
      ensures old(Now()).Inv() ==> !panicked
      ensures !panicked ==> Valid() && cfg == old(cfg) && observed == old(observed)
      ensures !panicked ==> Now().ledger == UndoN(old(Now()).ledger, n)
    {
      ghost var before := Now();
      for i := 0 to n
        invariant Valid() && before.cfg == cfg && before.observed == observed
        invariant |dropped| == |before.ledger.dropped| - i
        invariant UndoN(before.ledger, n) == UndoN(Now().ledger, n - i)
        invariant before.Inv() ==> Now().Inv()
      {
        label L:
        assert UndoN(Now().ledger, n - i) == UndoN(Now().ledger.Undo(), n - i - 1);
        panicked := UndoTop();
        if panicked {
          return true;
        }
        if before.Inv() {
          UndoInv(old@L(Now()));
        }
      }
      return false;
    }

    function Snapshot(): (s: FeeCodec.State)
      reads this
    {
      FeeCodec.State(FeeCodec.Params(cfg.maxRollback, cfg.binSize, cfg.maxReplacements, cfg.minBlocks, height, blocks),
                     txs, observed, bin, dropped)
    }

    /** Saves the estimator; in a reachable state the data restore it, sharing included. */
    method Save() returns (data: seq<FeeCodec.Byte>)
      requires Valid() && FeeCodec.Storable(Snapshot())
      ensures Now().Inv() ==> FeeCodec.Decode(data).Ok? && FeeCodec.Isomorphic(Snapshot(), FeeCodec.Decode(data).value)
    {
      ghost var order;
      data, order := FeeSave.Save(Snapshot());
      if Now().Inv() {
        FeeSave.ReachableSurvives(Snapshot(), Now(), order);
      }
    }
  }

  /** A block whose first transaction was mined before, then a rollback of the latest block: the object panics whenever
      that latest block had dropped anything. */
  method UndoAfterRefusal(e: FeeEstimator, hash: Hash, height: Uint64, block: seq<Hash>) returns (panicked: bool)
    requires e.Valid() && e.Now().Inv() && HeightOk(e.Now(), height) && Extends(e.Now(), height)
    requires e.dropped != [] && e.dropped[|e.dropped| - 1].transactions != []
    requires block != [] && AlreadyMined(e.Now(), block[0])
    modifies e
    ensures panicked
  {
    ghost var v := e.Now();
    var result, gain, out, entry, done := e.RegisterBlock(hash, height, block);
    assert result.MinedTwice? by {
      assert !NoneMined(v, block);
    }
    AbortMakesRollbackPanic(v, e.Now(), height, block, done, gain, out);
    panicked := e.UndoTop();
  }
}
