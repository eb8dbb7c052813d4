// What the code of the fee estimator relies on in any state, also after a refused block: a weaker
// condition than the invariant of reachable states, and kept by every operation.
module FeeShape {
  import opened FeeLedger
  import opened MachineWords
  import opened FeeSteps

  // Record r is marked as mined after waiting b + 1 blocks.
  predicate Binned(l: Ledger, r: Ref, b: nat) {
    r in l.txs && l.txs[r].mined != UNMINED && Wait(l.txs[r], l.txs[r].mined) == b
  }

  predicate Bound(l: Ledger, r: Ref) {
    && r in l.txs && l.txs[r].mined != UNMINED
    && Wait(l.txs[r], l.txs[r].mined) < |l.bins|
    && r !in l.bins[Wait(l.txs[r], l.txs[r].mined)]
  }

  predicate Shaped(l: Ledger) {
    && |l.bins| == DEPTH
    && (forall b, r :: 0 <= b < DEPTH && r in l.bins[b] ==> Binned(l, r, b))
    && (forall k, r :: 0 <= k < |l.dropped| && r in l.dropped[k].transactions ==> Bound(l, r))
    && Apart(l.dropped)
  }

  predicate Usable(v: View) {
    && v.cfg.maxReplacements < v.cfg.binSize
    && Shaped(v.ledger)
    && Indexed(v.ledger.txs, v.observed)
    && forall b :: 0 <= b < DEPTH ==> |v.ledger.bins[b]| <= v.cfg.binSize
  }

  lemma InvIsUsable(v: View)
    requires v.Inv()
    ensures Usable(v)
  {
    var l := v.ledger;
    forall b, r | 0 <= b < DEPTH && r in l.bins[b] ensures Binned(l, r, b) {
      assert l.Settled(v.observed, r);
    }
    forall k, r | 0 <= k < |l.dropped| && r in l.dropped[k].transactions ensures Bound(l, r) {
      assert l.DroppedOk(v.observed, k, r);
    }
  }

  // Undoing keeps the shape, whether or not there was room for everything.
  lemma UndoShaped(l: Ledger)
    requires l.dropped != [] && Shaped(l)
    ensures Shaped(l.Undo())
  {
    var u := l.Undo();
    var top := |l.dropped| - 1;
    forall b, r | 0 <= b < DEPTH && r in u.bins[b] ensures Binned(u, r, b) {
      UndoBins(l, b, r);
      if r in l.bins[b] && r !in l.Fresh(b) {
        assert Binned(l, r, b);
      } else {
        assert r in l.dropped[top].transactions;
        assert Bound(l, r);
      }
      assert !l.IsFresh(r);
      UndoMarks(l, r);
    }
    forall k, r | 0 <= k < |u.dropped| && r in u.dropped[k].transactions ensures Bound(u, r) {
      assert r in l.dropped[k].transactions;
      assert Bound(l, r) && !l.IsFresh(r);
      UndoMarks(l, r);
      UndoBins(l, Wait(l.txs[r], l.txs[r].mined), r);
    }
  }

  lemma UndoUsable(v: View)
    requires Usable(v) && v.ledger.dropped != [] && v.ledger.Fits()
    ensures Usable(v.(ledger := v.ledger.Undo()))
  {
    var l := v.ledger;
    UndoShaped(l);
    forall b | 0 <= b < DEPTH ensures |l.Undo().bins[b]| <= |l.bins[b]| {
      var kept := l.bins[b] - l.Fresh(b);
      assert l.Fresh(b) <= l.bins[b];
      assert |kept| == |l.bins[b]| - |l.Fresh(b)|;
      assert |kept + l.Left(l.Top().transactions, b)| <= |kept| + |l.Left(l.Top().transactions, b)|;
    }
  }

  // Placing a block's transactions keeps the shape.
  lemma PlaceShaped(v: View, height: Uint64, block: seq<Hash>, gain: seq<set<Ref>>, out: seq<set<Ref>>)
    requires Usable(v) && height != UNMINED
    requires TakesIn(v, height, block, gain) && GivesUp(v, gain, out)
    ensures Usable(View(v.cfg, Place(v.ledger, height, gain, out), v.observed))
    ensures forall b, r :: 0 <= b < DEPTH && r in out[b] ==> Bound(Place(v.ledger, height, gain, out), r)
  {
    var l, p := v.ledger, Place(v.ledger, height, gain, out);
    forall r | Among(gain, r) ensures r in l.txs && l.txs[r].mined == UNMINED {
    }
    forall b, r | 0 <= b < DEPTH && r in p.bins[b] ensures Binned(p, r, b) {
      PlacedBin(l, height, gain, out, b, r);
      if r !in gain[b] {
        assert Binned(l, r, b);
      } else {
        assert Among(gain, r);
      }
    }
    forall k, r | 0 <= k < |l.dropped| && r in l.dropped[k].transactions ensures Bound(p, r) {
      assert Bound(l, r);
      PlacedBin(l, height, gain, out, Wait(l.txs[r], l.txs[r].mined), r);
    }
    forall b, r | 0 <= b < DEPTH && r in out[b] ensures Bound(p, r) {
      assert Binned(l, r, b);
      PlacedBin(l, height, gain, out, b, r);
    }
    forall b | 0 <= b < DEPTH ensures |p.bins[b]| <= v.cfg.binSize {
      assert |l.bins[b] - out[b]| == |l.bins[b]| - |out[b]|;
      assert gain[b] !! l.bins[b] by {
        forall r | r in gain[b] ensures r !in l.bins[b] {
          assert Among(gain, r);
        }
      }
    }
  }

  lemma Unbinned(l: Ledger, r: Ref, b: nat)
    requires Shaped(l) && Bound(l, r) && b < DEPTH
    ensures r !in l.bins[b]
  {
  }

  lemma RegisterUsable(v: View, v': View, hash: Hash, height: Uint64, block: seq<Hash>,
                       gain: seq<set<Ref>>, out: seq<set<Ref>>, entry: Registered)
    requires Usable(v) && height != UNMINED && Registers(v, v', hash, height, block, gain, out, entry)
    ensures Usable(v')
  {
    PlaceShaped(v, height, block, gain, out);
    var p, l := Place(v.ledger, height, gain, out), v'.ledger;
    forall b, r | 0 <= b < DEPTH && r in l.bins[b] ensures Binned(l, r, b) {
      assert Binned(p, r, b);
    }
    if v.cfg.maxRollback > 0 {
      var keep := if |v.ledger.dropped| == v.cfg.maxRollback then v.ledger.dropped[1..] else v.ledger.dropped;
      assert l.dropped == keep + [entry];
      forall k, r | 0 <= k < |keep| && r in keep[k].transactions
        ensures Bound(l, r) && r !in entry.transactions
      {
        var k' := k + |v.ledger.dropped| - |keep|;
        assert keep[k] == v.ledger.dropped[k'];
        assert Bound(p, r) && Bound(v.ledger, r);
        forall b | 0 <= b < |out| ensures r !in out[b] {
          Unbinned(v.ledger, r, b);
        }
      }
      forall r | r in entry.transactions ensures Bound(l, r) {
        var b :| 0 <= b < |out| && r in out[b];
        assert Bound(p, r);
      }
    } else {
      forall k, r | 0 <= k < |l.dropped| && r in l.dropped[k].transactions ensures Bound(l, r) {
        assert Bound(p, r);
      }
    }
  }
}
