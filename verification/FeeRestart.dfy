// Saving an estimator and restoring it gives its records new places in memory. A view and its relabelled copy behave
// alike: the invariant, and with it the absence of panics, carries over.
module FeeRestart {
  import opened FeeLedger

  function ImageSet(f: map<Ref, Ref>, s: set<Ref>): (t: set<Ref>)
    requires s <= f.Keys
  {
    set r | r in s :: f[r]
  }

  predicate OneToOne(f: map<Ref, Ref>) { forall q, r :: q in f && r in f && f[q] == f[r] ==> q == r }

  predicate MovesTxs(a: Ledger, b: Ledger, f: map<Ref, Ref>) {
    forall r :: r in f ==> r in a.txs && f[r] in b.txs && b.txs[f[r]] == a.txs[r]
  }

  predicate MovesBins(a: Ledger, b: Ledger, f: map<Ref, Ref>) {
    && |a.bins| == |b.bins|
    && forall i :: 0 <= i < |a.bins| ==> a.bins[i] <= f.Keys && b.bins[i] == ImageSet(f, a.bins[i])
  }

  predicate MovesEntry(e: Registered, g: Registered, f: map<Ref, Ref>) {
    && e.hash == g.hash && |e.transactions| == |g.transactions|
    && forall i :: 0 <= i < |e.transactions| ==> e.transactions[i] in f && g.transactions[i] == f[e.transactions[i]]
  }

  predicate MovesStack(a: Ledger, b: Ledger, f: map<Ref, Ref>) {
    && |a.dropped| == |b.dropped|
    && forall k :: 0 <= k < |a.dropped| ==> MovesEntry(a.dropped[k], b.dropped[k], f)
  }

  predicate Moves(a: Ledger, b: Ledger, f: map<Ref, Ref>) {
    && a.height == b.height && a.blocks == b.blocks
    && OneToOne(f) && MovesTxs(a, b, f) && MovesBins(a, b, f) && MovesStack(a, b, f)
  }

  predicate MovesIndex(o: map<Hash, Ref>, p: map<Hash, Ref>, f: map<Ref, Ref>) {
    o.Keys == p.Keys && forall h :: h in o ==> o[h] in f && p[h] == f[o[h]]
  }

  // w is v with its referenced records at other places.
  predicate Relabels(v: View, w: View, f: map<Ref, Ref>) {
    v.cfg == w.cfg && Moves(v.ledger, w.ledger, f) && MovesIndex(v.observed, w.observed, f)
  }

  lemma {:induction false} ImageSize(f: map<Ref, Ref>, s: set<Ref>)
    requires OneToOne(f) && s <= f.Keys
    ensures |ImageSet(f, s)| == |s|
    decreases |s|
  {
    if s != {} {
      var x :| x in s;
      ImageSize(f, s - {x});
      assert ImageSet(f, s) == ImageSet(f, s - {x}) + {f[x]};
      assert f[x] !in ImageSet(f, s - {x});
    }
  }

  lemma FreshMoves(a: Ledger, b: Ledger, f: map<Ref, Ref>, i: nat)
    requires Moves(a, b, f) && i < |a.bins|
    ensures a.Fresh(i) <= f.Keys && b.Fresh(i) == ImageSet(f, a.Fresh(i))
  {
  }

  lemma IsFreshMoves(a: Ledger, b: Ledger, f: map<Ref, Ref>, r: Ref)
    requires Moves(a, b, f) && r in f
    ensures b.IsFresh(f[r]) <==> a.IsFresh(r)
  {
    forall i | 0 <= i < |a.bins| ensures f[r] in b.Fresh(i) <==> r in a.Fresh(i) {
      FreshMoves(a, b, f, i);
    }
  }

  lemma LeftMoves(a: Ledger, b: Ledger, f: map<Ref, Ref>, i: nat)
    requires Moves(a, b, f) && a.dropped != []
    ensures a.Left(a.Top().transactions, i) <= f.Keys
    ensures b.Left(b.Top().transactions, i) == ImageSet(f, a.Left(a.Top().transactions, i))
  {
    var e, g := a.Top().transactions, b.Top().transactions;
    assert MovesEntry(a.dropped[|a.dropped| - 1], b.dropped[|b.dropped| - 1], f);
    var left, left' := a.Left(e, i), b.Left(g, i);
    forall r | r in left ensures f[r] in left' {
      var j :| 0 <= j < |e| && e[j] == r;
      assert g[j] == f[r];
    }
    forall q | q in left' ensures q in ImageSet(f, left) {
      var j :| 0 <= j < |g| && g[j] == q;
      assert e[j] in left;
    }
  }

  lemma FitsMoves(a: Ledger, b: Ledger, f: map<Ref, Ref>)
    requires Moves(a, b, f) && a.dropped != []
    ensures b.Fits() <==> a.Fits()
  {
    forall i | 0 <= i < |a.bins|
      ensures |b.Fresh(i)| == |a.Fresh(i)|
      ensures |b.Left(b.Top().transactions, i)| == |a.Left(a.Top().transactions, i)|
    {
      FreshMoves(a, b, f, i);
      ImageSize(f, a.Fresh(i));
      LeftMoves(a, b, f, i);
      ImageSize(f, a.Left(a.Top().transactions, i));
    }
  }

  lemma UndoBinMoves(a: Ledger, b: Ledger, f: map<Ref, Ref>, i: nat)
    requires Moves(a, b, f) && a.dropped != [] && i < |a.bins|
    ensures a.Undo().bins[i] <= f.Keys && b.Undo().bins[i] == ImageSet(f, a.Undo().bins[i])
  {
    FreshMoves(a, b, f, i);
    LeftMoves(a, b, f, i);
  }

  /** Undoing commutes with relabelling. */
  lemma UndoMoves(a: Ledger, b: Ledger, f: map<Ref, Ref>)
    requires Moves(a, b, f) && a.dropped != []
    ensures Moves(a.Undo(), b.Undo(), f)
  {
    forall r | r in f ensures f[r] in b.Undo().txs && r in a.Undo().txs && b.Undo().txs[f[r]] == a.Undo().txs[r] {
      IsFreshMoves(a, b, f, r);
    }
    forall i | 0 <= i < |a.bins|
      ensures a.Undo().bins[i] <= f.Keys && b.Undo().bins[i] == ImageSet(f, a.Undo().bins[i])
    {
      UndoBinMoves(a, b, f, i);
    }
  }

  lemma {:induction false} AllFitMoves(a: Ledger, b: Ledger, f: map<Ref, Ref>)
    requires Moves(a, b, f) && a.AllFit()
    ensures b.AllFit()
    decreases |a.dropped|
  {
    if a.dropped != [] {
      FitsMoves(a, b, f);
      UndoMoves(a, b, f);
      AllFitMoves(a.Undo(), b.Undo(), f);
    }
  }

  lemma SettledMoves(v: View, w: View, f: map<Ref, Ref>, r: Ref)
    requires Relabels(v, w, f) && v.ledger.Settled(v.observed, r)
    ensures r in f && w.ledger.Settled(w.observed, f[r]) && w.ledger.txs[f[r]] == v.ledger.txs[r]
  {
  }

  lemma BinsOkMoves(v: View, w: View, f: map<Ref, Ref>)
    requires Relabels(v, w, f) && v.ledger.BinsOk(v.observed)
    ensures w.ledger.BinsOk(w.observed)
  {
    var a, b := v.ledger, w.ledger;
    forall i, q | 0 <= i < DEPTH && q in b.bins[i]
      ensures b.Settled(w.observed, q) && Wait(b.txs[q], b.txs[q].mined) == i && b.txs[q].mined <= b.height
    {
      var r :| r in a.bins[i] && f[r] == q;
      SettledMoves(v, w, f, r);
    }
  }

  lemma StackRecordsMove(v: View, w: View, f: map<Ref, Ref>)
    requires Relabels(v, w, f) && |v.ledger.bins| == DEPTH && v.ledger.StackRecords(v.observed)
    ensures w.ledger.StackRecords(w.observed)
  {
    var a, b := v.ledger, w.ledger;
    forall k, q | 0 <= k < |b.dropped| && q in b.dropped[k].transactions ensures b.DroppedOk(w.observed, k, q) {
      assert MovesEntry(a.dropped[k], b.dropped[k], f);
      var j :| 0 <= j < |b.dropped[k].transactions| && b.dropped[k].transactions[j] == q;
      var r := a.dropped[k].transactions[j];
      assert a.DroppedOk(v.observed, k, r);
      SettledMoves(v, w, f, r);
    }
  }

  lemma StackApartMoves(a: Ledger, b: Ledger, f: map<Ref, Ref>)
    requires Moves(a, b, f) && a.StackApart()
    ensures b.StackApart()
  {
    forall k | 0 <= k < |b.dropped| ensures NoDup(b.dropped[k].transactions) {
      assert MovesEntry(a.dropped[k], b.dropped[k], f) && NoDup(a.dropped[k].transactions);
    }
    forall j, k, q | 0 <= j < k < |b.dropped| && q in b.dropped[j].transactions
      ensures q !in b.dropped[k].transactions
    {
      assert MovesEntry(a.dropped[j], b.dropped[j], f) && MovesEntry(a.dropped[k], b.dropped[k], f);
      var m :| 0 <= m < |b.dropped[j].transactions| && b.dropped[j].transactions[m] == q;
      assert a.dropped[j].transactions[m] in a.dropped[j].transactions;
      forall n | 0 <= n < |b.dropped[k].transactions| ensures b.dropped[k].transactions[n] != q {
        assert a.dropped[k].transactions[n] in a.dropped[k].transactions;
      }
    }
  }

  lemma HeightsMove(a: Ledger, b: Ledger, f: map<Ref, Ref>)
    requires Moves(a, b, f) && a.HeightsOk()
    ensures b.HeightsOk()
  {
    forall k | 0 <= k < |a.dropped| ensures b.HeightOf(k) == a.HeightOf(k) {
    }
    assert a.Blank() ==> b.Blank();
  }

  /** The invariant holds of a relabelled copy. */
  lemma RelabelledInv(v: View, w: View, f: map<Ref, Ref>)
    requires v.Inv() && Relabels(v, w, f)
    ensures w.Inv()
  {
    forall i | 0 <= i < |w.ledger.bins| ensures |w.ledger.bins[i]| <= w.cfg.binSize {
      ImageSize(f, v.ledger.bins[i]);
    }
    BinsOkMoves(v, w, f);
    StackRecordsMove(v, w, f);
    StackApartMoves(v.ledger, w.ledger, f);
    HeightsMove(v.ledger, w.ledger, f);
    AllFitMoves(v.ledger, w.ledger, f);
  }
}
