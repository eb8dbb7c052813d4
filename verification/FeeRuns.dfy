// Whole runs of the fee estimator: the invariant holds in every reachable state, so the panic of
// rollback is out of reach, and n rollbacks undo the last n registered blocks.
module FeeRuns {
  import opened FeeLedger
  import opened MachineWords
  import opened FeeSteps
  import opened FeeRestart

  // ---------------------------------------------------------------------------------------------
  // Observing a transaction
  // ---------------------------------------------------------------------------------------------

  // A fresh unmined record enters the store and the index, unless no block has been seen yet or the
  // hash is already known.
  ghost predicate Observes(v: View, v': View, r: Ref, t: Tx) {
    if v.ledger.height == UNMINED || t.hash in v.observed then
      v' == v
    else
      && r !in v.ledger.txs && t.mined == UNMINED
      && v' == v.(ledger := v.ledger.(txs := v.ledger.txs[r := t]), observed := v.observed[t.hash := r])
  }

  predicate Closed(l: Ledger) {
    && (forall b, r :: 0 <= b < |l.bins| && r in l.bins[b] ==> r in l.txs)
    && (forall k, r :: 0 <= k < |l.dropped| && r in l.dropped[k].transactions ==> r in l.txs)
  }

  function With(l: Ledger, r: Ref, t: Tx): (m: Ledger) { l.(txs := l.txs[r := t]) }

  // An unreferenced extra record changes nothing about undoing.
  lemma UndoWith(l: Ledger, r: Ref, t: Tx)
    requires l.dropped != [] && Closed(l) && r !in l.txs
    ensures With(l, r, t).Undo() == With(l.Undo(), r, t)
    ensures With(l, r, t).Fits() == l.Fits()
    ensures Closed(l.Undo()) && r !in l.Undo().txs
  {
    var m := With(l, r, t);
    forall b | 0 <= b < |l.bins|
      ensures m.Fresh(b) == l.Fresh(b) && m.Left(m.Top().transactions, b) == l.Left(l.Top().transactions, b)
    {
      assert l.Top() == l.dropped[|l.dropped| - 1];
    }
    assert forall x :: m.IsFresh(x) == l.IsFresh(x);
    assert !l.IsFresh(r);
    assert m.Undo().bins == l.Undo().bins;
    assert m.Undo().txs == l.Undo().txs[r := t];
  }

  lemma {:induction false} FitWith(l: Ledger, r: Ref, t: Tx)
    requires Closed(l) && r !in l.txs && l.AllFit()
    ensures With(l, r, t).AllFit()
    decreases |l.dropped|
  {
    if l.dropped != [] {
      UndoWith(l, r, t);
      FitWith(l.Undo(), r, t);
    }
  }

  lemma SoundIsClosed(v: View)
    requires v.Inv()
    ensures Closed(v.ledger)
  {
    var l := v.ledger;
    forall b, r | 0 <= b < |l.bins| && r in l.bins[b] ensures r in l.txs {
      assert l.Settled(v.observed, r);
    }
    forall k, r | 0 <= k < |l.dropped| && r in l.dropped[k].transactions ensures r in l.txs {
      assert l.DroppedOk(v.observed, k, r);
    }
  }

  lemma ObserveInv(v: View, v': View, r: Ref, t: Tx)
    requires v.Inv() && Observes(v, v', r, t)
    ensures v'.Inv()
  {
    if v' != v {
      SoundIsClosed(v);
      FitWith(v.ledger, r, t);
      var l, l' := v.ledger, v'.ledger;
      forall x | l.Settled(v.observed, x) ensures l'.Settled(v'.observed, x) && l'.txs[x] == l.txs[x] {
      }
      assert l'.BinsOk(v'.observed);
      forall k, x | 0 <= k < |l'.dropped| && x in l'.dropped[k].transactions
        ensures l'.DroppedOk(v'.observed, k, x)
      {
        assert l.DroppedOk(v.observed, k, x);
        assert l.HeightOf(k) == l'.HeightOf(k);
      }
      assert l'.StackOk(v'.observed);
      assert forall k :: 0 <= k < |l.dropped| ==> l.HeightOf(k) == l'.HeightOf(k);
    }
  }

  // ---------------------------------------------------------------------------------------------
  // Rolling back
  // ---------------------------------------------------------------------------------------------

  function UndoN(l: Ledger, n: nat): (u: Ledger)
    requires n <= |l.dropped|
    decreases n
  {
    if n == 0 then l else UndoN(l.Undo(), n - 1)
  }

  // The distance from the top of the stack to the latest entry of this block, 0 when there is none.
  function Depth(stack: seq<Registered>, hash: Hash): (n: nat)
    ensures n <= |stack|
    ensures n > 0 ==> stack[|stack| - n].hash == hash
    ensures forall k :: (if n == 0 then 0 else |stack| - n + 1) <= k < |stack| ==> stack[k].hash != hash
  {
    if stack == [] then 0
    else if stack[|stack| - 1].hash == hash then 1
    else
      var d := Depth(stack[..|stack| - 1], hash);
      if d == 0 then 0 else d + 1
  }

  predicate RollsBack(v: View, v': View, hash: Hash) {
    v' == v.(ledger := UndoN(v.ledger, Depth(v.ledger.dropped, hash)))
  }

  lemma UndoInv(v: View)
    requires v.Inv() && v.ledger.dropped != []
    ensures v.(ledger := v.ledger.Undo()).Inv()
  {
    var l := v.ledger;
    UndoSound(l, v.observed);
    forall b | 0 <= b < |l.bins| ensures |l.Undo().bins[b]| <= |l.bins[b]| {
      var kept := l.bins[b] - l.Fresh(b);
      assert l.Fresh(b) <= l.bins[b];
      assert |kept| == |l.bins[b]| - |l.Fresh(b)|;
      assert |kept + l.Left(l.Top().transactions, b)| <= |kept| + |l.Left(l.Top().transactions, b)|;
    }
    assert Indexed(l.Undo().txs, v.observed) by {
      forall h | h in v.observed ensures v.observed[h] in l.Undo().txs && l.Undo().txs[v.observed[h]].hash == h {
        UndoMarks(l, v.observed[h]);
      }
    }
  }

  // None of the n rollbacks panics, and the invariant survives all of them.
  lemma {:induction false} UndoNInv(v: View, n: nat)
    requires v.Inv() && n <= |v.ledger.dropped|
    ensures v.(ledger := UndoN(v.ledger, n)).Inv()
    ensures forall k :: 0 <= k < n ==> UndoN(v.ledger, k).dropped != [] && UndoN(v.ledger, k).Fits()
    decreases n
  {
    if n > 0 {
      UndoInv(v);
      var u := v.(ledger := v.ledger.Undo());
      UndoNInv(u, n - 1);
      forall k | 0 <= k < n ensures UndoN(v.ledger, k).dropped != [] && UndoN(v.ledger, k).Fits() {
        if k > 0 {
          assert UndoN(v.ledger, k) == UndoN(u.ledger, k - 1);
        }
      }
    }
  }

  // ---------------------------------------------------------------------------------------------
  // Reachable states
  // ---------------------------------------------------------------------------------------------

  function Initial(cfg: Config): (v: View) {
    View(cfg, Ledger(map[], seq(DEPTH, b requires 0 <= b < DEPTH => {}), [], UNMINED, 0), map[])
  }

  ghost predicate Accepts(v: View, v': View) {
    exists hash, height, block, gain, out, entry ::
      HeightOk(v, height) && Registers(v, v', hash, height, block, gain, out, entry)
  }

  ghost predicate Sees(v: View, v': View) { exists r, t :: Observes(v, v', r, t) }

  ghost predicate Reverts(v: View, v': View) { exists hash :: RollsBack(v, v', hash) }

  // Saved, and restored with the records at new places.
  ghost predicate Restarts(v: View, v': View) { exists f :: Relabels(v, v', f) }

  // One exported call: a new transaction, an accepted block, a rollback, saving and restoring, or a refusal that
  // changes nothing.
  ghost predicate Next(v: View, v': View) {
    Sees(v, v') || Accepts(v, v') || Reverts(v, v') || Restarts(v, v') || v' == v
  }

  lemma NextInv(v: View, v': View)
    requires v.Inv() && Next(v, v')
    ensures v'.Inv()
  {
    if Sees(v, v') {
      var r, t :| Observes(v, v', r, t);
      ObserveInv(v, v', r, t);
    } else if Accepts(v, v') {
      var hash, height, block, gain, out, entry :|
        HeightOk(v, height) && Registers(v, v', hash, height, block, gain, out, entry);
      RegisterInv(v, v', hash, height, block, gain, out, entry);
    } else if Reverts(v, v') {
      var hash :| RollsBack(v, v', hash);
      UndoNInv(v, Depth(v.ledger.dropped, hash));
    } else if Restarts(v, v') {
      var f :| Relabels(v, v', f);
      RelabelledInv(v, v', f);
    }
  }

  ghost predicate Run(vs: seq<View>) {
    && vs != []
    && (exists cfg: Config :: cfg.maxReplacements < cfg.binSize && vs[0] == Initial(cfg))
    && forall i :: 0 <= i < |vs| - 1 ==> Next(vs[i], vs[i + 1])
  }

  /** In every state of every run the invariant holds, and rolling back to any block on the stack
      finds a slot for every dropped transaction. */
  lemma {:induction false} NoRunPanics(vs: seq<View>, i: nat, n: nat)
    requires Run(vs) && i < |vs| && n < |vs[i].ledger.dropped|
    ensures vs[i].Inv()
    ensures UndoN(vs[i].ledger, n).dropped != [] && UndoN(vs[i].ledger, n).Fits()
  {
    RunInv(vs, i);
    UndoNInv(vs[i], n + 1);
  }

  lemma {:induction false} RunInv(vs: seq<View>, i: nat)
    requires Run(vs) && i < |vs|
    ensures vs[i].Inv()
  {
    if i == 0 {
      var cfg: Config :| cfg.maxReplacements < cfg.binSize && vs[0] == Initial(cfg);
    } else {
      RunInv(vs, i - 1);
      assert Next(vs[i - 1], vs[i - 1 + 1]);
      NextInv(vs[i - 1], vs[i]);
    }
  }

  // ---------------------------------------------------------------------------------------------
  // Undoing many blocks
  // ---------------------------------------------------------------------------------------------

  // l1 is l0 again, up to unmined records observed in between.
  predicate Restored(l0: Ledger, l1: Ledger) {
    && l1.bins == l0.bins && l1.dropped == l0.dropped && l1.height == l0.height && l1.blocks == l0.blocks
    && (forall r :: r in l0.txs ==> r in l1.txs && l1.txs[r] == l0.txs[r])
    && (forall r :: r in l1.txs && r !in l0.txs ==> l1.txs[r].mined == UNMINED)
  }

  // Only records that were unmined at the start can have been purged.
  predicate KeepsMined(v: View, w: View) {
    forall h :: h in v.observed && v.observed[h] in v.ledger.txs && v.ledger.txs[v.observed[h]].mined != UNMINED ==>
      && h in w.observed && w.observed[h] == v.observed[h]
      && w.observed[h] in w.ledger.txs && w.ledger.txs[w.observed[h]].mined != UNMINED
  }

  // A stretch of n accepted blocks, with observations in between, that does not overflow the stack.
  ghost predicate Grows(vs: seq<View>, n: nat)
    decreases |vs|
  {
    if |vs| <= 1 then vs != [] && n == 0
    else
      var v, w := vs[|vs| - 2], vs[|vs| - 1];
      || (Sees(v, w) && Grows(vs[..|vs| - 1], n))
      || (n > 0 && Accepts(v, w) && |v.ledger.dropped| < v.cfg.maxRollback && Grows(vs[..|vs| - 1], n - 1))
  }

  lemma {:induction false} UndoNWith(l: Ledger, r: Ref, t: Tx, n: nat)
    requires n <= |l.dropped| && Closed(l) && r !in l.txs
    ensures UndoN(With(l, r, t), n) == With(UndoN(l, n), r, t)
    ensures r !in UndoN(l, n).txs
    decreases n
  {
    if n > 0 {
      UndoWith(l, r, t);
      UndoNWith(l.Undo(), r, t, n - 1);
    }
  }

  lemma {:induction false} GrowsKeeps(vs: seq<View>, n: nat)
    requires Grows(vs, n) && vs[0].Inv() && vs[0].ledger.height != UNMINED
    ensures vs[|vs| - 1].Inv() && vs[|vs| - 1].ledger.height != UNMINED
    ensures |vs[|vs| - 1].ledger.dropped| == |vs[0].ledger.dropped| + n
    decreases |vs|
  {
    if |vs| > 1 {
      var v, w := vs[|vs| - 2], vs[|vs| - 1];
      var front := vs[..|vs| - 1];
      if Sees(v, w) && Grows(front, n) {
        GrowsKeeps(front, n);
      } else {
        GrowsKeeps(front, n - 1);
      }
      NextInv(v, w);
    }
  }

  lemma BlockUndone(v: View, w: View)
    requires v.Inv() && v.ledger.height != UNMINED && Accepts(v, w) && |v.ledger.dropped| < v.cfg.maxRollback
    ensures w.ledger.dropped != [] && w.ledger.Undo() == v.ledger
  {
    var hash, height, block, gain, out, entry :|
      HeightOk(v, height) && Registers(v, w, hash, height, block, gain, out, entry);
    UndoRegister(v, w, hash, height, block, gain, out, entry);
  }

  lemma ObservationCommutes(l0: Ledger, v: View, w: View, n: nat)
    requires v.Inv() && Sees(v, w) && n <= |v.ledger.dropped| && Restored(l0, UndoN(v.ledger, n))
    ensures n <= |w.ledger.dropped| && Restored(l0, UndoN(w.ledger, n))
  {
    var r, t :| Observes(v, w, r, t);
    if w != v {
      SoundIsClosed(v);
      UndoNWith(v.ledger, r, t, n);
    }
  }

  lemma StepKeepsMined(first: View, v: View, w: View)
    requires v.Inv() && KeepsMined(first, v) && (Sees(v, w) || Accepts(v, w))
    ensures KeepsMined(first, w)
  {
    if Sees(v, w) {
      var r, t :| Observes(v, w, r, t);
    } else {
      var hash, height, block, gain, out, entry :|
        HeightOk(v, height) && Registers(v, w, hash, height, block, gain, out, entry);
    }
  }

  /** Rolling back the n blocks of such a stretch gives back bins, marks, stack, height and block count,
      and no record that was mined at the start has left `observed`. */
  lemma {:induction false} UndoStretch(vs: seq<View>, n: nat)
    requires Grows(vs, n) && vs[0].Inv() && vs[0].ledger.height != UNMINED
    ensures n <= |vs[|vs| - 1].ledger.dropped|
    ensures Restored(vs[0].ledger, UndoN(vs[|vs| - 1].ledger, n))
    ensures KeepsMined(vs[0], vs[|vs| - 1])
    decreases |vs|
  {
    GrowsKeeps(vs, n);
    if |vs| > 1 {
      var v, w := vs[|vs| - 2], vs[|vs| - 1];
      var front := vs[..|vs| - 1];
      assert front[0] == vs[0] && front[|front| - 1] == v;
      if Sees(v, w) && Grows(front, n) {
        GrowsKeeps(front, n);
        UndoStretch(front, n);
        ObservationCommutes(vs[0].ledger, v, w, n);
      } else {
        GrowsKeeps(front, n - 1);
        UndoStretch(front, n - 1);
        BlockUndone(v, w);
      }
      StepKeepsMined(vs[0], v, w);
    } else {
      assert KeepsMined(vs[0], vs[0]);
    }
  }

  // The n-th entry from the top is this block, and no later entry is.
  predicate LatestIs(stack: seq<Registered>, n: nat, hash: Hash) {
    && 0 < n <= |stack| && stack[|stack| - n].hash == hash
    && forall k :: |stack| - n < k < |stack| ==> stack[k].hash != hash
  }

  /** Rollback(hash) undoes every block of the stretch when `hash` is its first block and no later one. */
  lemma RollbackToBlock(vs: seq<View>, n: nat, hash: Hash, v': View)
    requires Grows(vs, n) && n > 0 && vs[0].Inv() && vs[0].ledger.height != UNMINED
    requires RollsBack(vs[|vs| - 1], v', hash)
    requires LatestIs(vs[|vs| - 1].ledger.dropped, n, hash)
    ensures Restored(vs[0].ledger, v'.ledger) && v'.observed == vs[|vs| - 1].observed && v'.Inv()
  {
    var last := vs[|vs| - 1];
    var d := Depth(last.ledger.dropped, hash);
    assert d == n;
    UndoStretch(vs, n);
    GrowsKeeps(vs, n);
    UndoNInv(last, n);
  }

  // ---------------------------------------------------------------------------------------------
  // The error return of RegisterBlock
  // ---------------------------------------------------------------------------------------------

  lemma AbortKeepsLeft(v: View, v': View, height: Uint64, done: seq<Hash>, gain: seq<set<Ref>>, out: seq<set<Ref>>,
                       b: nat)
    requires v.Inv() && v.ledger.dropped != [] && Aborts(v, v', height, done, gain, out)
    ensures v'.ledger.Left(v'.ledger.Top().transactions, b) == v.ledger.Left(v.ledger.Top().transactions, b)
  {
    var top := |v.ledger.dropped| - 1;
    forall r | r in v.ledger.dropped[top].transactions
      ensures r in v.ledger.txs && r in v'.ledger.txs && v'.ledger.txs[r] == v.ledger.txs[r]
    {
      assert v.ledger.DroppedOk(v.observed, top, r);
    }
  }

  lemma FitsByGain(v: View, v': View, height: Uint64, done: seq<Hash>, gain: seq<set<Ref>>, out: seq<set<Ref>>)
    requires v.Inv() && HeightOk(v, height) && v.ledger.dropped != []
    requires Aborts(v, v', height, done, gain, out)
    ensures v'.ledger.Fits() <==>
            forall b :: 0 <= b < DEPTH ==> |v.ledger.Left(v.ledger.Top().transactions, b)| <= |gain[b]|
  {
    forall b | 0 <= b < DEPTH
      ensures v'.ledger.Fresh(b) == gain[b]
      ensures v'.ledger.Left(v'.ledger.Top().transactions, b) == v.ledger.Left(v.ledger.Top().transactions, b)
    {
      FreshIsNew(v, height, done, gain, out, v'.ledger, b);
      AbortKeepsLeft(v, v', height, done, gain, out, b);
    }
  }

  // The distinct records that the given transactions would put into bin b.
  function Candidates(v: View, height: Uint64, block: seq<Hash>, b: nat): (s: set<Ref>) {
    set i | 0 <= i < |block| && Eligible(v, height, block[i], b) :: v.observed[block[i]]
  }

  // How many of them the bin takes in.
  function Intake(v: View, height: Uint64, block: seq<Hash>, b: nat): (n: nat) {
    var c := |Candidates(v, height, block, b)|;
    if c < v.cfg.maxReplacements then c else v.cfg.maxReplacements
  }

  lemma GainIsIntake(v: View, height: Uint64, block: seq<Hash>, gain: seq<set<Ref>>, b: nat)
    requires TakesIn(v, height, block, gain) && b < DEPTH
    ensures |gain[b]| == Intake(v, height, block, b)
  {
    var c := Candidates(v, height, block, b);
    forall r | r in gain[b] ensures r in c {
      var i :| 0 <= i < |block| && block[i] == v.ledger.txs[r].hash;
      assert Eligible(v, height, block[i], b);
    }
    SubsetSize(gain[b], c);
    if |gain[b]| < v.cfg.maxReplacements {
      assert c <= gain[b];
      assert c == gain[b];
    }
  }

  /** A block refused half-way moves the height but not the stack. Afterwards rollback has room exactly when, for every
      bin, the transactions before the refused one hold at least as many distinct eligible records, up to the
      replacement limit, as the previous block had dropped from it. */
  lemma FitsAfterAbort(v: View, v': View, height: Uint64, block: seq<Hash>, done: nat,
                       gain: seq<set<Ref>>, out: seq<set<Ref>>)
    requires v.Inv() && HeightOk(v, height) && v.ledger.dropped != []
    requires Refuses(v, v', height, block, done, gain, out)
    ensures v'.ledger.Fits() <==>
            forall b :: 0 <= b < DEPTH ==>
              |v.ledger.Left(v.ledger.Top().transactions, b)| <= Intake(v, height, block[..done], b)
  {
    FitsByGain(v, v', height, block[..done], gain, out);
    forall b | 0 <= b < DEPTH ensures |gain[b]| == Intake(v, height, block[..done], b) {
      GainIsIntake(v, height, block[..done], gain, b);
    }
  }

  /** Where a block without repetitions is refused: at its first transaction that was mined before. */
  lemma RefusedAtFirstMined(v: View, v': View, height: Uint64, block: seq<Hash>, done: nat,
                            gain: seq<set<Ref>>, out: seq<set<Ref>>)
    requires NoDup(block) && Indexed(v.ledger.txs, v.observed) && Refuses(v, v', height, block, done, gain, out)
    ensures AlreadyMined(v, block[done]) && NoneMined(v, block[..done])
  {
  }

  lemma FirstStops(v: View, block: seq<Hash>, done: nat)
    requires done < |block| && NoneMined(v, block[..done])
    ensures AlreadyMined(v, block[0]) ==> done == 0
  {
    assert forall i :: 0 <= i < done ==> block[..done][i] == block[i];
  }

  /** So a block whose first transaction is already mined, which is always refused there, makes the next rollback panic
      whenever the previous block dropped anything. */
  lemma AbortMakesRollbackPanic(v: View, v': View, height: Uint64, block: seq<Hash>, done: nat,
                                gain: seq<set<Ref>>, out: seq<set<Ref>>)
    requires v.Inv() && HeightOk(v, height) && v.ledger.dropped != [] && v.ledger.Top().transactions != []
    requires block != [] && AlreadyMined(v, block[0]) && Refuses(v, v', height, block, done, gain, out)
    ensures done == 0 && !v'.ledger.Fits()
  {
    FirstStops(v, block, done);
    FitsAfterAbort(v, v', height, block, done, gain, out);
    var r := v.ledger.Top().transactions[0];
    assert r in v.ledger.dropped[|v.ledger.dropped| - 1].transactions;
    assert v.ledger.DroppedOk(v.observed, |v.ledger.dropped| - 1, r);
    var b := Wait(v.ledger.txs[r], v.ledger.txs[r].mined);
    assert r in v.ledger.Left(v.ledger.Top().transactions, b);
    assert Candidates(v, height, block[..done], b) == {};
  }
}
