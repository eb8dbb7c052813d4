// Registering a block, bin by bin: the loop of RegisterBlock in mempool/estimatefee.go, without the object
// around it, proved to have the effect that `FeeSteps.Registers` and `FeeSteps.Aborts` describe.
module FeeBins {
  import opened Common
  import opened FeeLedger
  import opened MachineWords
  import opened FeeSteps
  import opened FeeShape
  import opened FeeRates

  // ---------------------------------------------------------------------------------------------
  // One bin while a block is registered
  // ---------------------------------------------------------------------------------------------

  // `bin` started as `start`, has taken in `gain` and given up `out`. Only positions near the end can hold
  // newcomers, which is why a replacement never drops one.
  predicate Filling(bin: seq<Ref>, start: seq<Ref>, gain: set<Ref>, out: set<Ref>, size: nat) {
    && NoDup(bin) && NoDup(start) && |start| <= size && |bin| <= size
    && gain !! Elems(start) && out <= Elems(start)
    && Elems(bin) == (Elems(start) - out) + gain
    && |out| == Excess(|start|, |gain|, size)
    && |bin| == |start| + |gain| - |out|
    && forall j :: 0 <= j < |bin| && j < |bin| - |gain| - 1 ==> bin[j] !in gain
  }

  method AddToBin(bin: seq<Ref>, o: Ref, count: nat, size: nat,
                  ghost start: seq<Ref>, ghost gain: set<Ref>, ghost out: set<Ref>)
    returns (bin': seq<Ref>, drop: Option<Ref>)
    requires Filling(bin, start, gain, out, size)
    requires count == |gain| + 1 < size
    requires o !in gain && o !in Elems(start)
    ensures Filling(bin', start, gain + {o}, if drop.Some? then out + {drop.value} else out, size)
    ensures drop.Some? ==> drop.value !in out
  {
    if |bin| == size {
      var l := size - count;
      var i :| 0 <= i < l;
      drop := Some(bin[i]);
      bin' := bin[i := bin[l - 1]][l - 1 := o];
      FillReplace(bin, i, l - 1, o, start, gain, out, size);
    } else {
      bin' := bin + [o];
      drop := None;
      FillAppend(bin, o, start, gain, out, size);
    }
  }

  lemma FillAppend(bin: seq<Ref>, o: Ref, start: seq<Ref>, gain: set<Ref>, out: set<Ref>, size: nat)
    requires Filling(bin, start, gain, out, size) && |bin| < size
    requires o !in gain && o !in Elems(start)
    ensures Filling(bin + [o], start, gain + {o}, out, size)
  {
    var bin' := bin + [o];
    assert o !in Elems(bin);
    assert Elems(bin') == Elems(bin) + {o};
    assert |gain + {o}| == |gain| + 1;
    assert forall j :: 0 <= j < |bin| ==> bin[j] in Elems(bin);
  }

  lemma FillReplace(bin: seq<Ref>, i: nat, k: nat, o: Ref, start: seq<Ref>, gain: set<Ref>, out: set<Ref>, size: nat)
    requires Filling(bin, start, gain, out, size) && |bin| == size
    requires o !in gain && o !in Elems(start) && i <= k == size - |gain| - 2
    ensures Filling(bin[i := bin[k]][k := o], start, gain + {o}, out + {bin[i]}, size) && bin[i] !in out
  {
    var bin' := bin[i := bin[k]][k := o];
    assert o !in Elems(bin);
    SwapOut(bin, i, k, o);
    SwapFront(bin, bin', i, k, o, gain);
    FillStep(bin, bin', bin[i], o, start, gain, out, size);
  }

  lemma SwapFront(bin: seq<Ref>, bin': seq<Ref>, i: nat, k: nat, o: Ref, gain: set<Ref>)
    requires i <= k < |bin| && o !in bin && bin' == bin[i := bin[k]][k := o]
    requires forall j :: 0 <= j <= k ==> bin[j] !in gain
    ensures forall j :: 0 <= j < k ==> bin'[j] !in gain + {o}
  {
  }

  lemma FillStep(bin: seq<Ref>, bin': seq<Ref>, x: Ref, o: Ref, start: seq<Ref>, gain: set<Ref>, out: set<Ref>,
                 size: nat)
    requires Filling(bin, start, gain, out, size) && |bin| == size == |bin'| && x in bin && x !in gain
    requires o !in gain && o !in Elems(start)
    requires NoDup(bin') && Elems(bin') == (Elems(bin) - {x}) + {o}
    requires forall j :: 0 <= j < |bin| && j < |bin| - |gain| - 2 ==> bin'[j] !in gain + {o}
    ensures Filling(bin', start, gain + {o}, out + {x}, size) && x !in out
  {
    assert x in Elems(bin);
    assert |gain + {o}| == |gain| + 1 && |out + {x}| == |out| + 1;
    assert (Elems(bin) - {x}) + {o} == (Elems(start) - (out + {x})) + (gain + {o});
  }

  lemma SwapOut(bin: seq<Ref>, i: nat, k: nat, o: Ref)
    requires NoDup(bin) && i <= k < |bin| && o !in bin
    ensures var bin' := bin[i := bin[k]][k := o];
            NoDup(bin') && Elems(bin') == (Elems(bin) - {bin[i]}) + {o}
  {
    var bin' := bin[i := bin[k]][k := o];
    forall x ensures x in Elems(bin') <==> (x in Elems(bin) && x != bin[i]) || x == o {
      if x in bin && x != bin[i] {
        var j :| 0 <= j < |bin| && bin[j] == x;
        assert bin'[if j == k then i else j] == x;
      }
      assert bin'[k] == o;
    }
  }

  // ---------------------------------------------------------------------------------------------

  // Everything RegisterBlock has done after the given transactions.
  ghost predicate Intake(v: View, h: Uint64, block: seq<Hash>, start: seq<seq<Ref>>, bin: seq<seq<Ref>>,
                         txs: map<Ref, Tx>, counts: seq<nat>, left: seq<Ref>,
                         gain: seq<set<Ref>>, out: seq<set<Ref>>) {
    && |bin| == |start| == |counts| == |out| == DEPTH
    && TakesIn(v, h, block, gain)
    && txs == Mark(v.ledger.txs, gain, h)
    && AllFilling(bin, start, counts, gain, out, v.cfg.binSize)
    && Lists(left, out)
  }

  ghost predicate Lists(left: seq<Ref>, out: seq<set<Ref>>) {
    NoDup(left) && forall r :: r in left <==> Among(out, r)
  }

  predicate AllFilling(bin: seq<seq<Ref>>, start: seq<seq<Ref>>, counts: seq<nat>,
                       gain: seq<set<Ref>>, out: seq<set<Ref>>, size: nat)
    requires |bin| == |start| == |counts| == |gain| == |out|
  {
    forall b :: 0 <= b < |bin| ==> counts[b] == |gain[b]| && Filling(bin[b], start[b], gain[b], out[b], size)
  }

  lemma StartFilling(v: View, start: seq<seq<Ref>>, gain: seq<set<Ref>>, out: seq<set<Ref>>, h: Uint64,
                     counts: seq<nat>)
    requires Usable(v) && |start| == DEPTH && v.ledger.bins == Sets(start)
    requires forall b :: 0 <= b < DEPTH ==> NoDup(start[b])
    requires |gain| == |out| == |counts| == DEPTH
    requires forall b :: 0 <= b < DEPTH ==> gain[b] == out[b] == {} && counts[b] == 0
    ensures Intake(v, h, [], start, start, v.ledger.txs, counts, [], gain, out)
  {
    forall b | 0 <= b < DEPTH ensures |start[b]| <= v.cfg.binSize {
      CountElems(start[b]);
      assert Sets(start)[b] == Elems(start[b]);
    }
    assert Mark(v.ledger.txs, gain, h) == v.ledger.txs;
  }

  // Bins, marks and leavers at the end of the loop.
  ghost predicate Taken(v: View, h: Uint64, block: seq<Hash>, start: seq<seq<Ref>>, bin: seq<seq<Ref>>,
                        txs: map<Ref, Tx>, left: seq<Ref>, gain: seq<set<Ref>>, out: seq<set<Ref>>) {
    exists counts :: Intake(v, h, block, start, bin, txs, counts, left, gain, out)
  }

  // At a transaction's turn its record is marked exactly when it was mined before the block or taken in already.
  lemma MarkedMeans(v: View, h: Uint64, block: seq<Hash>, x: Hash, gain: seq<set<Ref>>)
    requires Usable(v) && TakesIn(v, h, block, gain) && x in v.observed
    requires Mark(v.ledger.txs, gain, h)[v.observed[x]].mined != UNMINED
    ensures AlreadyMined(v, x) || TakenAlready(v, gain, x)
  {
  }

  lemma UnmarkedMeans(v: View, h: Uint64, block: seq<Hash>, x: Hash, gain: seq<set<Ref>>)
    requires Usable(v) && h != UNMINED && TakesIn(v, h, block, gain) && x in v.observed
    requires Mark(v.ledger.txs, gain, h)[v.observed[x]].mined == UNMINED
    ensures !AlreadyMined(v, x) && !Among(gain, v.observed[x])
  {
  }

  lemma NotBinned(v: View, start: seq<seq<Ref>>, b: nat, r: Ref)
    requires Usable(v) && |start| == DEPTH && v.ledger.bins == Sets(start) && b < DEPTH
    requires r in v.ledger.txs && v.ledger.txs[r].mined == UNMINED
    ensures r !in Elems(start[b])
  {
    assert Sets(start)[b] == Elems(start[b]);
    assert r in v.ledger.bins[b] ==> Binned(v.ledger, r, b);
  }

  // The bins, marks and list of leavers are those of `Place`.
  lemma FilledAfter(v: View, h: Uint64, block: seq<Hash>, start: seq<seq<Ref>>, bin: seq<seq<Ref>>,
                    txs: map<Ref, Tx>, left: seq<Ref>, gain: seq<set<Ref>>, out: seq<set<Ref>>)
    requires Usable(v) && |start| == DEPTH && v.ledger.bins == Sets(start)
    requires Taken(v, h, block, start, bin, txs, left, gain, out)
    ensures |bin| == DEPTH && forall b :: 0 <= b < DEPTH ==> NoDup(bin[b])
    ensures TakesIn(v, h, block, gain) && GivesUp(v, gain, out)
    ensures txs == Mark(v.ledger.txs, gain, h) && Sets(bin) == Place(v.ledger, h, gain, out).bins
    ensures Lists(left, out)
  {
    var counts :| Intake(v, h, block, start, bin, txs, counts, left, gain, out);
    forall b | 0 <= b < DEPTH
      ensures NoDup(bin[b]) && out[b] <= v.ledger.bins[b]
      ensures |out[b]| == Excess(|v.ledger.bins[b]|, |gain[b]|, v.cfg.binSize)
      ensures Sets(bin)[b] == (v.ledger.bins[b] - out[b]) + gain[b]
    {
      assert Filling(bin[b], start[b], gain[b], out[b], v.cfg.binSize);
      assert Sets(start)[b] == Elems(start[b]) && Sets(bin)[b] == Elems(bin[b]);
      CountElems(start[b]);
    }
    assert Sets(bin) == Place(v.ledger, h, gain, out).bins;
  }

  lemma IntakeSkip(v: View, h: Uint64, block: seq<Hash>, x: Hash, start: seq<seq<Ref>>, bin: seq<seq<Ref>>,
                   txs: map<Ref, Tx>, counts: seq<nat>, left: seq<Ref>,
                   gain: seq<set<Ref>>, out: seq<set<Ref>>)
    requires Intake(v, h, block, start, bin, txs, counts, left, gain, out)
    requires forall b :: 0 <= b < DEPTH && Eligible(v, h, x, b) ==> |gain[b]| == v.cfg.maxReplacements
    ensures Intake(v, h, block + [x], start, bin, txs, counts, left, gain, out)
  {
    TakesInSkip(v, h, block, x, gain);
  }

  lemma TakesInSkip(v: View, h: Uint64, block: seq<Hash>, x: Hash, gain: seq<set<Ref>>)
    requires TakesIn(v, h, block, gain)
    requires forall b :: 0 <= b < DEPTH && Eligible(v, h, x, b) ==> |gain[b]| == v.cfg.maxReplacements
    ensures TakesIn(v, h, block + [x], gain)
  {
    forall i, b | 0 <= i < |block + [x]| && 0 <= b < DEPTH && Eligible(v, h, (block + [x])[i], b)
      ensures v.observed[(block + [x])[i]] in gain[b] || |gain[b]| == v.cfg.maxReplacements
    {
      if i < |block| {
        assert Eligible(v, h, block[i], b);
      }
    }
  }

  lemma TakesInAdd(v: View, h: Uint64, block: seq<Hash>, x: Hash, gain: seq<set<Ref>>, b: nat)
    requires TakesIn(v, h, block, gain) && b < DEPTH && Eligible(v, h, x, b) && Indexed(v.ledger.txs, v.observed)
    requires v.observed[x] !in gain[b] && |gain[b]| < v.cfg.maxReplacements
    ensures TakesIn(v, h, block + [x], gain[b := gain[b] + {v.observed[x]}])
  {
    var gain' := gain[b := gain[b] + {v.observed[x]}];
    assert |gain'[b]| == |gain[b]| + 1;
    forall i, c | 0 <= i < |block + [x]| && 0 <= c < DEPTH && Eligible(v, h, (block + [x])[i], c)
      ensures v.observed[(block + [x])[i]] in gain'[c] || |gain'[c]| == v.cfg.maxReplacements
    {
      if i < |block| {
        assert Eligible(v, h, block[i], c);
      }
    }
  }

  lemma MarkAdd(txs: map<Ref, Tx>, gain: seq<set<Ref>>, b: nat, o: Ref, h: Uint64)
    requires b < |gain| && o in txs && !Among(gain, o)
    ensures Mark(txs, gain[b := gain[b] + {o}], h) == Mark(txs, gain, h)[o := txs[o].(mined := h)]
  {
    var gain' := gain[b := gain[b] + {o}];
    forall r ensures Among(gain', r) <==> Among(gain, r) || r == o {
      if Among(gain, r) {
        var c :| 0 <= c < |gain| && r in gain[c];
        assert r in gain'[c];
      }
      assert o in gain'[b];
    }
  }

  lemma AmongAdd(sets: seq<set<Ref>>, b: nat, o: Ref, r: Ref)
    requires b < |sets|
    ensures Among(sets[b := sets[b] + {o}], r) <==> Among(sets, r) || r == o
  {
    var sets' := sets[b := sets[b] + {o}];
    if Among(sets, r) {
      var c :| 0 <= c < |sets| && r in sets[c];
      assert r in sets'[c];
    }
    assert o in sets'[b];
  }

  lemma FillingAdd(bin: seq<seq<Ref>>, start: seq<seq<Ref>>, counts: seq<nat>, gain: seq<set<Ref>>, out: seq<set<Ref>>,
                   size: nat, b: nat, bin_b: seq<Ref>, gain_b: set<Ref>, out_b: set<Ref>)
    requires |bin| == |start| == |counts| == |gain| == |out| && b < |bin|
    requires AllFilling(bin, start, counts, gain, out, size) && Filling(bin_b, start[b], gain_b, out_b, size)
    ensures AllFilling(bin[b := bin_b], start, counts[b := |gain_b|], gain[b := gain_b], out[b := out_b], size)
  {
    forall c | 0 <= c < |bin| && c != b ensures Filling(bin[c], start[c], gain[c], out[c], size) {
    }
  }

  lemma IntakeAdd(v: View, h: Uint64, block: seq<Hash>, x: Hash, start: seq<seq<Ref>>, b: nat, o: Ref,
                  bin_b: seq<Ref>, out_b: set<Ref>, left': seq<Ref>, bin: seq<seq<Ref>>,
                  txs: map<Ref, Tx>, counts: seq<nat>, left: seq<Ref>,
                  gain: seq<set<Ref>>, out: seq<set<Ref>>)
    requires Indexed(v.ledger.txs, v.observed) && |start| == DEPTH
    requires Intake(v, h, block, start, bin, txs, counts, left, gain, out)
    requires b < DEPTH && Eligible(v, h, x, b) && o == v.observed[x] && !Among(gain, o)
    requires |gain[b]| < v.cfg.maxReplacements
    requires Filling(bin_b, start[b], gain[b] + {o}, out_b, v.cfg.binSize)
    requires Lists(left', out[b := out_b])
    ensures o in txs
    ensures Intake(v, h, block + [x], start, bin[b := bin_b], txs[o := txs[o].(mined := h)],
                   counts[b := counts[b] + 1], left', gain[b := gain[b] + {o}], out[b := out_b])
  {
    assert o !in gain[b];
    TakesInAdd(v, h, block, x, gain, b);
    MarkAdd(v.ledger.txs, gain, b, o, h);
    assert txs[o] == v.ledger.txs[o];
    assert counts[b] + 1 == |gain[b] + {o}|;
    FillingAdd(bin, start, counts, gain, out, v.cfg.binSize, b, bin_b, gain[b] + {o}, out_b);
  }

  lemma LeaversAreMembers(v: View, start: seq<seq<Ref>>, bin: seq<seq<Ref>>, counts: seq<nat>,
                          gain: seq<set<Ref>>, out: seq<set<Ref>>)
    requires |bin| == |start| == |counts| == |gain| == |out| == DEPTH && v.ledger.bins == Sets(start)
    requires AllFilling(bin, start, counts, gain, out, v.cfg.binSize)
    ensures forall c :: 0 <= c < DEPTH ==> out[c] <= v.ledger.bins[c]
  {
    forall c | 0 <= c < DEPTH ensures out[c] <= v.ledger.bins[c] {
      assert Filling(bin[c], start[c], gain[c], out[c], v.cfg.binSize);
      assert Sets(start)[c] == Elems(start[c]);
    }
  }

  lemma LeaverAdd(v: View, out: seq<set<Ref>>, b: nat, drop: Option<Ref>, left: seq<Ref>)
    requires Usable(v) && |out| == DEPTH && b < DEPTH && Lists(left, out)
    requires forall c :: 0 <= c < DEPTH ==> out[c] <= v.ledger.bins[c]
    requires drop.Some? ==> drop.value !in out[b] && drop.value in v.ledger.bins[b]
    ensures Lists(if drop.Some? then left + [drop.value] else left,
                  out[b := if drop.Some? then out[b] + {drop.value} else out[b]])
  {
    if drop.Some? {
      var d := drop.value;
      assert Binned(v.ledger, d, b);
      forall c | 0 <= c < DEPTH ensures d !in out[c] {
        assert d in v.ledger.bins[c] ==> Binned(v.ledger, d, c);
      }
      assert d !in left;
      forall r ensures r in left + [d] <==> Among(out[b := out[b] + {d}], r) {
        AmongAdd(out, b, d, r);
      }
    } else {
      assert out[b := out[b]] == out;
    }
  }

  /** The loop over the block's transactions, up to the first that is already mined. */
  method TakeBlock(ghost v: View, cfg: Config, observed: map<Hash, Ref>, h: Uint64, block: seq<Hash>,
                   start: seq<seq<Ref>>, txs0: map<Ref, Tx>)
    returns (bin: seq<seq<Ref>>, txs: map<Ref, Tx>, left: seq<Ref>, ok: bool,
             ghost gain: seq<set<Ref>>, ghost out: seq<set<Ref>>, ghost done: nat)
    requires Usable(v) && h != UNMINED && |start| == DEPTH && v.ledger.bins == Sets(start)
    requires v.cfg == cfg && v.observed == observed && v.ledger.txs == txs0
    requires forall b :: 0 <= b < DEPTH ==> NoDup(start[b])
    ensures done <= |block| && (ok <==> done == |block|)
    ensures Taken(v, h, block[..done], start, bin, txs, left, gain, out)
    ensures NoneMined(v, block[..done])
    ensures !ok ==> AlreadyMined(v, block[done]) || TakenAlready(v, gain, block[done])
  {
    bin, txs, left := start, txs0, [];
    var counts := seq(DEPTH, b => 0);
    gain, out := seq(DEPTH, b => {}), seq(DEPTH, b => {});
    done := 0;
    StartFilling(v, start, gain, out, h, counts);
    var i := 0;
    while i < |block|
      invariant done == i <= |block|
      invariant Intake(v, h, block[..i], start, bin, txs, counts, left, gain, out)
      invariant NoneMined(v, block[..i])
    {
      ok, bin, txs, counts, left, gain, out :=
        TakeNext(v, cfg, observed, h, block, i, start, bin, txs, counts, left, gain, out);
      if !ok {
        return;
      }
      i := i + 1;
      done := i;
    }
    ok := true;
  }

  method TakeNext(ghost v: View, cfg: Config, observed: map<Hash, Ref>, h: Uint64, block: seq<Hash>, i: nat,
                  ghost start: seq<seq<Ref>>, bin: seq<seq<Ref>>, txs: map<Ref, Tx>, counts: seq<nat>, left: seq<Ref>,
                  ghost gain: seq<set<Ref>>, ghost out: seq<set<Ref>>)
    returns (ok: bool, bin': seq<seq<Ref>>, txs': map<Ref, Tx>, counts': seq<nat>, left': seq<Ref>,
             ghost gain': seq<set<Ref>>, ghost out': seq<set<Ref>>)
    requires Usable(v) && h != UNMINED && |start| == DEPTH && v.ledger.bins == Sets(start)
    requires v.cfg == cfg && v.observed == observed && i < |block|
    requires Intake(v, h, block[..i], start, bin, txs, counts, left, gain, out) && NoneMined(v, block[..i])
    ensures Intake(v, h, block[..if ok then i + 1 else i], start, bin', txs', counts', left', gain', out')
    ensures ok ==> NoneMined(v, block[..i + 1])
    ensures !ok ==> AlreadyMined(v, block[i]) || TakenAlready(v, gain', block[i])
  {
    ghost var seen := block[..i];
    assert block[..i + 1] == seen + [block[i]];
    ok, bin', txs', counts', left', gain', out' :=
      TakeOne(v, cfg, observed, h, seen, block[i], start, bin, txs, counts, left, gain, out);
  }

  method TakeOne(ghost v: View, cfg: Config, observed: map<Hash, Ref>, h: Uint64, ghost block: seq<Hash>, x: Hash,
                 ghost start: seq<seq<Ref>>, bin: seq<seq<Ref>>, txs: map<Ref, Tx>, counts: seq<nat>, left: seq<Ref>,
                 ghost gain: seq<set<Ref>>, ghost out: seq<set<Ref>>)
    returns (ok: bool, bin': seq<seq<Ref>>, txs': map<Ref, Tx>, counts': seq<nat>, left': seq<Ref>,
             ghost gain': seq<set<Ref>>, ghost out': seq<set<Ref>>)
    requires Usable(v) && h != UNMINED && |start| == DEPTH && v.ledger.bins == Sets(start)
    requires v.cfg == cfg && v.observed == observed
    requires Intake(v, h, block, start, bin, txs, counts, left, gain, out)
    ensures Intake(v, h, if ok then block + [x] else block, start, bin', txs', counts', left', gain', out')
    ensures ok ==> !AlreadyMined(v, x)
    ensures !ok ==> AlreadyMined(v, x) || TakenAlready(v, gain', x)
  {
    ok, bin', txs', counts', left', gain', out' := true, bin, txs, counts, left, gain, out;
    if x !in observed {
      IntakeSkip(v, h, block, x, start, bin, txs, counts, left, gain, out);
      return;
    }
    var o := observed[x];
    if txs[o].mined != UNMINED {
      MarkedMeans(v, h, block, x, gain);
      ok := false;
      return;
    }
    UnmarkedMeans(v, h, block, x, gain);
    var wait := Wait(txs[o], h);
    if wait >= DEPTH || counts[wait] == cfg.maxReplacements {
      IntakeSkip(v, h, block, x, start, bin, txs, counts, left, gain, out);
      return;
    }
    bin', left', out' := PutAway(v, h, block, x, start, wait, o, bin, txs, counts, left, gain, out, cfg.binSize);
    gain' := gain[wait := gain[wait] + {o}];
    txs' := txs[o := txs[o].(mined := h)];
    counts' := counts[wait := counts[wait] + 1];
  }

  method PutAway(ghost v: View, ghost h: Uint64, ghost block: seq<Hash>, ghost x: Hash, ghost start: seq<seq<Ref>>,
                 b: nat, o: Ref, bin: seq<seq<Ref>>, ghost txs: map<Ref, Tx>, counts: seq<nat>, left: seq<Ref>,
                 ghost gain: seq<set<Ref>>, ghost out: seq<set<Ref>>, size: nat)
    returns (bin': seq<seq<Ref>>, left': seq<Ref>, ghost out': seq<set<Ref>>)
    requires Usable(v) && |start| == DEPTH && v.ledger.bins == Sets(start) && size == v.cfg.binSize
    requires Intake(v, h, block, start, bin, txs, counts, left, gain, out)
    requires b < DEPTH && Eligible(v, h, x, b) && o == v.observed[x] && !Among(gain, o)
    requires |gain[b]| < v.cfg.maxReplacements
    ensures o in txs
    ensures Intake(v, h, block + [x], start, bin', txs[o := txs[o].(mined := h)],
                   counts[b := counts[b] + 1], left', gain[b := gain[b] + {o}], out')
  {
    NotBinned(v, start, b, o);
    assert o !in gain[b];
    assert Filling(bin[b], start[b], gain[b], out[b], size);
    var bin_b, drop := AddToBin(bin[b], o, counts[b] + 1, size, start[b], gain[b], out[b]);
    left' := if drop.Some? then left + [drop.value] else left;
    ghost var out_b := if drop.Some? then out[b] + {drop.value} else out[b];
    bin' := bin[b := bin_b];
    out' := out[b := out_b];
    LeaversAreMembers(v, start, bin, counts, gain, out);
    assert drop.Some? ==> drop.value in v.ledger.bins[b] by {
      assert drop.Some? ==> drop.value in out_b;
      assert Sets(start)[b] == Elems(start[b]);
    }
    LeaverAdd(v, out, b, drop, left);
    IntakeAdd(v, h, block, x, start, b, o, bin_b, out_b, left', bin, txs, counts, left, gain, out);
  }

  lemma RegisterDone(v: View, v': View, hash: Hash, h: Uint64, block: seq<Hash>,
                     gain: seq<set<Ref>>, out: seq<set<Ref>>, entry: Registered)
    requires Usable(v) && h != UNMINED && Extends(v, h)
    requires TakesIn(v, h, block, gain) && GivesUp(v, gain, out)
    requires entry.hash == hash && Lists(entry.transactions, out)
    requires v'.cfg == v.cfg && v'.ledger.txs == Mark(v.ledger.txs, gain, h)
    requires v'.ledger.bins == Place(v.ledger, h, gain, out).bins
    requires v'.ledger.height == h && v'.ledger.blocks == Next32(v.ledger.blocks)
    requires v'.ledger.dropped == Push(v.ledger.dropped, entry, v.cfg.maxRollback)
    requires v'.observed == Purge(v'.ledger.txs, v.observed, h)
    ensures Registers(v, v', hash, h, block, gain, out, entry) && Usable(v')
  {
    assert Registers(v, v', hash, h, block, gain, out, entry);
    RegisterUsable(v, v', hash, h, block, gain, out, entry);
  }

  method Process(ghost v: View, cfg: Config, observed: map<Hash, Ref>, dropped: seq<Registered>, hash: Hash, h: Uint64,
                 block: seq<Hash>, bin: seq<seq<Ref>>, txs: map<Ref, Tx>)
    returns (ok: bool, bin': seq<seq<Ref>>, txs': map<Ref, Tx>, observed': map<Hash, Ref>, dropped': seq<Registered>,
             ghost v': View,
             ghost gain: seq<set<Ref>>, ghost out: seq<set<Ref>>, ghost entry: Registered, ghost done: nat)
    requires Usable(v) && h != UNMINED && Extends(v, h) && |bin| == DEPTH
    requires v.cfg == cfg && v.observed == observed && v.ledger.txs == txs && v.ledger.bins == Sets(bin)
             && v.ledger.dropped == dropped
    requires forall b :: 0 <= b < DEPTH ==> NoDup(bin[b])
    ensures |bin'| == DEPTH && (forall b :: 0 <= b < DEPTH ==> NoDup(bin'[b])) && (forall r :: r in txs' ==> r in txs)
    ensures v' == View(cfg, Ledger(txs', Sets(bin'), dropped', h, Next32(v.ledger.blocks)), observed')
    ensures Usable(v')
    ensures ok ==> Registers(v, v', hash, h, block, gain, out, entry)
    ensures ok ==> NoneMined(v, block)
    ensures !ok ==> Refuses(v, v', h, block, done, gain, out)
  {
    var left;
    bin', txs', left, ok, gain, out, done := TakeBlock(v, cfg, observed, h, block, bin, txs);
    FilledAfter(v, h, block[..done], bin, bin', txs', left, gain, out);
    entry := Registered(hash, left);
    observed', dropped' := observed, dropped;
    if ok {
      assert block[..done] == block;
      observed' := Purge(txs', observed, h);
      if cfg.maxRollback == 0 {
      } else if |dropped| == cfg.maxRollback {
        dropped' := dropped[1..] + [Registered(hash, left)];
      } else {
        dropped' := dropped + [Registered(hash, left)];
      }
    }
    v' := View(cfg, Ledger(txs', Sets(bin'), dropped', h, Next32(v.ledger.blocks)), observed');
    if ok {
      RegisterDone(v, v', hash, h, block, gain, out, entry);
    } else {
      PlaceShaped(v, h, block[..done], gain, out);
    }
  }
}
