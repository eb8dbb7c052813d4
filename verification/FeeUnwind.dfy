// Rolling back a block, bin by bin: the loops of rollback in mempool/estimatefee.go, without the object
// around them, proved to compute `Ledger.Undo`.
module FeeUnwind {
  import opened FeeLedger
  import opened MachineWords
  import opened FeeSteps
  import opened FeeShape
  import opened FeeRates
  import opened FeeBins

  // ---------------------------------------------------------------------------------------------
  // One bin while a block is rolled back
  // ---------------------------------------------------------------------------------------------

  // The first j places of `bin` come from the first q of `start`: without late members, with the returned
  // ones; the rest has not been looked at.
  predicate Scanned(bin: seq<Ref>, start: seq<Ref>, j: nat, q: nat, late: set<Ref>, back: set<Ref>) {
    && j <= |bin| && q <= |start| && bin[j..] == start[q..]
    && NoDup(bin) && NoDup(start) && back !! Elems(start)
    && Elems(bin[..j]) == (Elems(start[..q]) - late) + back
  }

  lemma ElemsSnoc(s: seq<Ref>, j: nat)
    requires j < |s|
    ensures Elems(s[..j + 1]) == Elems(s[..j]) + {s[j]}
  {
  }

  lemma ScanSkip(bin: seq<Ref>, start: seq<Ref>, j: nat, q: nat, late: set<Ref>, back: set<Ref>)
    requires Scanned(bin, start, j, q, late, back) && j < |bin| && bin[j] !in late
    ensures q < |start| && bin[j] == start[q] && Scanned(bin, start, j + 1, q + 1, late, back)
    ensures late * Elems(start[..q + 1]) == late * Elems(start[..q])
  {
    assert bin[j] == bin[j..][0] && bin[j + 1..] == bin[j..][1..] && start[q + 1..] == start[q..][1..];
    ElemsSnoc(bin, j);
    ElemsSnoc(start, q);
    assert start[q] in Elems(start);
  }

  lemma ScanTake(bin: seq<Ref>, start: seq<Ref>, j: nat, q: nat, late: set<Ref>, back: set<Ref>)
    requires Scanned(bin, start, j, q, late, back) && j < |bin| && bin[j] in late
    ensures q < |start| && bin[j] == start[q]
    ensures late * Elems(start[..q + 1]) == late * Elems(start[..q]) + {bin[j]}
    ensures bin[j] !in Elems(start[..q])
    ensures (Elems(start[..q + 1]) - late) == Elems(start[..q]) - late
  {
    assert bin[j] == bin[j..][0];
    ElemsSnoc(start, q);
  }

  lemma ScanReplace(bin: seq<Ref>, start: seq<Ref>, j: nat, q: nat, late: set<Ref>, back: set<Ref>, o: Ref)
    requires Scanned(bin, start, j, q, late, back) && j < |bin| && bin[j] in late
    requires o !in Elems(start) && o !in back
    ensures q < |start| && Scanned(bin[j := o], start, j + 1, q + 1, late, back + {o})
  {
    ScanTake(bin, start, j, q, late, back);
    var bin' := bin[j := o];
    assert bin[j + 1..] == bin[j..][1..] && start[q + 1..] == start[q..][1..];
    assert bin'[j + 1..] == bin[j + 1..] && bin'[..j] == bin[..j];
    ElemsSnoc(bin', j);
    forall k | 0 <= k < |bin| && k != j ensures bin[k] != o {
      if k < j {
        assert bin[..j][k] == bin[k] && bin[k] in Elems(bin[..j]);
      } else {
        assert bin[k] == bin[j..][k - j] == start[q..][k - j];
      }
    }
  }

  lemma ScanRemove(bin: seq<Ref>, start: seq<Ref>, j: nat, q: nat, late: set<Ref>, back: set<Ref>)
    requires Scanned(bin, start, j, q, late, back) && j < |bin| && bin[j] in late
    ensures q < |start| && Scanned(bin[..j] + bin[j + 1..], start, j, q + 1, late, back)
  {
    ScanTake(bin, start, j, q, late, back);
    var bin' := bin[..j] + bin[j + 1..];
    assert bin[j + 1..] == bin[j..][1..] && start[q + 1..] == start[q..][1..];
    assert bin'[j..] == bin[j + 1..] && bin'[..j] == bin[..j];
  }

  // ---------------------------------------------------------------------------------------------

  // Dropped transactions returned so far, and how far each bin has been scanned.
  ghost predicate Unwinding(l: Ledger, start: seq<seq<Ref>>, bin: seq<seq<Ref>>, pos: seq<nat>, q: seq<nat>,
                            gone: seq<Ref>, txs: map<Ref, Tx>) {
    && |start| == |bin| == |pos| == |q| == |l.bins| == DEPTH
    && AllScanned(l, start, bin, pos, q, gone)
    && txs == Mark(l.txs, Cleared(l, start, q), UNMINED)
  }

  predicate AllScanned(l: Ledger, start: seq<seq<Ref>>, bin: seq<seq<Ref>>, pos: seq<nat>, q: seq<nat>, gone: seq<Ref>)
    requires |start| == |bin| == |pos| == |q| == |l.bins|
  {
    forall b :: 0 <= b < |bin| ==> Scanned(bin[b], start[b], pos[b], q[b], l.Fresh(b), l.Left(gone, b))
  }

  lemma ScanOne(l: Ledger, start: seq<seq<Ref>>, bin: seq<seq<Ref>>, pos: seq<nat>, q: seq<nat>, gone: seq<Ref>,
                b: nat, bin_b: seq<Ref>, pos_b: nat, q_b: nat, gone': seq<Ref>)
    requires |start| == |bin| == |pos| == |q| == |l.bins| && b < |bin|
    requires AllScanned(l, start, bin, pos, q, gone)
    requires Scanned(bin_b, start[b], pos_b, q_b, l.Fresh(b), l.Left(gone', b))
    requires forall c :: 0 <= c < |bin| && c != b ==> l.Left(gone', c) == l.Left(gone, c)
    ensures AllScanned(l, start, bin[b := bin_b], pos[b := pos_b], q[b := q_b], gone')
  {
    forall c | 0 <= c < |bin| && c != b
      ensures Scanned(bin[c], start[c], pos[c], q[c], l.Fresh(c), l.Left(gone', c))
    {
      assert Scanned(bin[c], start[c], pos[c], q[c], l.Fresh(c), l.Left(gone, c));
    }
  }

  lemma OtherBin(l: Ledger, b: nat, c: nat, x: Ref)
    requires Shaped(l) && b < DEPTH && c < DEPTH && b != c && x in l.bins[b]
    ensures x !in l.bins[c]
  {
    assert Binned(l, x, b);
  }

  // The fresh members met so far.
  ghost function Cleared(l: Ledger, start: seq<seq<Ref>>, q: seq<nat>): (s: seq<set<Ref>>)
    requires |start| == |q| == |l.bins|
    requires forall b :: 0 <= b < |q| ==> q[b] <= |start[b]|
  {
    seq(|q|, b requires 0 <= b < |q| => l.Fresh(b) * Elems(start[b][..q[b]]))
  }

  // The next place to look at still holds what it held, and shows whether it is fresh.
  lemma LookAt(l: Ledger, start: seq<seq<Ref>>, bin: seq<seq<Ref>>, pos: seq<nat>, q: seq<nat>, gone: seq<Ref>,
               txs: map<Ref, Tx>, b: nat)
    requires Shaped(l) && l.bins == Sets(start) && Unwinding(l, start, bin, pos, q, gone, txs)
    requires b < DEPTH && pos[b] < |bin[b]|
    ensures var x := bin[b][pos[b]];
            && q[b] < |start[b]| && x == start[b][q[b]] && x in l.bins[b] && x in l.txs
            && !Among(Cleared(l, start, q), x)
            && x in txs && txs[x] == l.txs[x] && (txs[x].mined == l.height <==> x in l.Fresh(b))
  {
    var x := bin[b][pos[b]];
    assert Scanned(bin[b], start[b], pos[b], q[b], l.Fresh(b), l.Left(gone, b));
    assert x == bin[b][pos[b]..][0] == start[b][q[b]..][0];
    assert Sets(start)[b] == Elems(start[b]);
    assert Binned(l, x, b);
    var cleared := Cleared(l, start, q);
    forall c | 0 <= c < DEPTH ensures x !in cleared[c] {
      if c != b {
        OtherBin(l, b, c, x);
      } else {
        assert x !in start[b][..q[b]];
      }
    }
  }

  lemma SkipStep(l: Ledger, start: seq<seq<Ref>>, bin: seq<seq<Ref>>, pos: seq<nat>, q: seq<nat>, gone: seq<Ref>,
                 txs: map<Ref, Tx>, b: nat)
    requires Shaped(l) && l.bins == Sets(start) && Unwinding(l, start, bin, pos, q, gone, txs)
    requires b < DEPTH && pos[b] < |bin[b]| && bin[b][pos[b]] !in l.Fresh(b)
    ensures Unwinding(l, start, bin, pos[b := pos[b] + 1], q[b := q[b] + 1], gone, txs)
    ensures Cleared(l, start, q[b := q[b] + 1]) == Cleared(l, start, q)
  {
    assert Scanned(bin[b], start[b], pos[b], q[b], l.Fresh(b), l.Left(gone, b));
    ScanSkip(bin[b], start[b], pos[b], q[b], l.Fresh(b), l.Left(gone, b));
    ScanOne(l, start, bin, pos, q, gone, b, bin[b], pos[b] + 1, q[b] + 1, gone);
    assert bin[b := bin[b]] == bin;
    assert Cleared(l, start, q[b := q[b] + 1]) == Cleared(l, start, q);
  }

  // Unmarking a fresh member moves it to the cleared ones.
  lemma ClearStep(l: Ledger, start: seq<seq<Ref>>, bin: seq<seq<Ref>>, pos: seq<nat>, q: seq<nat>, gone: seq<Ref>,
                  txs: map<Ref, Tx>, b: nat)
    requires Shaped(l) && l.bins == Sets(start) && Unwinding(l, start, bin, pos, q, gone, txs)
    requires b < DEPTH && pos[b] < |bin[b]| && bin[b][pos[b]] in l.Fresh(b)
    ensures q[b] < |start[b]|
    ensures var x := bin[b][pos[b]];
            && Cleared(l, start, q[b := q[b] + 1]) == Cleared(l, start, q)[b := Cleared(l, start, q)[b] + {x}]
            && x in txs && txs[x := txs[x].(mined := UNMINED)]
              == Mark(l.txs, Cleared(l, start, q[b := q[b] + 1]), UNMINED)
            && x !in Cleared(l, start, q)[b]
  {
    var x := bin[b][pos[b]];
    LookAt(l, start, bin, pos, q, gone, txs, b);
    ScanTake(bin[b], start[b], pos[b], q[b], l.Fresh(b), l.Left(gone, b));
    var cleared := Cleared(l, start, q);
    assert Cleared(l, start, q[b := q[b] + 1]) == cleared[b := cleared[b] + {x}];
    MarkAdd(l.txs, cleared, b, x, UNMINED);
    assert x !in cleared[b];
  }

  lemma ReplaceStep(l: Ledger, start: seq<seq<Ref>>, bin: seq<seq<Ref>>, pos: seq<nat>, q: seq<nat>, gone: seq<Ref>,
                    txs: map<Ref, Tx>, b: nat, o: Ref)
    requires Shaped(l) && l.bins == Sets(start) && Unwinding(l, start, bin, pos, q, gone, txs)
    requires b < DEPTH && pos[b] < |bin[b]| && bin[b][pos[b]] in l.Fresh(b)
    requires o !in gone && o in l.txs && Wait(l.txs[o], l.txs[o].mined) == b && o !in l.bins[b]
    ensures bin[b][pos[b]] in txs
    ensures Unwinding(l, start, bin[b := bin[b][pos[b] := o]], pos[b := pos[b] + 1], q[b := q[b] + 1], gone + [o],
                      txs[bin[b][pos[b]] := txs[bin[b][pos[b]]].(mined := UNMINED)])
  {
    ClearStep(l, start, bin, pos, q, gone, txs, b);
    ReplaceScan(l, start, bin, pos, q, gone, b, o);
  }

  lemma ReplaceScan(l: Ledger, start: seq<seq<Ref>>, bin: seq<seq<Ref>>, pos: seq<nat>, q: seq<nat>, gone: seq<Ref>,
                    b: nat, o: Ref)
    requires |start| == |bin| == |pos| == |q| == |l.bins| && l.bins == Sets(start)
    requires AllScanned(l, start, bin, pos, q, gone)
    requires b < |bin| && pos[b] < |bin[b]| && bin[b][pos[b]] in l.Fresh(b)
    requires o !in gone && o in l.txs && Wait(l.txs[o], l.txs[o].mined) == b && o !in l.bins[b]
    ensures AllScanned(l, start, bin[b := bin[b][pos[b] := o]], pos[b := pos[b] + 1], q[b := q[b] + 1], gone + [o])
  {
    assert Sets(start)[b] == Elems(start[b]);
    assert Scanned(bin[b], start[b], pos[b], q[b], l.Fresh(b), l.Left(gone, b));
    ScanReplace(bin[b], start[b], pos[b], q[b], l.Fresh(b), l.Left(gone, b), o);
    forall c | 0 <= c < |bin|
      ensures l.Left(gone + [o], c) == if c == b then l.Left(gone, c) + {o} else l.Left(gone, c)
    {
      LeftSnoc(l, gone, o, c);
    }
    ScanOne(l, start, bin, pos, q, gone, b, bin[b][pos[b] := o], pos[b] + 1, q[b] + 1, gone + [o]);
  }

  lemma RemoveStep(l: Ledger, start: seq<seq<Ref>>, bin: seq<seq<Ref>>, pos: seq<nat>, q: seq<nat>, gone: seq<Ref>,
                   txs: map<Ref, Tx>, b: nat)
    requires Shaped(l) && l.bins == Sets(start) && Unwinding(l, start, bin, pos, q, gone, txs)
    requires b < DEPTH && pos[b] < |bin[b]| && bin[b][pos[b]] in l.Fresh(b)
    ensures bin[b][pos[b]] in txs
    ensures Unwinding(l, start, bin[b := bin[b][..pos[b]] + bin[b][pos[b] + 1..]], pos, q[b := q[b] + 1], gone,
                      txs[bin[b][pos[b]] := txs[bin[b][pos[b]]].(mined := UNMINED)])
  {
    ClearStep(l, start, bin, pos, q, gone, txs, b);
    ScanRemove(bin[b], start[b], pos[b], q[b], l.Fresh(b), l.Left(gone, b));
    ScanOne(l, start, bin, pos, q, gone, b, bin[b][..pos[b]] + bin[b][pos[b] + 1..], pos[b], q[b] + 1, gone);
    assert pos[b := pos[b]] == pos;
  }

  // As many fresh members have been met in each bin as transactions were returned to it.
  predicate Matched(l: Ledger, cleared: seq<set<Ref>>, gone: seq<Ref>) {
    forall b :: 0 <= b < |cleared| ==> |cleared[b]| == |l.Left(gone, b)|
  }

  ghost predicate Returning(l: Ledger, start: seq<seq<Ref>>, bin: seq<seq<Ref>>, pos: seq<nat>, gone: seq<Ref>,
                            txs: map<Ref, Tx>) {
    && Unwinding(l, start, bin, pos, pos, gone, txs)
    && (forall b :: 0 <= b < DEPTH ==> |bin[b]| == |start[b]|)
    && Matched(l, Cleared(l, start, pos), gone)
  }

  lemma BeginUnwind(l: Ledger, start: seq<seq<Ref>>, pos: seq<nat>)
    requires Shaped(l) && |start| == |pos| == DEPTH && l.bins == Sets(start)
    requires forall b :: 0 <= b < DEPTH ==> NoDup(start[b]) && pos[b] == 0
    ensures Returning(l, start, start, pos, [], l.txs)
  {
    forall b | 0 <= b < DEPTH
      ensures Scanned(start[b], start[b], 0, 0, l.Fresh(b), l.Left([], b))
              && Cleared(l, start, pos)[b] == l.Left([], b) == {}
    {
      assert l.Left([], b) == {};
      assert Elems(start[b][..0]) == {};
    }
    assert Mark(l.txs, Cleared(l, start, pos), UNMINED) == l.txs;
  }

  // The dropped record about to be returned is untouched, and belongs to a bin it is not in.
  lemma DroppedRecord(l: Ledger, start: seq<seq<Ref>>, bin: seq<seq<Ref>>, pos: seq<nat>, gone: seq<Ref>,
                      txs: map<Ref, Tx>, o: Ref)
    requires Shaped(l) && l.dropped != [] && o in l.Top().transactions && l.bins == Sets(start)
    requires Returning(l, start, bin, pos, gone, txs)
    ensures o in l.txs && o in txs && txs[o] == l.txs[o]
    ensures Wait(l.txs[o], l.txs[o].mined) < DEPTH && o !in l.bins[Wait(l.txs[o], l.txs[o].mined)]
  {
    assert Bound(l, o);
    var cleared := Cleared(l, start, pos);
    forall b | 0 <= b < DEPTH ensures o !in cleared[b] {
      NotInBins(l, b, o);
    }
  }

  lemma NotInBins(l: Ledger, b: nat, o: Ref)
    requires Shaped(l) && b < DEPTH && Bound(l, o)
    ensures o !in l.bins[b]
  {
  }

  /** Scans bin b from where it was left for a member of the block, for dropped transaction o. */
  method FindSlot(ghost l: Ledger, ghost start: seq<seq<Ref>>, bin: seq<seq<Ref>>, pos: seq<nat>, ghost gone: seq<Ref>,
                  txs: map<Ref, Tx>, b: nat, height: Uint64)
    returns (pos': seq<nat>)
    requires Shaped(l) && l.bins == Sets(start) && Returning(l, start, bin, pos, gone, txs) && b < DEPTH
             && height == l.height
    ensures Returning(l, start, bin, pos', gone, txs)
    ensures pos'[b] < |bin[b]| ==> bin[b][pos'[b]] in l.Fresh(b)
  {
    pos' := pos;
    while pos'[b] < |bin[b]|
      invariant Returning(l, start, bin, pos', gone, txs)
      decreases |bin[b]| - pos'[b]
    {
      LookAt(l, start, bin, pos', pos', gone, txs, b);
      if txs[bin[b][pos'[b]]].mined == height {
        return;
      }
      SkipStep(l, start, bin, pos', pos', gone, txs, b);
      pos' := pos'[b := pos'[b] + 1];
    }
  }

  lemma ReturnStep(l: Ledger, start: seq<seq<Ref>>, bin: seq<seq<Ref>>, pos: seq<nat>, gone: seq<Ref>,
                   txs: map<Ref, Tx>, b: nat, o: Ref)
    requires Shaped(l) && l.bins == Sets(start) && Returning(l, start, bin, pos, gone, txs)
    requires b < DEPTH && pos[b] < |bin[b]| && bin[b][pos[b]] in l.Fresh(b)
    requires o !in gone && o in l.txs && Wait(l.txs[o], l.txs[o].mined) == b && o !in l.bins[b]
    ensures bin[b][pos[b]] in txs
    ensures Returning(l, start, bin[b := bin[b][pos[b] := o]], pos[b := pos[b] + 1], gone + [o],
                      txs[bin[b][pos[b]] := txs[bin[b][pos[b]]].(mined := UNMINED)])
  {
    ReplaceStep(l, start, bin, pos, pos, gone, txs, b, o);
    ClearStep(l, start, bin, pos, pos, gone, txs, b);
    MatchStep(l, Cleared(l, start, pos), gone, b, o, bin[b][pos[b]]);
  }

  lemma LeftSnoc(l: Ledger, gone: seq<Ref>, o: Ref, c: nat)
    requires o in l.txs
    ensures l.Left(gone + [o], c)
            == if Wait(l.txs[o], l.txs[o].mined) == c then l.Left(gone, c) + {o} else l.Left(gone, c)
  {
    assert forall r :: r in gone + [o] <==> r in gone || r == o;
  }

  lemma MatchStep(l: Ledger, cleared: seq<set<Ref>>, gone: seq<Ref>, b: nat, o: Ref, x: Ref)
    requires Matched(l, cleared, gone) && b < |cleared| && x !in cleared[b]
    requires o !in gone && o in l.txs && Wait(l.txs[o], l.txs[o].mined) == b
    ensures Matched(l, cleared[b := cleared[b] + {x}], gone + [o])
  {
    var cleared' := cleared[b := cleared[b] + {x}];
    forall c | 0 <= c < |cleared| ensures |cleared'[c]| == |l.Left(gone + [o], c)| {
      LeftSnoc(l, gone, o, c);
      assert o !in l.Left(gone, b);
    }
  }

  // With a whole bin scanned, every fresh member has been used up.
  lemma NoSlot(l: Ledger, start: seq<seq<Ref>>, bin: seq<seq<Ref>>, pos: seq<nat>, i: nat,
               txs: map<Ref, Tx>, b: nat)
    requires Shaped(l) && l.dropped != [] && l.bins == Sets(start) && i < |l.Top().transactions|
    requires Returning(l, start, bin, pos, l.Top().transactions[..i], txs)
    requires b < DEPTH && pos[b] == |bin[b]|
    requires var o := l.Top().transactions[i]; o in l.txs && Wait(l.txs[o], l.txs[o].mined) == b
    ensures !l.Fits()
  {
    var all := l.Top().transactions;
    var o := all[i];
    assert all == l.dropped[|l.dropped| - 1].transactions;
    assert start[b][..pos[b]] == start[b];
    assert Cleared(l, start, pos)[b] == l.Fresh(b) by {
      assert Sets(start)[b] == Elems(start[b]);
    }
    assert o !in l.Left(all[..i], b);
    assert l.Left(all[..i], b) + {o} <= l.Left(all, b);
    SubsetSize(l.Left(all[..i], b) + {o}, l.Left(all, b));
  }

  /** First loop of rollback: each dropped transaction takes the place of a member that the block brought. */
  method ReturnDropped(ghost l: Ledger, gone: seq<Ref>, height: Uint64, start: seq<seq<Ref>>, txs0: map<Ref, Tx>)
    returns (panicked: bool, bin: seq<seq<Ref>>, txs: map<Ref, Tx>, pos: seq<nat>)
    requires Shaped(l) && l.dropped != [] && gone == l.Top().transactions && height == l.height
    requires |start| == DEPTH && l.bins == Sets(start) && l.txs == txs0
    requires forall b :: 0 <= b < DEPTH ==> NoDup(start[b])
    ensures panicked ==> !l.Fits()
    ensures !panicked ==> Returning(l, start, bin, pos, gone, txs)
  {
    bin, txs, pos, panicked := start, txs0, seq(DEPTH, b => 0), false;
    BeginUnwind(l, start, pos);
    assert gone[..0] == [];
    assert gone == l.dropped[|l.dropped| - 1].transactions;
    for i := 0 to |gone|
      invariant Returning(l, start, bin, pos, gone[..i], txs)
    {
      panicked, bin, txs, pos := ReturnOne(l, gone, i, height, start, bin, txs, pos);
      if panicked {
        return;
      }
    }
    assert gone[..|gone|] == gone;
  }

  method ReturnOne(ghost l: Ledger, gone: seq<Ref>, i: nat, height: Uint64, ghost start: seq<seq<Ref>>,
                   bin: seq<seq<Ref>>, txs: map<Ref, Tx>, pos: seq<nat>)
    returns (panicked: bool, bin': seq<seq<Ref>>, txs': map<Ref, Tx>, pos': seq<nat>)
    requires Shaped(l) && l.dropped != [] && gone == l.Top().transactions && height == l.height && i < |gone|
    requires l.bins == Sets(start) && Returning(l, start, bin, pos, gone[..i], txs)
    ensures panicked ==> !l.Fits()
    ensures !panicked ==> Returning(l, start, bin', pos', gone[..i + 1], txs')
  {
    var o := gone[i];
    ghost var before := gone[..i];
    assert gone[..i + 1] == before + [o];
    TopRecordAt(l, i);
    DroppedRecord(l, start, bin, pos, before, txs, o);
    var b := Wait(txs[o], txs[o].mined);
    var at := FindSlot(l, start, bin, pos, before, txs, b, height);
    if at[b] >= |bin[b]| {
      NoSlot(l, start, bin, at, i, txs, b);
      return true, bin, txs, at;
    }
    ReturnStep(l, start, bin, at, before, txs, b, o);
    var prev := bin[b][at[b]];
    return false, bin[b := bin[b][at[b] := o]], txs[prev := txs[prev].(mined := UNMINED)], at[b := at[b] + 1];
  }

  lemma TopRecordAt(l: Ledger, i: nat)
    requires Shaped(l) && l.dropped != [] && i < |l.Top().transactions|
    ensures l.Top().transactions[i] !in l.Top().transactions[..i]
  {
    assert NoDup(l.dropped[|l.dropped| - 1].transactions);
  }

  /** Second loop of rollback: the block's other members leave bin b. */
  method SweepBin(ghost l: Ledger, ghost start: seq<seq<Ref>>, bin: seq<seq<Ref>>, pos: seq<nat>, ghost q: seq<nat>,
                  ghost gone: seq<Ref>, txs: map<Ref, Tx>, b: nat, height: Uint64)
    returns (bin': seq<seq<Ref>>, pos': seq<nat>, ghost q': seq<nat>, txs': map<Ref, Tx>)
    requires Shaped(l) && l.bins == Sets(start) && Unwinding(l, start, bin, pos, q, gone, txs) && b < DEPTH
             && height == l.height
    ensures Unwinding(l, start, bin', pos', q', gone, txs')
    ensures q'[b] == |start[b]| && pos'[b] == |bin'[b]|
    ensures forall c :: 0 <= c < DEPTH && c != b ==> bin'[c] == bin[c] && pos'[c] == pos[c] && q'[c] == q[c]
  {
    bin', pos', q', txs' := bin, pos, q, txs;
    while pos'[b] < |bin'[b]|
      invariant Unwinding(l, start, bin', pos', q', gone, txs')
      invariant forall c :: 0 <= c < DEPTH && c != b ==> bin'[c] == bin[c] && pos'[c] == pos[c] && q'[c] == q[c]
      decreases |bin'[b]| - pos'[b]
    {
      LookAt(l, start, bin', pos', q', gone, txs', b);
      var prev := bin'[b][pos'[b]];
      if txs'[prev].mined == height {
        RemoveStep(l, start, bin', pos', q', gone, txs', b);
        txs' := txs'[prev := txs'[prev].(mined := UNMINED)];
        bin' := bin'[b := bin'[b][..pos'[b]] + bin'[b][pos'[b] + 1..]];
        q' := q'[b := q'[b] + 1];
      } else {
        SkipStep(l, start, bin', pos', q', gone, txs', b);
        pos' := pos'[b := pos'[b] + 1];
        q' := q'[b := q'[b] + 1];
      }
    }
    assert Scanned(bin'[b], start[b], pos'[b], q'[b], l.Fresh(b), l.Left(gone, b));
    assert bin'[b][pos'[b]..] == [];
  }

  lemma Unwound(l: Ledger, start: seq<seq<Ref>>, bin: seq<seq<Ref>>, pos: seq<nat>, q: seq<nat>, txs: map<Ref, Tx>)
    requires Shaped(l) && l.dropped != [] && l.bins == Sets(start)
    requires Unwinding(l, start, bin, pos, q, l.Top().transactions, txs)
    requires forall b :: 0 <= b < DEPTH ==> q[b] == |start[b]| && pos[b] == |bin[b]|
    ensures (forall b :: 0 <= b < DEPTH ==> NoDup(bin[b])) && Sets(bin) == l.Undo().bins && txs == l.Undo().txs
  {
    var u := l.Undo();
    var cleared := Cleared(l, start, q);
    forall b | 0 <= b < DEPTH ensures NoDup(bin[b]) && Sets(bin)[b] == u.bins[b] && cleared[b] == l.Fresh(b) {
      assert Scanned(bin[b], start[b], pos[b], q[b], l.Fresh(b), l.Left(l.Top().transactions, b));
      assert bin[b][..pos[b]] == bin[b] && start[b][..q[b]] == start[b];
      assert Sets(start)[b] == Elems(start[b]);
    }
    forall r ensures Among(cleared, r) <==> l.IsFresh(r) {
    }
    assert txs == u.txs;
    assert Sets(bin) == u.bins;
  }

  // When nothing was left without a slot, every bin had room.
  lemma RoomForAll(l: Ledger, start: seq<seq<Ref>>, bin: seq<seq<Ref>>, pos: seq<nat>, txs: map<Ref, Tx>)
    requires Shaped(l) && l.dropped != [] && l.bins == Sets(start)
    requires Returning(l, start, bin, pos, l.Top().transactions, txs)
    ensures l.Fits()
  {
    forall b | 0 <= b < |l.bins| ensures |l.Left(l.Top().transactions, b)| <= |l.Fresh(b)| {
      SubsetSize(Cleared(l, start, pos)[b], l.Fresh(b));
    }
  }

  /** Both loops of rollback: a panic exactly when the ledger has no room, and the undone ledger otherwise. */
  method Unwind(ghost l: Ledger, gone: seq<Ref>, height: Uint64, start: seq<seq<Ref>>, txs0: map<Ref, Tx>)
    returns (panicked: bool, bin: seq<seq<Ref>>, txs: map<Ref, Tx>)
    requires Shaped(l) && l.dropped != [] && gone == l.Top().transactions && height == l.height
    requires |start| == DEPTH && l.bins == Sets(start) && l.txs == txs0
    requires forall b :: 0 <= b < DEPTH ==> NoDup(start[b])
    ensures panicked <==> !l.Fits()
    ensures !panicked ==> |bin| == DEPTH && (forall b :: 0 <= b < DEPTH ==> NoDup(bin[b]))
    ensures !panicked ==> Sets(bin) == l.Undo().bins && txs == l.Undo().txs
  {
    var pos;
    panicked, bin, txs, pos := ReturnDropped(l, gone, height, start, txs0);
    if panicked {
      return;
    }
    RoomForAll(l, start, bin, pos, txs);
    ghost var q := pos;
    for b := 0 to DEPTH
      invariant Unwinding(l, start, bin, pos, q, gone, txs)
      invariant forall c :: 0 <= c < b ==> q[c] == |start[c]| && pos[c] == |bin[c]|
    {
      bin, pos, q, txs := SweepBin(l, start, bin, pos, q, gone, txs, b, height);
    }
    Unwound(l, start, bin, pos, q, txs);
  }
}
