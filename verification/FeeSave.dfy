// The loops of Save and RestoreFeeEstimator in mempool/estimatefee.go, proved against the format of FeeCodec,
// and what saving and restoring means for a reachable estimator.
module FeeSave {
  import opened FeeLedger
  import opened Sorting
  import opened FeeCodec
  import opened FeeRates
  import FeeRestart
  import FeeRuns

  // Where a loop over a sequence stands at index i.
  lemma Split<T>(s: seq<T>, i: nat)
    requires i < |s|
    ensures s[..i + 1] == s[..i] + [s[i]] && s[i..][0] == s[i] && s[i..][1..] == s[i + 1..]
  {
  }

  // Appending one more item to what has been written.

  lemma WriteTxsFirst(t: Tx, ts: seq<Tx>)
    ensures WriteTxs([t] + ts) == WriteTx(t) + WriteTxs(ts)
  {
    assert ([t] + ts)[1..] == ts;
  }

  lemma {:induction false} WriteTxsSnoc(ts: seq<Tx>, t: Tx)
    ensures WriteTxs(ts + [t]) == WriteTxs(ts) + WriteTx(t)
  {
    if ts == [] {
      assert [t][1..] == [];
    } else {
      var first, rest := ts[0], ts[1..];
      calc {
        WriteTxs(ts + [t]);
        { assert ts + [t] == [first] + (rest + [t]); }
        WriteTxs([first] + (rest + [t]));
        { WriteTxsFirst(first, rest + [t]); }
        WriteTx(first) + WriteTxs(rest + [t]);
        { WriteTxsSnoc(rest, t); }
        WriteTx(first) + (WriteTxs(rest) + WriteTx(t));
        { assert WriteTxs(ts) == WriteTx(first) + WriteTxs(rest); }
        WriteTxs(ts) + WriteTx(t);
      }
    }
  }

  lemma {:induction false} WriteWordsSnoc(ns: seq<nat>, n: nat)
    ensures WriteWords(ns + [n]) == WriteWords(ns) + BigEndian(n, 4)
  {
    if ns == [] {
      assert [n][1..] == [];
    } else {
      WriteWordsSnoc(ns[1..], n);
      assert (ns + [n])[1..] == ns[1..] + [n];
    }
  }

  lemma {:induction false} WriteListsSnoc(lists: seq<seq<nat>>, list: seq<nat>)
    ensures WriteLists(lists + [list]) == WriteLists(lists) + WriteList(list)
  {
    if lists == [] {
      assert [list][1..] == [];
    } else {
      WriteListsSnoc(lists[1..], list);
      assert (lists + [list])[1..] == lists[1..] + [list];
    }
  }

  lemma {:induction false} WriteEntriesSnoc(es: seq<Entry>, e: Entry)
    ensures WriteEntries(es + [e]) == WriteEntries(es) + (HashBytes(e.hash) + WriteList(e.indices))
  {
    if es == [] {
      assert [e][1..] == [];
    } else {
      WriteEntriesSnoc(es[1..], e);
      assert (es + [e])[1..] == es[1..] + [e];
    }
  }

  // ---------------------------------------------------------------------------------------------
  // Save
  // ---------------------------------------------------------------------------------------------

  function ByHash(h: Hash): (key: int) { h }

  method SortedHashes(observed: map<Hash, Ref>) returns (order: seq<Hash>)
    ensures InOrder(order, observed)
  {
    var keys := observed.Keys;
    var ots: seq<Hash> := [];
    while keys != {}
      invariant NoDup(ots) && keys <= observed.Keys
      invariant forall h :: h in ots <==> h in observed.Keys - keys
      decreases keys
    {
      var h :| h in keys;
      assert h !in ots;
      ots := ots + [h];
      keys := keys - {h};
    }
    order := Sort(ots, ByHash);
    SameElements(order, ots);
    PermutationNoDup(ots, order);
  }

  lemma {:induction false} PermutationNoDup(a: seq<Hash>, b: seq<Hash>)
    requires multiset(a) == multiset(b) && NoDup(a)
    ensures NoDup(b)
  {
    forall i, j | 0 <= i < j < |b| ensures b[i] != b[j] {
      NoDupCount(a, b[i]);
      if b[i] == b[j] {
        TwiceCounts(b, i, j);
      }
    }
  }

  lemma TwiceCounts(b: seq<Hash>, i: nat, j: nat)
    requires i < j < |b| && b[i] == b[j]
    ensures multiset(b)[b[i]] >= 2
  {
    assert b == b[..i] + [b[i]] + b[i + 1..j] + [b[j]] + b[j + 1..];
  }

  // The map from records to places, as far as it has been filled.
  predicate Places(s: State, order: seq<Hash>, places: map<Ref, nat>)
    requires Listed(s, order)
  {
    (forall r :: r in places ==> places[r] == IndexOf(s, order, r)) &&
    forall h :: h in order ==> s.observed[h] in places
  }

  lemma {:induction false} UnlistedIsZero(s: State, order: seq<Hash>, r: Ref)
    requires Listed(s, order) && forall h :: h in order ==> s.observed[h] != r
    ensures IndexOf(s, order, r) == 0
  {
    if order != [] {
      UnlistedIsZero(s, order[..|order| - 1], r);
    }
  }

  function Place(places: map<Ref, nat>, r: Ref): (n: nat) { if r in places then places[r] else 0 }

  method WriteRefs(refs: seq<Ref>, places: map<Ref, nat>, ghost s: State, ghost order: seq<Hash>)
    returns (w: seq<Byte>)
    requires Listed(s, order) && Places(s, order, places)
    ensures w == WriteList(Indices(s, order, refs))
  {
    w := [];
    ghost var ix := Indices(s, order, refs);
    for i := 0 to |refs|
      invariant w == WriteWords(ix[..i])
    {
      PlaceIsIndex(s, order, places, refs[i]);
      WriteWordsSnoc(ix[..i], ix[i]);
      Split(ix, i);
      w := w + BigEndian(Place(places, refs[i]), 4);
    }
    assert ix[..|refs|] == ix;
    w := BigEndian(|refs|, 4) + w;
  }

  lemma PlaceIsIndex(s: State, order: seq<Hash>, places: map<Ref, nat>, r: Ref)
    requires Listed(s, order) && Places(s, order, places)
    ensures Place(places, r) == IndexOf(s, order, r)
  {
    if r !in places {
      UnlistedIsZero(s, order, r);
    }
  }

  method WriteRecords(s: State, order: seq<Hash>) returns (w: seq<Byte>, places: map<Ref, nat>)
    requires Listed(s, order)
    ensures w == WriteTxs(Records(s, order)) && Places(s, order, places)
  {
    w, places := [], map[];
    ghost var ts := Records(s, order);
    for i := 0 to |order|
      invariant w == WriteTxs(ts[..i])
      invariant Places(s, order[..i], places)
    {
      WriteTxsSnoc(ts[..i], ts[i]);
      Split(ts, i);
      assert order[..i + 1][..i] == order[..i];
      var ot := s.observed[order[i]];
      w := w + WriteTx(s.txs[ot]);
      places := places[ot := i];
    }
    assert ts[..|order|] == ts && order[..|order|] == order;
  }

  method WriteBins(s: State, places: map<Ref, nat>, ghost order: seq<Hash>) returns (w: seq<Byte>)
    requires Listed(s, order) && Places(s, order, places)
    ensures w == WriteLists(BinIndices(s, order))
  {
    w := [];
    ghost var lists := BinIndices(s, order);
    for b := 0 to |s.bin|
      invariant w == WriteLists(lists[..b])
    {
      WriteListsSnoc(lists[..b], lists[b]);
      Split(lists, b);
      var list := WriteRefs(s.bin[b], places, s, order);
      w := w + list;
    }
    assert lists[..|s.bin|] == lists;
  }

  method WriteDropped(s: State, places: map<Ref, nat>, ghost order: seq<Hash>) returns (w: seq<Byte>)
    requires Listed(s, order) && Places(s, order, places)
    ensures w == WriteEntries(Entries(s, order))
  {
    w := [];
    ghost var es := Entries(s, order);
    for k := 0 to |s.dropped|
      invariant w == WriteEntries(es[..k])
    {
      WriteEntriesSnoc(es[..k], es[k]);
      Split(es, k);
      var list := WriteRefs(s.dropped[k].transactions, places, s, order);
      w := w + (HashBytes(s.dropped[k].hash) + list);
    }
    assert es[..|s.dropped|] == es;
  }

  /** Save: the bytes of the format, with the records in hash order. */
  method Save(s: State) returns (w: seq<Byte>, ghost order: seq<Hash>)
    requires Storable(s)
    ensures InOrder(order, s.observed) && Listed(s, order) && w == Encode(s, order)
    ensures forall o :: InOrder(o, s.observed) ==> Listed(s, o) && w == Encode(s, o)
  {
    var hashes := SortedHashes(s.observed);
    order := hashes;
    var records, places := WriteRecords(s, hashes);
    var bins := WriteBins(s, places, order);
    var dropped := WriteDropped(s, places, order);
    w := BigEndian(VERSION, 4) + (WriteParams(s.params) + (BigEndian(|hashes|, 4) + (records
         + (bins + (BigEndian(|s.dropped|, 4) + dropped)))));
    forall o | InOrder(o, s.observed) ensures Listed(s, o) && w == Encode(s, o) {
      SaveIsDeterministic(s, order, o);
    }
  }

  // ---------------------------------------------------------------------------------------------
  // Restore
  // ---------------------------------------------------------------------------------------------

  method RestoreTxs(data: seq<Byte>, n: nat) returns (ts: seq<Tx>, observed: map<Hash, Ref>, rest: seq<Byte>)
    ensures Read(ts, rest) == ReadTxs(data, n) && observed == IndexByHash(ts)
  {
    ts, observed, rest := [], map[], data;
    assert ts + ReadTxs(data, n).value == ReadTxs(data, n).value;
    for i := 0 to n
      invariant |ts| == i && observed == IndexByHash(ts)
      invariant ReadTxs(data, n) == Read(ts + ReadTxs(rest, n - i).value, ReadTxs(rest, n - i).rest)
    {
      var t := ReadTx(rest);
      assert ts + ReadTxs(rest, n - i).value == (ts + [t.value]) + ReadTxs(t.rest, n - i - 1).value;
      assert (ts + [t.value])[..i] == ts;
      observed := observed[t.value.hash := Ref(i)];
      ts, rest := ts + [t.value], t.rest;
    }
    assert ts + ReadTxs(rest, 0).value == ts;
  }

  predicate Missing(list: seq<nat>, count: nat) { exists j :: 0 <= j < |list| && list[j] >= count }

  method RestoreRefs(data: seq<Byte>, count: nat) returns (refs: seq<Ref>, missing: bool, rest: seq<Byte>)
    ensures refs == Pointers(ReadList(data).value, count) && rest == ReadList(data).rest
    ensures missing <==> Missing(ReadList(data).value, count)
  {
    var n := ReadWord(data, 4);
    refs, missing, rest := [], false, n.rest;
    ghost var ix := ReadWords(n.rest, n.value).value;
    for i := 0 to n.value
      invariant |refs| == i && refs == Pointers(ix[..i], count)
      invariant missing <==> exists j :: 0 <= j < i && ix[j] >= count
      invariant ReadWords(rest, n.value - i).value == ix[i..]
      invariant ReadWords(rest, n.value - i).rest == ReadList(data).rest
    {
      var index := ReadWord(rest, 4);
      Split(ix, i);
      refs := refs + [Pointer(index.value, count)];
      missing := missing || index.value >= count;
      rest := index.rest;
    }
    assert ix[..n.value] == ix;
  }

  // Some list refers to a record that is not there.
  predicate Dangling(lists: seq<seq<nat>>, count: nat) {
    exists b :: 0 <= b < |lists| && Missing(lists[b], count)
  }

  function AllPointers(lists: seq<seq<nat>>, count: nat): (bins: seq<seq<Ref>>) {
    seq(|lists|, b requires 0 <= b < |lists| => Pointers(lists[b], count))
  }

  method RestoreBins(data: seq<Byte>, count: nat) returns (bins: seq<seq<Ref>>, missing: bool, rest: seq<Byte>)
    ensures rest == ReadLists(data, DEPTH).rest && bins == AllPointers(ReadLists(data, DEPTH).value, count)
    ensures missing <==> Dangling(ReadLists(data, DEPTH).value, count)
  {
    bins, missing, rest := [], false, data;
    ghost var lists := ReadLists(data, DEPTH).value;
    for b := 0 to DEPTH
      invariant |bins| == b && bins == AllPointers(lists[..b], count)
      invariant missing <==> Dangling(lists[..b], count)
      invariant ReadLists(rest, DEPTH - b).value == lists[b..]
      invariant ReadLists(rest, DEPTH - b).rest == ReadLists(data, DEPTH).rest
    {
      Split(lists, b);
      BinsSnoc(lists[..b], lists[b], count);
      var refs, bad;
      refs, bad, rest := RestoreRefs(rest, count);
      bins, missing := bins + [refs], missing || bad;
    }
    assert lists[..DEPTH] == lists;
  }

  lemma BinsSnoc(lists: seq<seq<nat>>, list: seq<nat>, count: nat)
    ensures Dangling(lists + [list], count) <==> Dangling(lists, count) || Missing(list, count)
    ensures AllPointers(lists + [list], count) == AllPointers(lists, count) + [Pointers(list, count)]
  {
    var all := lists + [list];
    if Dangling(lists, count) {
      var b :| 0 <= b < |lists| && Missing(lists[b], count);
      assert Missing(all[b], count);
    }
    assert all[|lists|] == list;
  }

  function Rebuild(es: seq<Entry>, count: nat): (ds: seq<Registered>) {
    seq(|es|, k requires 0 <= k < |es| => Registered(es[k].hash, Pointers(es[k].indices, count)))
  }

  method RestoreDropped(data: seq<Byte>, n: nat, count: nat) returns (dropped: seq<Registered>)
    ensures dropped == Rebuild(ReadEntries(data, n).value, count)
  {
    dropped := [];
    var rest := data;
    ghost var es := ReadEntries(data, n).value;
    for k := 0 to n
      invariant |dropped| == k && dropped == Rebuild(es[..k], count)
      invariant ReadEntries(rest, n - k).value == es[k..]
    {
      var h := ReadHash(rest);
      Split(es, k);
      var refs, bad;
      refs, bad, rest := RestoreRefs(h.rest, count);
      dropped := dropped + [Registered(h.value, refs)];
    }
    assert es[..n] == es;
  }

  /** RestoreFeeEstimator, on any data. */
  method Restore(data: seq<Byte>) returns (r: Result<State>)
    ensures r == Decode(data)
  {
    if |data| < 4 {
      return NoVersion;
    }
    var version := ReadWord(data, 4);
    if version.value != VERSION {
      return WrongVersion(version.value);
    }
    var p := ReadParams(version.rest);
    var n := ReadWord(p.rest, 4);
    var ts, observed, afterTxs := RestoreTxs(n.rest, n.value);
    var bins, missing, afterBins := RestoreBins(afterTxs, |ts|);
    if missing {
      return BadReference;
    }
    var m := ReadWord(afterBins, 4);
    var dropped := RestoreDropped(m.rest, m.value, |ts|);
    return Ok(State(p.value, Store(ts), observed, bins, dropped));
  }

  // ---------------------------------------------------------------------------------------------
  // Reachable estimators
  // ---------------------------------------------------------------------------------------------

  // The concrete bins and fields behind a view.
  predicate Shows(s: State, v: View) {
    && s.txs == v.ledger.txs && s.observed == v.observed && s.dropped == v.ledger.dropped
    && Sets(s.bin) == v.ledger.bins
    && s.params == Params(v.cfg.maxRollback, v.cfg.binSize, v.cfg.maxReplacements, v.cfg.minBlocks,
                          v.ledger.height, v.ledger.blocks)
  }

  lemma InvariantMeansReachable(s: State, v: View)
    requires v.Inv() && Shows(s, v)
    ensures AllReachable(s)
  {
    var l := v.ledger;
    forall b, r | 0 <= b < |s.bin| && r in s.bin[b] ensures Reachable(s, r) {
      assert r in Sets(s.bin)[b];
      assert l.Settled(v.observed, r);
    }
    forall k, r | 0 <= k < |s.dropped| && r in s.dropped[k].transactions ensures Reachable(s, r) {
      assert l.DroppedOk(v.observed, k, r);
    }
  }

  // The view of a state with the configuration and counters of v.
  function ViewOf(t: State, v: View): (w: View) {
    View(v.cfg, Ledger(t.txs, Sets(t.bin), t.dropped, v.ledger.height, v.ledger.blocks), t.observed)
  }

  lemma ElemsImage(f: map<Ref, Ref>, s: seq<Ref>)
    requires Elems(s) <= f.Keys
    ensures Elems(Image(f, s)) == FeeRestart.ImageSet(f, Elems(s))
  {
    var t := Image(f, s);
    forall r | r in Elems(s) ensures f[r] in Elems(t) {
      var i :| 0 <= i < |s| && s[i] == r;
      assert t[i] == f[r];
    }
    forall q | q in Elems(t) ensures q in FeeRestart.ImageSet(f, Elems(s)) {
      var i :| 0 <= i < |t| && t[i] == q;
      assert s[i] in Elems(s);
    }
  }

  lemma RenamesIsRelabels(s: State, t: State, v: View, f: map<Ref, Ref>)
    requires Shows(s, v) && Renames(s, t, f)
    ensures Shows(t, ViewOf(t, v)) && FeeRestart.Relabels(v, ViewOf(t, v), f)
  {
    var a, b := v.ledger, ViewOf(t, v).ledger;
    forall i | 0 <= i < |a.bins| ensures a.bins[i] <= f.Keys && b.bins[i] == FeeRestart.ImageSet(f, a.bins[i]) {
      assert Sets(s.bin)[i] == Elems(s.bin[i]) && Sets(t.bin)[i] == Elems(t.bin[i]);
      ElemsImage(f, s.bin[i]);
    }
    forall k | 0 <= k < |a.dropped| ensures FeeRestart.MovesEntry(a.dropped[k], b.dropped[k], f) {
      var e := s.dropped[k].transactions;
      forall i | 0 <= i < |e| ensures e[i] in f && Image(f, e)[i] == f[e[i]] {
        assert e[i] in Elems(e);
      }
    }
  }

  /** An estimator in a reachable state survives saving and restoring: the restored one is isomorphic, gives the same
      estimates, and is again in a state that the invariant describes, one step of a run further. */
  lemma ReachableSurvives(s: State, v: View, order: seq<Hash>)
    requires v.Inv() && Shows(s, v) && Storable(s) && InOrder(order, s.observed)
    ensures Listed(s, order) && Decode(Encode(s, order)).Ok? && Isomorphic(s, Decode(Encode(s, order)).value)
    ensures var t := Decode(Encode(s, order)).value;
            && NewFeeSet(t.txs, t.bin) == NewFeeSet(s.txs, s.bin)
            && Shows(t, ViewOf(t, v)) && ViewOf(t, v).Inv() && FeeRuns.Next(v, ViewOf(t, v))
  {
    InvariantMeansReachable(s, v);
    SaveRestore(s, order);
    var t := Decode(Encode(s, order)).value;
    var f :| Renames(s, t, f);
    SameFees(s, t, f);
    RestartStep(s, t, v, f);
  }

  lemma RestartStep(s: State, t: State, v: View, f: map<Ref, Ref>)
    requires v.Inv() && Shows(s, v) && Renames(s, t, f)
    ensures Shows(t, ViewOf(t, v)) && ViewOf(t, v).Inv() && FeeRuns.Next(v, ViewOf(t, v))
  {
    RenamesIsRelabels(s, t, v, f);
    FeeRestart.RelabelledInv(v, ViewOf(t, v), f);
    assert FeeRuns.Restarts(v, ViewOf(t, v));
  }

  // Renaming records changes no estimate.
  lemma SameFees(s: State, t: State, f: map<Ref, Ref>)
    requires Renames(s, t, f)
    ensures NewFeeSet(t.txs, t.bin) == NewFeeSet(s.txs, s.bin)
  {
    FlattenImage(f, s.bin, t.bin);
    var flat := Flatten(s.bin);
    forall i | 0 <= i < |flat| ensures Rate(t.txs, Flatten(t.bin)[i]) == Rate(s.txs, flat[i]) {
      var b := FlattenFrom(s.bin, flat[i]);
      assert flat[i] in Elems(s.bin[b]);
    }
    assert RatesOf(t.txs, Flatten(t.bin)) == RatesOf(s.txs, flat);
  }

  lemma {:induction false} FlattenImage(f: map<Ref, Ref>, bins: seq<seq<Ref>>, bins': seq<seq<Ref>>)
    requires |bins'| == |bins| && forall b :: 0 <= b < |bins| ==> bins'[b] == Image(f, bins[b])
    ensures Flatten(bins') == Image(f, Flatten(bins))
  {
    if bins != [] {
      FlattenImage(f, bins[..|bins| - 1], bins'[..|bins| - 1]);
    }
  }
}
