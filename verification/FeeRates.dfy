// Fee estimates: newEstimateFeeSet, estimateFee and estimates of mempool/estimatefee.go.
module FeeRates {
  import opened FeeLedger
  import opened MachineWords
  import opened Sorting

  // The rates of all binned transactions, highest first, and the size of each bin.
  datatype FeeSet = FeeSet(feeRate: seq<Uint64>, bin: seq<nat>)

  function Flatten<T>(bins: seq<seq<T>>): (s: seq<T>) {
    if bins == [] then [] else Flatten(bins[..|bins| - 1]) + bins[|bins| - 1]
  }

  function Rate(txs: map<Ref, Tx>, r: Ref): (n: Uint64) { if r in txs then txs[r].feeRate else 0 }

  function Sets(bins: seq<seq<Ref>>): (s: seq<set<Ref>>) {
    seq(|bins|, b requires 0 <= b < |bins| => Elems(bins[b]))
  }

  function RatesOf(txs: map<Ref, Tx>, refs: seq<Ref>): (rates: seq<Uint64>)
    ensures |rates| == |refs| && forall i :: 0 <= i < |refs| ==> rates[i] == Rate(txs, refs[i])
  {
    MapSeq(refs, r => Rate(txs, r))
  }

  function Descending(n: Uint64): (key: int) { -(n as int) }

  function NewFeeSet(txs: map<Ref, Tx>, bins: seq<seq<Ref>>): (s: FeeSet) {
    FeeSet(Sort(RatesOf(txs, Flatten(bins)), Descending),
           seq(|bins|, b requires 0 <= b < |bins| => |bins[b]|))
  }

  function SumTo(counts: seq<nat>, k: nat): (n: nat)
    requires k <= |counts|
  {
    if k == 0 then 0 else SumTo(counts, k - 1) + counts[k - 1]
  }

  // The middle of the group of the given number of confirmations, in the list of all rates.
  function FeeIndex(counts: seq<nat>, confirmations: nat): (i: nat)
    requires 1 <= confirmations <= |counts|
  {
    var min := SumTo(counts, confirmations - 1);
    var max := min + counts[confirmations - 1] - 1;
    (min + (if max < min then min else max)) / 2
  }

  function Estimate(s: FeeSet, confirmations: nat): (fee: Uint64)
    requires |s.bin| == DEPTH && 1 <= confirmations
  {
    if confirmations > DEPTH || s.feeRate == [] then 0
    else
      var i := FeeIndex(s.bin, confirmations);
      s.feeRate[if i >= |s.feeRate| then |s.feeRate| - 1 else i]
  }

  function Estimates(s: FeeSet): (fees: seq<Uint64>)
    requires |s.bin| == DEPTH
  {
    seq(DEPTH, i requires 0 <= i < DEPTH => Estimate(s, i + 1))
  }

  /** The loop of estimateFee. `infinite` is what the platform makes of an infinite rate as a machine word. */
  method EstimateFee(s: FeeSet, confirmations: int, infinite: Uint64) returns (fee: Uint64)
    requires |s.bin| == DEPTH
    ensures fee == if confirmations <= 0 then infinite else Estimate(s, confirmations)
  {
    if confirmations <= 0 {
      return infinite;
    }
    if confirmations > DEPTH || |s.feeRate| == 0 {
      return 0;
    }
    var min: int, max: int := 0, 0;
    for i := 0 to confirmations - 1
      invariant min == SumTo(s.bin, i)
    {
      min := min + s.bin[i];
    }
    max := min + s.bin[confirmations - 1] - 1;
    if max < min {
      max := min;
    }
    var feeIndex := (min + max) / 2;
    if feeIndex >= |s.feeRate| {
      feeIndex := |s.feeRate| - 1;
    }
    return s.feeRate[feeIndex];
  }

  /** The loop of estimates. */
  method AllEstimates(s: FeeSet) returns (fees: seq<Uint64>)
    requires |s.bin| == DEPTH
    ensures fees == Estimates(s)
  {
    fees := [];
    for i := 0 to DEPTH
      invariant |fees| == i && forall k :: 0 <= k < i ==> fees[k] == Estimate(s, k + 1)
    {
      var fee := EstimateFee(s, i + 1, 0);
      fees := fees + [fee];
    }
  }

  // ---------------------------------------------------------------------------------------------

  lemma NextGroupIsLater(counts: seq<nat>, c: nat)
    requires 1 <= c < |counts|
    ensures FeeIndex(counts, c) <= FeeIndex(counts, c + 1)
  {
    assert SumTo(counts, c) == SumTo(counts, c - 1) + counts[c - 1];
  }

  /** Waiting longer never costs more. */
  lemma {:induction false} EstimatesNeverRise(txs: map<Ref, Tx>, bins: seq<seq<Ref>>, c: nat, d: nat)
    requires |bins| == DEPTH && 1 <= c <= d
    ensures Estimate(NewFeeSet(txs, bins), d) <= Estimate(NewFeeSet(txs, bins), c)
    decreases d
  {
    var s := NewFeeSet(txs, bins);
    if c < d {
      EstimatesNeverRise(txs, bins, c, d - 1);
      if d <= DEPTH {
        NextGroupIsLater(s.bin, d - 1);
      }
    }
  }

  /** With any binned transaction, each estimate up to DEPTH confirmations is the rate of a binned transaction. */
  lemma EstimateIsARate(txs: map<Ref, Tx>, bins: seq<seq<Ref>>, c: nat)
    requires |bins| == DEPTH && 1 <= c <= DEPTH
    requires exists b :: 0 <= b < DEPTH && bins[b] != []
    ensures exists b, r :: 0 <= b < DEPTH && r in bins[b] && Estimate(NewFeeSet(txs, bins), c) == Rate(txs, r)
  {
    var s := NewFeeSet(txs, bins);
    var b0 :| 0 <= b0 < DEPTH && bins[b0] != [];
    FlattenHas(bins, b0, bins[b0][0]);
    var flat := Flatten(bins);
    var rates := RatesOf(txs, flat);
    SameElements(s.feeRate, rates);
    var e := Estimate(s, c);
    assert e in s.feeRate;
    assert e in rates;
    var k :| 0 <= k < |rates| && rates[k] == e;
    var b := FlattenFrom(bins, flat[k]);
    assert flat[k] in bins[b] && e == Rate(txs, flat[k]);
  }

  lemma {:induction false} FlattenHas<T>(bins: seq<seq<T>>, b: nat, x: T)
    requires b < |bins| && x in bins[b]
    ensures x in Flatten(bins)
  {
    if b < |bins| - 1 {
      FlattenHas(bins[..|bins| - 1], b, x);
    }
  }

  lemma {:induction false} FlattenFrom<T>(bins: seq<seq<T>>, x: T) returns (b: nat)
    requires x in Flatten(bins)
    ensures b < |bins| && x in bins[b]
  {
    if x in bins[|bins| - 1] {
      b := |bins| - 1;
    } else {
      b := FlattenFrom(bins[..|bins| - 1], x);
    }
  }

  // ---------------------------------------------------------------------------------------------
  // Estimates depend on the contents of the bins only, not on the order inside a bin
  // ---------------------------------------------------------------------------------------------

  lemma SameMembers<T>(s: seq<T>, t: seq<T>)
    requires NoDup(s) && NoDup(t) && Elems(s) == Elems(t)
    ensures multiset(s) == multiset(t) && |s| == |t|
  {
    forall x ensures multiset(s)[x] == multiset(t)[x] {
      NoDupCount(s, x);
      NoDupCount(t, x);
      assert x in s <==> x in Elems(s);
      assert x in t <==> x in Elems(t);
    }
    SameElements(s, t);
  }

  lemma {:induction false} FlattenPermutes(bins: seq<seq<Ref>>, bins': seq<seq<Ref>>)
    requires |bins| == |bins'| && forall b :: 0 <= b < |bins| ==> multiset(bins[b]) == multiset(bins'[b])
    ensures multiset(Flatten(bins)) == multiset(Flatten(bins'))
  {
    if bins != [] {
      FlattenPermutes(bins[..|bins| - 1], bins'[..|bins| - 1]);
    }
  }

  predicate SameRates(txs: map<Ref, Tx>, txs': map<Ref, Tx>, bins: seq<set<Ref>>) {
    forall b, r :: 0 <= b < |bins| && r in bins[b] ==> Rate(txs, r) == Rate(txs', r)
  }

  /** Bins with the same members and rates, such as the bins before a block and after its rollback, give the
      same estimates. */
  lemma EstimatesFromMembers(txs: map<Ref, Tx>, bins: seq<seq<Ref>>, txs': map<Ref, Tx>, bins': seq<seq<Ref>>)
    requires |bins| == |bins'| && Sets(bins) == Sets(bins') && SameRates(txs, txs', Sets(bins))
    requires forall b :: 0 <= b < |bins| ==> NoDup(bins[b]) && NoDup(bins'[b])
    ensures NewFeeSet(txs, bins) == NewFeeSet(txs', bins')
  {
    forall b | 0 <= b < |bins| ensures multiset(bins[b]) == multiset(bins'[b]) && |bins[b]| == |bins'[b]| {
      assert Elems(bins[b]) == Sets(bins)[b];
      SameMembers(bins[b], bins'[b]);
    }
    FlattenPermutes(bins, bins');
    var flat := Flatten(bins);
    forall i | 0 <= i < |flat| ensures Rate(txs, flat[i]) == Rate(txs', flat[i]) {
      var b := FlattenFrom(bins, flat[i]);
      assert flat[i] in Sets(bins)[b];
    }
    RatesAgree(txs, flat, txs', Flatten(bins'));
  }

  lemma DescendingDistinguishes(s: seq<Uint64>)
    ensures Distinguishes(s, Descending)
  {
  }

  lemma SortOfPermutation(a: seq<Uint64>, b: seq<Uint64>)
    requires multiset(a) == multiset(b)
    ensures Sort(a, Descending) == Sort(b, Descending)
  {
    DescendingDistinguishes(Sort(a, Descending));
    SortedUnique(Sort(a, Descending), Sort(b, Descending), Descending);
  }

  lemma RatesAgree(txs: map<Ref, Tx>, refs: seq<Ref>, txs': map<Ref, Tx>, refs': seq<Ref>)
    requires multiset(refs) == multiset(refs')
    requires forall i :: 0 <= i < |refs| ==> Rate(txs, refs[i]) == Rate(txs', refs[i])
    ensures Sort(RatesOf(txs, refs), Descending) == Sort(RatesOf(txs', refs'), Descending)
  {
    assert RatesOf(txs, refs) == RatesOf(txs', refs);
    MapPermutes(refs, refs', r => Rate(txs', r));
    SortOfPermutation(RatesOf(txs', refs), RatesOf(txs', refs'));
  }
}
