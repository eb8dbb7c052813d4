// What a fee estimate is among the rates of all binned transactions: the one at the middle of its group.
module FeeOrder {
  import opened FeeLedger
  import opened MachineWords
  import opened Sorting
  import opened Filtering
  import opened FeeRates

  function Higher(e: Uint64): (test: Uint64 -> bool) { (x: Uint64) => x > e }

  function AtLeast(e: Uint64): (test: Uint64 -> bool) { (x: Uint64) => x >= e }

  // How many places of the list of all rates are left of the middle of bin c - 1, when the groups follow each other.
  function Middle(bins: seq<seq<Ref>>, c: nat): (m: int)
    requires 1 <= c <= |bins|
  {
    var total, n := |Flatten(bins)|, |bins[c - 1]|;
    var m := |Flatten(bins[..c - 1])| + if n == 0 then 0 else (n - 1) / 2;
    if m < total then m else total - 1
  }

  /** e is the middle rate of the group of c confirmations: at most that many binned rates are higher, and more than
      that many are at least e. */
  predicate MiddleRate(txs: map<Ref, Tx>, bins: seq<seq<Ref>>, c: nat, e: Uint64)
    requires 1 <= c <= |bins|
  {
    var rates := RatesOf(txs, Flatten(bins));
    |Filter(rates, Higher(e))| <= Middle(bins, c) < |Filter(rates, AtLeast(e))|
  }

  lemma FewHigher(a: seq<Uint64>, b: seq<Uint64>, e: Uint64)
    requires forall j :: 0 <= j < |b| ==> b[j] <= e
    ensures |Filter(a + b, Higher(e))| <= |a|
  {
    FilterAppend(a, b, Higher(e));
    FilterSize(a, Higher(e));
    FilterSize(b, Higher(e));
  }

  lemma ManyReach(a: seq<Uint64>, b: seq<Uint64>, e: Uint64)
    requires forall j :: 0 <= j < |a| ==> a[j] >= e
    ensures |Filter(a + b, AtLeast(e))| >= |a|
  {
    FilterAppend(a, b, AtLeast(e));
    FilterSize(a, AtLeast(e));
  }

  predicate Falling(s: seq<Uint64>) { forall j, k :: 0 <= j < k < |s| ==> s[k] <= s[j] }

  lemma SortedFalls(s: seq<Uint64>)
    requires Sorted(s, Descending)
    ensures Falling(s)
  {
    forall j, k | 0 <= j < k < |s| ensures s[k] <= s[j] {
      assert Descending(s[j]) <= Descending(s[k]);
    }
  }

  lemma FewAbove(s: seq<Uint64>, i: nat)
    requires Falling(s) && i < |s|
    ensures |Filter(s, Higher(s[i]))| <= i
  {
    FewHigher(s[..i], s[i..], s[i]);
    assert s[..i] + s[i..] == s;
  }

  lemma ManyAt(s: seq<Uint64>, i: nat)
    requires Falling(s) && i < |s|
    ensures i < |Filter(s, AtLeast(s[i]))|
  {
    ManyReach(s[..i + 1], s[i + 1..], s[i]);
    assert s[..i + 1] + s[i + 1..] == s;
  }

  // In a list from the highest down, at most i rates are higher than the one at place i, and more than i reach it.
  lemma PlaceOf(s: seq<Uint64>, i: nat)
    requires Sorted(s, Descending) && i < |s|
    ensures |Filter(s, Higher(s[i]))| <= i < |Filter(s, AtLeast(s[i]))|
  {
    SortedFalls(s);
    FewAbove(s, i);
    ManyAt(s, i);
  }

  lemma {:induction false} SizesAddUp(bins: seq<seq<Ref>>, counts: seq<nat>, k: nat)
    requires k <= |bins| == |counts| && forall b :: 0 <= b < |bins| ==> counts[b] == |bins[b]|
    ensures SumTo(counts, k) == |Flatten(bins[..k])|
  {
    if k > 0 {
      SizesAddUp(bins, counts, k - 1);
      assert bins[..k][..k - 1] == bins[..k - 1];
    }
  }

  lemma IndexIsMiddle(txs: map<Ref, Tx>, bins: seq<seq<Ref>>, c: nat)
    requires |bins| == DEPTH && 1 <= c <= DEPTH && Flatten(bins) != []
    ensures var s := NewFeeSet(txs, bins);
            && 0 <= Middle(bins, c) < |s.feeRate| && Estimate(s, c) == s.feeRate[Middle(bins, c)]
  {
    var s := NewFeeSet(txs, bins);
    SizesAddUp(bins, s.bin, c - 1);
    SameElements(s.feeRate, RatesOf(txs, Flatten(bins)));
    var before, n := SumTo(s.bin, c - 1), s.bin[c - 1];
    assert FeeIndex(s.bin, c) == before + if n == 0 then 0 else (n - 1) / 2;
  }

  /** With any binned transaction, the estimate for c confirmations is the middle rate of that group. */
  lemma EstimateIsMiddle(txs: map<Ref, Tx>, bins: seq<seq<Ref>>, c: nat)
    requires |bins| == DEPTH && 1 <= c <= DEPTH && Flatten(bins) != []
    ensures MiddleRate(txs, bins, c, Estimate(NewFeeSet(txs, bins), c))
  {
    var s, rates := NewFeeSet(txs, bins), RatesOf(txs, Flatten(bins));
    IndexIsMiddle(txs, bins, c);
    var e := Estimate(s, c);
    PlaceOf(s.feeRate, Middle(bins, c));
    FilterPermutes(s.feeRate, rates, Higher(e));
    FilterPermutes(s.feeRate, rates, AtLeast(e));
  }

  // Without any binned transaction the answer is zero.
  lemma EstimateMeans(txs: map<Ref, Tx>, bins: seq<seq<Ref>>, c: nat)
    requires |bins| == DEPTH && 1 <= c <= DEPTH
    ensures var e := Estimate(NewFeeSet(txs, bins), c);
            if Flatten(bins) == [] then e == 0 else MiddleRate(txs, bins, c, e)
  {
    if Flatten(bins) == [] {
      SameElements(NewFeeSet(txs, bins).feeRate, RatesOf(txs, Flatten(bins)));
    } else {
      EstimateIsMiddle(txs, bins, c);
    }
  }

  // One middle rate: two such rates are the same.
  lemma OneMiddleRate(txs: map<Ref, Tx>, bins: seq<seq<Ref>>, c: nat, e: Uint64, d: Uint64)
    requires 1 <= c <= |bins| && MiddleRate(txs, bins, c, e) && MiddleRate(txs, bins, c, d)
    ensures e == d
  {
    var rates := RatesOf(txs, Flatten(bins));
    FewerHigher(rates, e, d);
    FewerHigher(rates, d, e);
  }

  lemma {:induction false} FewerHigher(rates: seq<Uint64>, e: Uint64, d: Uint64)
    ensures e < d ==> |Filter(rates, AtLeast(d))| <= |Filter(rates, Higher(e))|
  {
    if rates != [] {
      FewerHigher(rates[..|rates| - 1], e, d);
    }
  }
}
