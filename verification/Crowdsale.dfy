// Crowdsales: the beacon producer answers requests against a running accumulator of sales
// (blockchain/dcbbeaconproducer.go) and every node later replays the emitted payments on the recorded sales
// (blockchain/stabilitybeaconprocess.go). Machine arithmetic wraps around throughout.
module Crowdsale {
  import opened MachineWords

  type SaleID = nat

  datatype Asset = Asset(id: nat, offChain: bool, constant: bool)

  datatype Sale = Sale(id: SaleID, buyingAsset: Asset, buying: Uint64, defaultBuyPrice: Uint64,
                       sellingAsset: Asset, selling: Uint64, defaultSellPrice: Uint64)

  datatype Request = Request(sale: SaleID, priceLimit: Uint64, limitSell: bool, address: nat, sent: Uint64)

  // A payment to the buyer, or a refund; only a payment updates the sale.
  datatype Payment = Payment(address: nat, amount: Uint64, asset: Asset, sale: SaleID, sent: Uint64, update: bool)

  type Sales = map<SaleID, Sale>

  type Prices = map<Asset, Uint64>

  // The record under each identifier carries that identifier.
  predicate Keyed(sales: Sales) { forall k :: k in sales ==> sales[k].id == k }

  // ---------------------------------------------------------------------------------------------
  // Answering one request
  // ---------------------------------------------------------------------------------------------

  function Price(prices: Prices, asset: Asset, default: Uint64): (p: Uint64) {
    if asset in prices && prices[asset] != 0 then prices[asset] else default
  }

  function BuyPrice(prices: Prices, s: Sale): (p: Uint64) { Price(prices, s.buyingAsset, s.defaultBuyPrice) }

  function SellPrice(prices: Prices, s: Sale): (p: Uint64) { Price(prices, s.sellingAsset, s.defaultSellPrice) }

  /** The recorded price, unless there is none or it is zero: then the sale's own. */
  lemma PriceIs(prices: Prices, asset: Asset, default: Uint64, p: Uint64)
    ensures p > 0 && asset in prices && prices[asset] == p ==> Price(prices, asset, default) == p
    ensures asset !in prices || prices[asset] == 0 ==> Price(prices, asset, default) == default
  {
  }

  function Owed(prices: Prices, s: Sale, sent: Uint64): (amount: Uint64)
    requires SellPrice(prices, s) != 0
  {
    var value := Mul64(sent, BuyPrice(prices, s));
    var scaled := if s.buyingAsset.constant then Div64(value, 100) else value;
    var amount := Div64(scaled, SellPrice(prices, s));
    if s.sellingAsset.constant then Mul64(amount, 100) else amount
  }

  predicate Trades(prices: Prices, s: Sale, r: Request) {
    && BuyPrice(prices, s) != 0 && SellPrice(prices, s) != 0
    && !(r.limitSell && SellPrice(prices, s) > r.priceLimit)
    && !(!r.limitSell && BuyPrice(prices, s) < r.priceLimit)
    && r.sent <= s.buying && Owed(prices, s, r.sent) <= s.selling
  }

  function Answer(prices: Prices, s: Sale, r: Request): (p: Payment) {
    if Trades(prices, s, r) then Payment(r.address, Owed(prices, s, r.sent), s.sellingAsset, s.id, r.sent, true)
    else Payment(r.address, r.sent, s.buyingAsset, s.id, 0, false)
  }

  // A sale after a payment, as both the producer and the replay change it.
  function Paid(s: Sale, sent: Uint64, amount: Uint64): (r: Sale) {
    s.(buying := Sub64(s.buying, sent), selling := Sub64(s.selling, amount))
  }

  // Two factors whose product does not fit in a machine word: everything is taken and nothing is paid.
  lemma WrapPaysNothing(buying: Asset, selling: Asset)
    requires !buying.constant && !selling.constant && buying != selling
    ensures var s := Sale(1, buying, TWO64 / 2, 2, selling, 1, 1);
            var r := Request(1, 1, true, 1, TWO64 / 2);
            Trades(map[], s, r) && Answer(map[], s, r).update && Answer(map[], s, r).amount == 0
  {
  }

  // The producer's view of a sale: its own running record, or the stored one.
  function Seen(params: Sales, acc: Sales, k: SaleID): (s: Sale)
    requires k in acc || k in params
  {
    if k in acc then acc[k] else params[k]
  }

  // The accumulator and the emitted payments after one request; an unknown sale is an error without effect.
  function Serve(params: Sales, prices: Prices, acc: Sales, r: Request): (res: (Sales, seq<Payment>)) {
    if r.sale !in acc && r.sale !in params then (acc, [])
    else
      var s := Seen(params, acc, r.sale);
      if s.sellingAsset.offChain || s.buyingAsset.offChain then (acc[r.sale := s], [])
      else
        var p := Answer(prices, s, r);
        (acc[r.sale := if p.update then Paid(s, p.sent, p.amount) else s], [p])
  }

  function ServeAll(params: Sales, prices: Prices, requests: seq<Request>): (res: (Sales, seq<Payment>)) {
    if requests == [] then (map[], [])
    else
      var before := ServeAll(params, prices, requests[..|requests| - 1]);
      var now := Serve(params, prices, before.0, requests[|requests| - 1]);
      (now.0, before.1 + now.1)
  }

  // ---------------------------------------------------------------------------------------------
  // Replaying
  // ---------------------------------------------------------------------------------------------

  datatype Outcome = Done(sales: Sales) | Failed

  function Replay(params: Sales, p: Payment): (r: Outcome) {
    if !p.update then Done(params)
    else if p.sale !in params then Failed
    else Done(params[p.sale := Paid(params[p.sale], p.sent, p.amount)])
  }

  function ReplayAll(params: Sales, payments: seq<Payment>): (r: Outcome) {
    if payments == [] then Done(params)
    else
      match ReplayAll(params, payments[..|payments| - 1])
      case Failed => Failed
      case Done(sales) => Replay(sales, payments[|payments| - 1])
  }

  // The replayed sales are what the producer sees, sale by sale.
  predicate Mirrors(sales: Sales, params: Sales, acc: Sales) {
    && sales.Keys == params.Keys && acc.Keys <= params.Keys
    && forall k :: k in params ==> sales[k] == Seen(params, acc, k)
  }

  // The subtractions of a payment on a sale stay above zero.
  predicate Covered(s: Sale, p: Payment) { p.update ==> p.sent <= s.buying && p.amount <= s.selling }

  /** Every payment, in the order of replay, is covered by the sale as it stands at that moment. */
  predicate AllCovered(params: Sales, payments: seq<Payment>) {
    forall i :: 0 <= i < |payments| ==>
      && ReplayAll(params, payments[..i]).Done?
      && var sales := ReplayAll(params, payments[..i]).sales;
         payments[i].sale in sales && Covered(sales[payments[i].sale], payments[i])
  }

  lemma ReplaySnoc(params: Sales, payments: seq<Payment>, p: Payment)
    requires ReplayAll(params, payments).Done?
    ensures ReplayAll(params, payments + [p]) == Replay(ReplayAll(params, payments).sales, p)
  {
    assert (payments + [p])[..|payments|] == payments;
  }

  lemma CoveredSnoc(params: Sales, payments: seq<Payment>, p: Payment)
    requires AllCovered(params, payments) && ReplayAll(params, payments).Done?
    requires p.sale in ReplayAll(params, payments).sales && Covered(ReplayAll(params, payments).sales[p.sale], p)
    ensures AllCovered(params, payments + [p])
  {
    var all := payments + [p];
    forall i | 0 <= i < |all|
      ensures ReplayAll(params, all[..i]).Done?
      ensures var sales := ReplayAll(params, all[..i]).sales;
              all[i].sale in sales && Covered(sales[all[i].sale], all[i])
    {
      if i < |payments| {
        assert all[..i] == payments[..i];
      } else {
        assert all[..i] == payments;
      }
    }
  }

  lemma MirrorPayment(sales: Sales, params: Sales, acc: Sales, p: Payment)
    requires Keyed(acc) && Mirrors(sales, params, acc) && p.sale in params
    ensures var s := Seen(params, acc, p.sale);
            var acc' := acc[p.sale := if p.update then Paid(s, p.sent, p.amount) else s];
            && Replay(sales, p).Done? && Mirrors(Replay(sales, p).sales, params, acc')
            && (Keyed(params) ==> Keyed(acc'))
  {
  }

  lemma MirrorSilent(sales: Sales, params: Sales, acc: Sales, prices: Prices, r: Request)
    requires Mirrors(sales, params, acc)
    ensures |Serve(params, prices, acc, r).1| <= 1
    ensures Serve(params, prices, acc, r).1 == [] ==> Mirrors(sales, params, Serve(params, prices, acc, r).0)
  {
  }

  lemma ServeKeyed(params: Sales, acc: Sales, prices: Prices, r: Request)
    requires Keyed(params) && Keyed(acc)
    ensures Keyed(Serve(params, prices, acc, r).0)
  {
  }

  lemma MirrorStep(sales: Sales, params: Sales, acc: Sales, prices: Prices, r: Request)
    requires Keyed(params) && Keyed(acc) && Mirrors(sales, params, acc)
    ensures forall p :: p in Serve(params, prices, acc, r).1 ==>
              && p.sale in sales && Covered(sales[p.sale], p)
              && Replay(sales, p).Done? && Mirrors(Replay(sales, p).sales, params, Serve(params, prices, acc, r).0)
  {
    forall p | p in Serve(params, prices, acc, r).1
      ensures p.sale in sales && Covered(sales[p.sale], p)
      ensures Replay(sales, p).Done? && Mirrors(Replay(sales, p).sales, params, Serve(params, prices, acc, r).0)
    {
      MirrorPayment(sales, params, acc, p);
    }
  }

  /** Replaying what the producer emitted never fails, never subtracts below zero, and leaves every sale exactly as the
      producer's accumulator had it. */
  lemma {:induction false} ReplayMatches(params: Sales, prices: Prices, requests: seq<Request>)
    requires Keyed(params)
    ensures Keyed(ServeAll(params, prices, requests).0)
    ensures var (acc, payments) := ServeAll(params, prices, requests);
            && ReplayAll(params, payments).Done? && Mirrors(ReplayAll(params, payments).sales, params, acc)
            && AllCovered(params, payments)
  {
    if requests != [] {
      var front, r := requests[..|requests| - 1], requests[|requests| - 1];
      ReplayMatches(params, prices, front);
      var before := ServeAll(params, prices, front);
      var now := Serve(params, prices, before.0, r);
      var sales := ReplayAll(params, before.1).sales;
      ServeKeyed(params, before.0, prices, r);
      MirrorSilent(sales, params, before.0, prices, r);
      MirrorStep(sales, params, before.0, prices, r);
      if now.1 == [] {
        assert before.1 + now.1 == before.1;
      } else {
        var p := now.1[0];
        assert p in now.1 && now.1 == [p];
        ReplaySnoc(params, before.1, p);
        CoveredSnoc(params, before.1, p);
      }
    }
  }

  // ---------------------------------------------------------------------------------------------
  // Conservation and value
  // ---------------------------------------------------------------------------------------------

  function PaidOut(payments: seq<Payment>, k: SaleID): (n: nat) {
    if payments == [] then 0
    else
      var p := payments[|payments| - 1];
      PaidOut(payments[..|payments| - 1], k) + if p.update && p.sale == k then p.amount else 0
  }

  function TakenIn(payments: seq<Payment>, k: SaleID): (n: nat) {
    if payments == [] then 0
    else
      var p := payments[|payments| - 1];
      TakenIn(payments[..|payments| - 1], k) + if p.update && p.sale == k then p.sent else 0
  }

  /** A covered replay takes from each sale exactly what its payments say. */
  lemma {:induction false} ReplayConserves(params: Sales, payments: seq<Payment>, k: SaleID)
    requires AllCovered(params, payments) && ReplayAll(params, payments).Done? && k in params
    ensures k in ReplayAll(params, payments).sales
    ensures params[k].selling == ReplayAll(params, payments).sales[k].selling + PaidOut(payments, k)
    ensures params[k].buying == ReplayAll(params, payments).sales[k].buying + TakenIn(payments, k)
  {
    if payments != [] {
      var front, p := payments[..|payments| - 1], payments[|payments| - 1];
      assert AllCovered(params, front) by {
        assert forall i :: 0 <= i < |front| ==> front[..i] == payments[..i];
      }
      ReplayConserves(params, front, k);
    }
  }

  function Scale(asset: Asset): (n: nat) { if asset.constant then 100 else 1 }

  // What is paid is worth no more than what was sent, in the scale of the assets.
  predicate Fair(prices: Prices, s: Sale, amount: nat, sent: nat) {
    amount * SellPrice(prices, s) * Scale(s.buyingAsset) <= sent * BuyPrice(prices, s) * Scale(s.sellingAsset)
  }

  lemma Chain(sent: nat, buyPrice: nat, value: nat, scaled: nat, amount0: nat, amount: nat, sellPrice: nat, c: nat,
              k: nat)
    requires value <= sent * buyPrice && scaled * c <= value && amount0 * sellPrice <= scaled && amount <= amount0 * k
    ensures amount * sellPrice * c <= sent * buyPrice * k
  {
    var worth := amount0 * sellPrice;
    Scaled(amount, amount0 * k, sellPrice);
    assert amount0 * k * sellPrice == worth * k;
    Scaled(worth, scaled, k);
    Scaled(amount * sellPrice, scaled * k, c);
    assert scaled * k * c == (scaled * c) * k;
    Scaled(scaled * c, sent * buyPrice, k);
  }

  /** Even with wrap-around, the amount owed is never worth more than what was sent. */
  lemma OwedIsFair(prices: Prices, s: Sale, sent: Uint64)
    requires SellPrice(prices, s) != 0
    ensures Fair(prices, s, Owed(prices, s, sent), sent)
  {
    var b, c, k := BuyPrice(prices, s), Scale(s.buyingAsset), Scale(s.sellingAsset);
    var value := Mul64(sent, b);
    MulAtMost(sent, b);
    var scaled := if s.buyingAsset.constant then Div64(value, 100) else value;
    var amount := Div64(scaled, SellPrice(prices, s));
    MulAtMost(amount, 100);
    Chain(sent, b, value, scaled, amount, Owed(prices, s, sent), SellPrice(prices, s), c, k);
  }

  // What is paid is a whole number of units, and one unit more would be worth more than what was sent.
  predicate InFull(prices: Prices, s: Sale, amount: nat, sent: nat) {
    var c, k := Scale(s.buyingAsset), Scale(s.sellingAsset);
    && amount % k == 0
    && sent * BuyPrice(prices, s) * k < (amount + k) * SellPrice(prices, s) * c
  }

  // How many units of the selling asset something is worth, by whole numbers.
  function UnitsOf(prices: Prices, s: Sale, worth: nat): (n: nat)
    requires SellPrice(prices, s) != 0
  {
    UnitPositive(prices, s);
    worth / (Scale(s.buyingAsset) * SellPrice(prices, s))
  }

  // The products fit in a machine word, or the wrap-around of the first one costs no unit.
  predicate NoLoss(prices: Prices, s: Sale, sent: nat)
    requires SellPrice(prices, s) != 0
  {
    var worth := sent * BuyPrice(prices, s);
    && UnitsOf(prices, s, worth) * Scale(s.sellingAsset) < TWO64
    && UnitsOf(prices, s, worth % TWO64) == UnitsOf(prices, s, worth)
  }

  lemma UnitPositive(prices: Prices, s: Sale)
    requires SellPrice(prices, s) != 0
    ensures Scale(s.buyingAsset) * SellPrice(prices, s) > 0
  {
  }

  lemma Product(a: nat, b: nat, c: nat)
    ensures a * b * c == a * (c * b)
  {
  }

  lemma NestedLow(x: nat, y: nat, q: nat, c: nat, d: nat)
    requires y * c <= x && q * d <= y
    ensures q * (c * d) <= x
  {
    Scaled(q * d, y, c);
    Product(q, d, c);
  }

  lemma NestedHigh(x: nat, y: nat, q: nat, c: nat, d: nat)
    requires x < (y + 1) * c && y < (q + 1) * d
    ensures x < (q + 1) * (c * d)
  {
    Scaled(y + 1, (q + 1) * d, c);
    Product(q + 1, d, c);
  }

  lemma NestedQuotient(x: nat, c: nat, d: nat)
    requires c > 0 && d > 0 && c * d > 0
    ensures x / c / d == x / (c * d)
  {
    var y := x / c;
    var q := y / d;
    QuotientIs(x, c, y);
    QuotientIs(y, d, q);
    NestedLow(x, y, q, c, d);
    NestedHigh(x, y, q, c, d);
    QuotientIs(x, c * d, q);
  }

  lemma UnitsInSteps(prices: Prices, s: Sale, value: Uint64)
    requires SellPrice(prices, s) != 0
    ensures var scaled := if s.buyingAsset.constant then Div64(value, 100) else value;
            Div64(scaled, SellPrice(prices, s)) == UnitsOf(prices, s, value)
  {
    UnitPositive(prices, s);
    NestedQuotient(value, Scale(s.buyingAsset), SellPrice(prices, s));
  }

  // The amount owed, in units: the wrapped worth divided, and the wrapped product with the scale.
  lemma OwedIs(prices: Prices, s: Sale, sent: Uint64)
    requires SellPrice(prices, s) != 0
    ensures Owed(prices, s, sent)
            == UnitsOf(prices, s, Mul64(sent, BuyPrice(prices, s))) * Scale(s.sellingAsset) % TWO64
  {
    var units := UnitsOf(prices, s, Mul64(sent, BuyPrice(prices, s)));
    UnitsInSteps(prices, s, Mul64(sent, BuyPrice(prices, s)));
    assert units * 1 % TWO64 == units;
  }

  // One unit more than the whole quotient is worth more.
  lemma UnitMore(worth: nat, unit: nat, k: nat, q: nat)
    requires unit > 0 && k > 0 && worth / unit == q
    ensures worth * k < (q * k + k) * unit
  {
    QuotientIs(worth, unit, q);
    assert worth * k < (q + 1) * unit * k by {
      Scaled(worth + 1, (q + 1) * unit, k);
      assert (worth + 1) * k == worth * k + k;
    }
    Product(q + 1, unit, k);
    Product(q + 1, k, unit);
    assert (q + 1) * k == q * k + k;
    assert k * unit == unit * k;
  }

  lemma QuoteIsFull(worth: nat, unit: nat, k: nat, q: nat)
    requires unit > 0 && k > 0 && worth / unit == q
    ensures q * k % k == 0 && worth * k < (q * k + k) * unit
  {
    UnitMore(worth, unit, k, q);
    QuotientIs(q * k, k, q);
    assert q * k == (q * k / k) * k + q * k % k;
  }

  lemma NextMultiple(a: nat, b: nat, k: nat)
    requires a < b
    ensures a * k + k <= b * k
  {
    Scaled(a + 1, b, k);
    assert (a + 1) * k == a * k + k;
  }

  // Fewer units than the quotient leave room for one more.
  lemma FewerUnits(worth: nat, unit: nat, k: nat, a: nat)
    requires unit > 0 && a < worth / unit
    ensures (a * k + k) * unit <= worth * k
  {
    QuotientIs(worth, unit, worth / unit);
    NextMultiple(a, worth / unit, unit);
    Scaled((a + 1) * unit, worth, k);
    Product(a + 1, unit, k);
    Product(a + 1, k, unit);
    assert (a + 1) * k == a * k + k && (a + 1) * unit == a * unit + unit;
    assert k * unit == unit * k;
  }

  lemma Units(worth: nat, unit: nat, k: nat, amount: nat, units: nat)
    requires unit > 0 && k > 0 && units <= worth / unit && amount == units * k % TWO64
    ensures amount % k == 0 && worth * k < (amount + k) * unit <==> units * k < TWO64 && units == worth / unit
  {
    var q := worth / unit;
    Remains(units * k, TWO64);
    if units * k < TWO64 && units == q {
      QuoteIsFull(worth, unit, k, q);
    }
    if amount % k == 0 && worth * k < (amount + k) * unit {
      var a := amount / k;
      assert amount == a * k;
      if a < q {
        FewerUnits(worth, unit, k, a);
      }
      if units < a {
        NextMultiple(units, a, k);
      }
    }
  }

  lemma Smaller(x: nat, y: nat, d: nat)
    requires d > 0 && x <= y
    ensures x / d <= y / d
  {
    var p, q := x / d, y / d;
    QuotientIs(x, d, p);
    QuotientIs(y, d, q);
    if q < p {
      Scaled(q + 1, p, d);
    }
  }

  lemma FullByUnits(prices: Prices, s: Sale, sent: nat, worth: nat, amount: nat, units: nat)
    requires SellPrice(prices, s) != 0 && worth == sent * BuyPrice(prices, s)
    requires units <= UnitsOf(prices, s, worth) && amount == units * Scale(s.sellingAsset) % TWO64
    ensures InFull(prices, s, amount, sent) <==>
              units * Scale(s.sellingAsset) < TWO64 && units == UnitsOf(prices, s, worth)
  {
    UnitPositive(prices, s);
    var k := Scale(s.sellingAsset);
    Product(amount + k, SellPrice(prices, s), Scale(s.buyingAsset));
    Units(worth, Scale(s.buyingAsset) * SellPrice(prices, s), k, amount, units);
  }

  lemma WrappedIsSmaller(prices: Prices, s: Sale, worth: nat)
    requires SellPrice(prices, s) != 0
    ensures UnitsOf(prices, s, worth % TWO64) <= UnitsOf(prices, s, worth)
  {
    UnitPositive(prices, s);
    Remains(worth, TWO64);
    Smaller(worth % TWO64, worth, Scale(s.buyingAsset) * SellPrice(prices, s));
  }

  /** The amount owed is the full one exactly when wrap-around costs no unit. */
  lemma OwedInFull(prices: Prices, s: Sale, sent: Uint64)
    requires SellPrice(prices, s) != 0
    ensures InFull(prices, s, Owed(prices, s, sent), sent) <==> NoLoss(prices, s, sent)
  {
    var worth := sent * BuyPrice(prices, s);
    OwedIs(prices, s, sent);
    WrappedIsSmaller(prices, s, worth);
    FullByUnits(prices, s, sent, worth, Owed(prices, s, sent), UnitsOf(prices, s, worth % TWO64));
  }

  // Two records of the same sale, with other amounts left.
  predicate SameTerms(s: Sale, t: Sale) { s == t.(buying := s.buying, selling := s.selling) }

  predicate AllSameTerms(acc: Sales, params: Sales) {
    acc.Keys <= params.Keys && forall k :: k in acc ==> SameTerms(acc[k], params[k])
  }

  // The sale has its prices, and the one that the request limits is within the limit.
  predicate WithinLimit(prices: Prices, s: Sale, r: Request) {
    && BuyPrice(prices, s) != 0 && SellPrice(prices, s) != 0
    && if r.limitSell then SellPrice(prices, s) <= r.priceLimit else r.priceLimit <= BuyPrice(prices, s)
  }

  // A payment answers a request at the sale's terms: a fair trade within the limit, paid in full unless wrap-around
  // costs a unit, or a refund in full.
  predicate Honest(prices: Prices, params: Sales, p: Payment, r: Request) {
    && r.sale in params && p.sale == r.sale && p.address == r.address
    && if p.update
       then
         && p.sent == r.sent && p.asset == params[r.sale].sellingAsset && WithinLimit(prices, params[r.sale], r)
         && Fair(prices, params[r.sale], p.amount, p.sent)
         && (InFull(prices, params[r.sale], p.amount, p.sent) <==> NoLoss(prices, params[r.sale], p.sent))
       else p.amount == r.sent && p.asset == params[r.sale].buyingAsset
  }

  lemma ServeHonest(params: Sales, prices: Prices, acc: Sales, r: Request)
    requires Keyed(params) && AllSameTerms(acc, params)
    ensures AllSameTerms(Serve(params, prices, acc, r).0, params)
    ensures forall p :: p in Serve(params, prices, acc, r).1 ==> Honest(prices, params, p, r)
  {
    if r.sale in params {
      var s := Seen(params, acc, r.sale);
      if Trades(prices, s, r) {
        OwedIsFair(prices, s, r.sent);
        OwedInFull(prices, s, r.sent);
      }
    }
  }

  /** Every payment the producer emits is an honest answer to one of the requests, in their order. */
  lemma {:induction false} AllHonest(params: Sales, prices: Prices, requests: seq<Request>)
    requires Keyed(params)
    ensures AllSameTerms(ServeAll(params, prices, requests).0, params)
    ensures forall p :: p in ServeAll(params, prices, requests).1 ==>
              exists i :: 0 <= i < |requests| && Honest(prices, params, p, requests[i])
    ensures |ServeAll(params, prices, requests).1| <= |requests|
  {
    if requests != [] {
      var front, r := requests[..|requests| - 1], requests[|requests| - 1];
      AllHonest(params, prices, front);
      var before := ServeAll(params, prices, front);
      ServeHonest(params, prices, before.0, r);
      forall p | p in ServeAll(params, prices, requests).1
        ensures exists i :: 0 <= i < |requests| && Honest(prices, params, p, requests[i])
      {
        if p in before.1 {
          var i :| 0 <= i < |front| && Honest(prices, params, p, front[i]);
          assert Honest(prices, params, p, requests[i]);
        } else {
          assert Honest(prices, params, p, requests[|requests| - 1]);
        }
      }
    }
  }

  // ---------------------------------------------------------------------------------------------
  // The producer and the process
  // ---------------------------------------------------------------------------------------------

  class Accumulator {
    var saleDataMap: Sales

    constructor ()
      ensures saleDataMap == map[]
    {
      saleDataMap := map[];
    }

    /** The price checks and the update of the record held in the accumulator. */
    method BuildPayment(key: SaleID, r: Request, prices: Prices) returns (p: Payment)
      requires key in saleDataMap
      modifies this
      ensures p == Answer(prices, old(saleDataMap[key]), r)
      ensures saleDataMap == old(saleDataMap)[key := if p.update then Paid(old(saleDataMap[key]), p.sent, p.amount)
                                                     else old(saleDataMap[key])]
    {
      var s := saleDataMap[key];
      var refund := Payment(r.address, r.sent, s.buyingAsset, s.id, 0, false);
      var buyPrice := if s.buyingAsset in prices then prices[s.buyingAsset] else 0;
      var sellPrice := if s.sellingAsset in prices then prices[s.sellingAsset] else 0;
      if buyPrice == 0 {
        buyPrice := s.defaultBuyPrice;
      }
      if sellPrice == 0 {
        sellPrice := s.defaultSellPrice;
      }
      if buyPrice == 0 || sellPrice == 0 {
        return refund;
      }
      if r.limitSell && sellPrice > r.priceLimit {
        return refund;
      } else if !r.limitSell && buyPrice < r.priceLimit {
        return refund;
      }
      var value := Mul64(r.sent, buyPrice);
      if s.buyingAsset.constant {
        value := Div64(value, 100);
      }
      var amount := Div64(value, sellPrice);
      if s.sellingAsset.constant {
        amount := Mul64(amount, 100);
      }
      if r.sent > s.buying || amount > s.selling {
        return refund;
      }
      saleDataMap := saleDataMap[key := Paid(s, r.sent, amount)];
      return Payment(r.address, amount, s.sellingAsset, s.id, r.sent, true);
    }

    method BuildInstructions(r: Request, params: Sales, prices: Prices) returns (payments: seq<Payment>, known: bool)
      modifies this
      ensures (saleDataMap, payments) == Serve(params, prices, old(saleDataMap), r)
      ensures known == (r.sale in old(saleDataMap) || r.sale in params)
    {
      if r.sale !in saleDataMap {
        if r.sale !in params {
          return [], false;
        }
        saleDataMap := saleDataMap[r.sale := params[r.sale]];
      }
      var s := saleDataMap[r.sale];
      assert saleDataMap == old(saleDataMap)[r.sale := s];
      if s.sellingAsset.offChain || s.buyingAsset.offChain {
        return [], true;
      }
      var p := BuildPayment(r.sale, r, prices);
      assert saleDataMap == old(saleDataMap)[r.sale := if p.update then Paid(s, p.sent, p.amount) else s];
      return [p], true;
    }
  }

  class BeaconSales {
    var params: Sales

    method ProcessPayment(p: Payment) returns (ok: bool)
      modifies this
      ensures ok == Replay(old(params), p).Done?
      ensures params == if ok then Replay(old(params), p).sales else old(params)
    {
      if p.update {
        if p.sale !in params {
          return false;
        }
        var s := params[p.sale];
        s := s.(buying := Sub64(s.buying, p.sent));
        s := s.(selling := Sub64(s.selling, p.amount));
        params := params[p.sale := s];
      }
      return true;
    }
  }
}
