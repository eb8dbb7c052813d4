// Which request gets which payment, over a whole list of requests, in terms of the stored sales and the payments made
// before: the producer's accumulator does not appear.
module SaleAnswers {
  import opened MachineWords
  import opened Filtering
  import opened Crowdsale

  // A request for a known sale of two assets on the chain.
  predicate Answerable(params: Sales, r: Request) {
    r.sale in params && !params[r.sale].sellingAsset.offChain && !params[r.sale].buyingAsset.offChain
  }

  function Answered(params: Sales, requests: seq<Request>): (r: seq<Request>) {
    Filter(requests, Test(params))
  }

  function Test(params: Sales): (keep: Request -> bool) { (q: Request) => Answerable(params, q) }

  lemma AnsweredOneMore(params: Sales, front: seq<Request>, r: Request)
    ensures Answered(params, front + [r])
            == if Answerable(params, r) then Answered(params, front) + [r] else Answered(params, front)
  {
    FilterOneMore(front, r, Test(params));
  }

  // What is left to buy and to sell after some payments.
  function ToBuy(params: Sales, payments: seq<Payment>, k: SaleID): (n: int)
    requires k in params
  {
    params[k].buying - TakenIn(payments, k)
  }

  function ToSell(params: Sales, payments: seq<Payment>, k: SaleID): (n: int)
    requires k in params
  {
    params[k].selling - PaidOut(payments, k)
  }

  /** A trade if the prices are within the limit and enough is left on both sides, otherwise everything sent comes
      back. */
  predicate Right(prices: Prices, s: Sale, toBuy: int, toSell: int, p: Payment, r: Request) {
    && p.sale == r.sale && p.address == r.address
    && (p.update <==> WithinLimit(prices, s, r) && r.sent <= toBuy && Owed(prices, s, r.sent) <= toSell)
    && if p.update then p.sent == r.sent && p.asset == s.sellingAsset && p.amount == Owed(prices, s, r.sent)
       else p.sent == 0 && p.asset == s.buyingAsset && p.amount == r.sent
  }

  predicate RightAnswer(prices: Prices, params: Sales, before: seq<Payment>, p: Payment, r: Request) {
    && r.sale in params
    && Right(prices, params[r.sale], ToBuy(params, before, r.sale), ToSell(params, before, r.sale), p, r)
  }

  predicate AllRight(prices: Prices, params: Sales, payments: seq<Payment>, requests: seq<Request>) {
    |payments| == |requests| &&
    forall i :: 0 <= i < |payments| ==> RightAnswer(prices, params, payments[..i], payments[i], requests[i])
  }

  // The accumulator shows what is left.
  lemma SeenIsLeft(params: Sales, prices: Prices, requests: seq<Request>, k: SaleID)
    requires Keyed(params) && k in params
    ensures var (acc, payments) := ServeAll(params, prices, requests);
            var s := Seen(params, acc, k);
            && SameTerms(s, params[k])
            && s.buying == ToBuy(params, payments, k) && s.selling == ToSell(params, payments, k)
  {
    var (acc, payments) := ServeAll(params, prices, requests);
    ReplayMatches(params, prices, requests);
    ReplayConserves(params, payments, k);
    AllHonest(params, prices, requests);
  }

  // The prices and the amount owed follow from the terms alone.
  lemma TermsDecide(prices: Prices, s: Sale, t: Sale, r: Request)
    requires SameTerms(s, t)
    ensures WithinLimit(prices, s, r) <==> WithinLimit(prices, t, r)
    ensures SellPrice(prices, s) != 0 ==>
            SellPrice(prices, t) != 0 && Owed(prices, s, r.sent) == Owed(prices, t, r.sent)
  {
  }

  lemma AnswerIsRight(prices: Prices, params: Sales, before: seq<Payment>, s: Sale, r: Request)
    requires r.sale in params && s.id == r.sale && SameTerms(s, params[r.sale])
    requires s.buying == ToBuy(params, before, r.sale) && s.selling == ToSell(params, before, r.sale)
    ensures RightAnswer(prices, params, before, Answer(prices, s, r), r)
  {
    TermsDecide(prices, s, params[r.sale], r);
  }

  lemma AllRightOneMore(prices: Prices, params: Sales, payments: seq<Payment>, requests: seq<Request>, p: Payment,
                        r: Request)
    requires AllRight(prices, params, payments, requests) && RightAnswer(prices, params, payments, p, r)
    ensures AllRight(prices, params, payments + [p], requests + [r])
  {
    var all := payments + [p];
    forall i | 0 <= i < |all| ensures RightAnswer(prices, params, all[..i], all[i], (requests + [r])[i]) {
      assert all[..i] == if i < |payments| then payments[..i] else payments;
    }
  }

  /** The payments are the right answers to the answerable requests, one each and in their order. */
  lemma {:induction false} AllAnswered(params: Sales, prices: Prices, requests: seq<Request>)
    requires Keyed(params)
    ensures AllRight(prices, params, ServeAll(params, prices, requests).1, Answered(params, requests))
  {
    if requests != [] {
      var front, r := requests[..|requests| - 1], requests[|requests| - 1];
      AllAnswered(params, prices, front);
      LastAnswered(params, prices, front, r);
      assert requests == front + [r];
    }
  }

  lemma ServeOneMore(params: Sales, prices: Prices, front: seq<Request>, r: Request)
    requires Keyed(params)
    ensures var (acc, payments) := ServeAll(params, prices, front);
            && (r.sale in acc ==> r.sale in params)
            && ServeAll(params, prices, front + [r]).1
               == if Answerable(params, r) then payments + [Answer(prices, Seen(params, acc, r.sale), r)] else payments
  {
    assert (front + [r])[..|front|] == front;
    AllHonest(params, prices, front);
  }

  lemma LastAnswered(params: Sales, prices: Prices, front: seq<Request>, r: Request)
    requires Keyed(params)
    requires AllRight(prices, params, ServeAll(params, prices, front).1, Answered(params, front))
    ensures AllRight(prices, params, ServeAll(params, prices, front + [r]).1, Answered(params, front + [r]))
  {
    ServeOneMore(params, prices, front, r);
    AnsweredOneMore(params, front, r);
    if Answerable(params, r) {
      AnswerNow(params, prices, front, r);
    }
  }

  lemma AnswerNow(params: Sales, prices: Prices, front: seq<Request>, r: Request)
    requires Keyed(params) && Answerable(params, r)
    requires AllRight(prices, params, ServeAll(params, prices, front).1, Answered(params, front))
    ensures var (acc, payments) := ServeAll(params, prices, front);
            && (r.sale in acc || r.sale in params)
            && AllRight(prices, params, payments + [Answer(prices, Seen(params, acc, r.sale), r)],
                        Answered(params, front) + [r])
  {
    var (acc, payments) := ServeAll(params, prices, front);
    var s := Seen(params, acc, r.sale);
    SeenIsLeft(params, prices, front, r.sale);
    AnswerIsRight(prices, params, payments, s, r);
    AllRightOneMore(prices, params, payments, Answered(params, front), Answer(prices, s, r), r);
  }
}
