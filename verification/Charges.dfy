/** The estimate of intraday transaction costs, and in what sense it is biased upward. */
module Charges {
  import opened Reals

  datatype Schedule = Schedule(
    brokerageRate: real, brokerageCap: real, sttSellRate: real, exchangeRate: real,
    sebiRate: real, stampBuyRate: real, gstRate: real)
  {
    /** No rate is negative. */
    predicate Sane() {
      && brokerageRate >= 0.0 && brokerageCap >= 0.0 && sttSellRate >= 0.0 && exchangeRate >= 0.0
      && sebiRate >= 0.0 && stampBuyRate >= 0.0 && gstRate >= 0.0
    }
  }

  const DEFAULT_SCHEDULE := Schedule(0.0003, 20.0, 0.00025, 0.0000297, 0.000001, 0.00003, 0.18)

  datatype Breakdown = Breakdown(brokerage: real, stt: real, exchange: real, sebi: real, stamp: real, gst: real) {
    function Total(): real { brokerage + stt + exchange + sebi + stamp + gst }
  }

  /** Up to the next whole paisa. */
  function CeilPaisa(v: real): real { (-((-v * 100.0).Floor)) as real / 100.0 }

  function Positive(x: real): real { if x > 0.0 then x else 0.0 }

  function Least(a: real, b: real): real { if a <= b then a else b }

  function PerOrder(s: Schedule, turnover: real): real {
    Least(s.brokerageCap, CeilPaisa(Mul(turnover / 2.0, s.brokerageRate)))
  }

  function Estimate(buyTurnover: real, sellTurnover: real, orders: int, s: Schedule): Breakdown {
    var buy, sell := Positive(buyTurnover), Positive(sellTurnover);
    var turnover := buy + sell;
    var count := if orders > 0 then orders else 0;
    var brokerage := CeilPaisa(Mul(count as real, PerOrder(s, turnover)));
    var exchange, sebi := CeilPaisa(Mul(turnover, s.exchangeRate)), CeilPaisa(Mul(turnover, s.sebiRate));
    Breakdown(brokerage, CeilPaisa(Mul(sell, s.sttSellRate)), exchange, sebi,
              CeilPaisa(Mul(buy, s.stampBuyRate)), CeilPaisa(Mul(brokerage + exchange + sebi, s.gstRate)))
  }

  lemma CeilPaisaBounds(v: real)
    ensures v <= CeilPaisa(v) < v + 0.01
  {
  }

  lemma CeilPaisaMonotone(a: real, b: real)
    requires a <= b
    ensures CeilPaisa(a) <= CeilPaisa(b)
  {
    assert (-b * 100.0).Floor <= (-a * 100.0).Floor;
  }

  /** A whole number of paise is left alone. */
  lemma CeilPaisaWhole(n: int)
    ensures CeilPaisa(n as real / 100.0) == n as real / 100.0
  {
    assert -(n as real / 100.0) * 100.0 == (-n) as real;
  }

  // ---------- the true cost ----------

  function Sum(turnovers: seq<real>): real {
    if turnovers == [] then 0.0 else Sum(turnovers[..|turnovers| - 1]) + turnovers[|turnovers| - 1]
  }

  /** Brokerage is charged per order: its rate on that order's turnover, up to the cap. */
  function TrueBrokerage(s: Schedule, turnovers: seq<real>): real {
    if turnovers == [] then 0.0
    else
      var last := turnovers[|turnovers| - 1];
      TrueBrokerage(s, turnovers[..|turnovers| - 1]) + Least(s.brokerageCap, Mul(last, s.brokerageRate))
  }

  /** The unrounded cost, for the turnover of each order and the bought and sold totals. */
  function TrueCost(s: Schedule, turnovers: seq<real>, buy: real, sell: real): real {
    CostOf(s, TrueBrokerage(s, turnovers), buy, sell)
  }

  /** The unrounded cost once the brokerage is known. */
  function CostOf(s: Schedule, brokerage: real, buy: real, sell: real): real {
    var exchange, sebi := Mul(buy + sell, s.exchangeRate), Mul(buy + sell, s.sebiRate);
    brokerage + Mul(sell, s.sttSellRate) + exchange + sebi + Mul(buy, s.stampBuyRate)
      + Mul(brokerage + exchange + sebi, s.gstRate)
  }

  /** One way of splitting the turnover among this many orders. */
  ghost predicate Splits(turnovers: seq<real>, orders: int, buy: real, sell: real) {
    && |turnovers| == (if orders > 0 then orders else 0)
    && (forall i :: 0 <= i < |turnovers| ==> turnovers[i] >= 0.0)
    && Sum(turnovers) == buy + sell && buy >= 0.0 && sell >= 0.0
  }

  /** However the turnover is split, the brokerage is at most the cap per order and at most the rate on
      the whole turnover. */
  lemma {:induction false} TrueBrokerageBounds(s: Schedule, turnovers: seq<real>)
    ensures TrueBrokerage(s, turnovers) <= Mul(|turnovers| as real, s.brokerageCap)
    ensures TrueBrokerage(s, turnovers) <= Mul(Sum(turnovers), s.brokerageRate)
  {
    hide Mul;
    MulUnits(s.brokerageCap);
    MulUnits(s.brokerageRate);
    if turnovers != [] {
      var n := |turnovers| - 1;
      TrueBrokerageBounds(s, turnovers[..n]);
      MulAdds(n as real, 1.0, s.brokerageCap);
      MulAdds(Sum(turnovers[..n]), turnovers[n], s.brokerageRate);
    }
  }

  /** Two or more half-turnover brokerages cover any split. */
  lemma BrokerageCovers(s: Schedule, turnovers: seq<real>, orders: int, buy: real, sell: real)
    requires s.Sane() && orders >= 2 && Splits(turnovers, orders, buy, sell)
    ensures TrueBrokerage(s, turnovers) <= Mul(orders as real, PerOrder(s, buy + sell))
  {
    hide Mul;
    TrueBrokerageBounds(s, turnovers);
    var half := Mul((buy + sell) / 2.0, s.brokerageRate);
    CeilPaisaBounds(half);
    MulAdds((buy + sell) / 2.0, (buy + sell) / 2.0, s.brokerageRate);
    MulSignOf((buy + sell) / 2.0, s.brokerageRate);
    MulUnits(PerOrder(s, buy + sell));
    MulOrder(2.0, orders as real, PerOrder(s, buy + sell));
    TwiceOf(PerOrder(s, buy + sell));
  }

  lemma TwiceOf(x: real)
    ensures Mul(2.0, x) == x + x
  {
  }

  lemma MulSignOf(a: real, b: real)
    requires a >= 0.0 && b >= 0.0
    ensures Mul(a, b) >= 0.0
  {
  }

  /** Whatever covers the brokerage covers the cost, component by component. */
  lemma CostCovered(s: Schedule, brokerage: real, buy: real, sell: real, orders: int)
    requires s.Sane() && buy >= 0.0 && sell >= 0.0
    requires brokerage <= Estimate(buy, sell, orders, s).brokerage
    ensures CostOf(s, brokerage, buy, sell) <= Estimate(buy, sell, orders, s).Total()
  {
    var e := Estimate(buy, sell, orders, s);
    hide Mul, PerOrder;
    CeilPaisaBounds(Mul(sell, s.sttSellRate));
    CeilPaisaBounds(Mul(buy + sell, s.exchangeRate));
    CeilPaisaBounds(Mul(buy + sell, s.sebiRate));
    CeilPaisaBounds(Mul(buy, s.stampBuyRate));
    CeilPaisaBounds(Mul(e.brokerage + e.exchange + e.sebi, s.gstRate));
    hide CeilPaisa;
    MulOrder(brokerage + Mul(buy + sell, s.exchangeRate) + Mul(buy + sell, s.sebiRate),
             e.brokerage + e.exchange + e.sebi, s.gstRate);
  }

  /** For two or more orders the estimate is at least the true cost of every split. */
  lemma EstimateCovers(s: Schedule, turnovers: seq<real>, orders: int, buy: real, sell: real)
    requires s.Sane() && orders >= 2 && Splits(turnovers, orders, buy, sell)
    ensures TrueCost(s, turnovers, buy, sell) <= Estimate(buy, sell, orders, s).Total()
  {
    BrokerageCovers(s, turnovers, orders, buy, sell);
    CeilPaisaBounds(Mul(orders as real, PerOrder(s, buy + sell)));
    hide Mul, PerOrder, CeilPaisa, CostOf, TrueBrokerage, Splits;
    CostCovered(s, TrueBrokerage(s, turnovers), buy, sell, orders);
  }

  ghost predicate AlwaysCovers(s: Schedule, orders: int) {
    forall turnovers, buy, sell :: Splits(turnovers, orders, buy, sell) ==>
      TrueCost(s, turnovers, buy, sell) <= Estimate(buy, sell, orders, s).Total()
  }

  /** A single order of 10 000 rupees is charged 3 rupees of brokerage and estimated at half that. */
  lemma OneOrderUnderestimates()
    ensures Splits([10000.0], 1, 10000.0, 0.0)
    ensures TrueCost(DEFAULT_SCHEDULE, [10000.0], 10000.0, 0.0) > Estimate(10000.0, 0.0, 1, DEFAULT_SCHEDULE).Total()
  {
    assert [10000.0][..0] == [];
    assert Sum([10000.0]) == Sum([]) + 10000.0;
    var s := DEFAULT_SCHEDULE;
    assert TrueBrokerage(s, [10000.0]) == TrueBrokerage(s, []) + Least(20.0, 3.0);
    assert TrueCost(s, [10000.0], 10000.0, 0.0) >= 3.0 + 0.297 + 0.01 + 0.3 + 0.18 * 3.307;
    CeilPaisaWhole(150);
    CeilPaisaBounds(0.297);
    CeilPaisaBounds(0.01);
    CeilPaisaBounds(0.3);
    CeilPaisaWhole(0);
    var e := Estimate(10000.0, 0.0, 1, s);
    assert e.brokerage == 1.5 && e.stt == 0.0;
    assert e.exchange == CeilPaisa(0.297) && e.sebi == CeilPaisa(0.01) && e.stamp == CeilPaisa(0.3);
    CeilPaisaBounds(0.18 * (e.brokerage + e.exchange + e.sebi));
  }

  /** Under the default schedule the estimate covers every split exactly when the number of orders is
      not one. */
  lemma CoversIff(orders: int)
    ensures AlwaysCovers(DEFAULT_SCHEDULE, orders) <==> orders != 1
  {
    var s := DEFAULT_SCHEDULE;
    hide TrueCost, Estimate;
    if orders == 1 {
      OneOrderUnderestimates();
    } else {
      forall turnovers, buy, sell | Splits(turnovers, orders, buy, sell)
        ensures TrueCost(s, turnovers, buy, sell) <= Estimate(buy, sell, orders, s).Total()
      {
        if orders >= 2 {
          EstimateCovers(s, turnovers, orders, buy, sell);
        } else {
          NoOrdersNoCost(s, turnovers, buy, sell, orders);
        }
      }
    }
  }

  lemma NoOrdersNoCost(s: Schedule, turnovers: seq<real>, buy: real, sell: real, orders: int)
    requires s.Sane() && orders <= 0 && Splits(turnovers, orders, buy, sell)
    ensures TrueCost(s, turnovers, buy, sell) <= Estimate(buy, sell, orders, s).Total()
  {
    MulUnits(PerOrder(s, buy + sell));
    CeilPaisaBounds(0.0);
    CostCovered(s, 0.0, buy, sell, orders);
  }

  // ---------- monotone, and close ----------

  /** More turnover or more orders never lowers the estimate. */
  lemma EstimateIsMonotone(s: Schedule, buy: real, sell: real, orders: int, buy': real, sell': real, orders': int)
    requires s.Sane() && buy <= buy' && sell <= sell' && orders <= orders'
    ensures Estimate(buy, sell, orders, s).Total() <= Estimate(buy', sell', orders', s).Total()
  {
    var b, d, b', d' := Positive(buy), Positive(sell), Positive(buy'), Positive(sell');
    var n, n' := if orders > 0 then orders else 0, if orders' > 0 then orders' else 0;
    BrokerageMonotone(s, b + d, n, b' + d', n');
    hide Mul, PerOrder;
    CeilOfProduct(d, d', s.sttSellRate);
    CeilOfProduct(b, b', s.stampBuyRate);
    CeilOfProduct(b + d, b' + d', s.exchangeRate);
    CeilOfProduct(b + d, b' + d', s.sebiRate);
    var e, e' := Estimate(buy, sell, orders, s), Estimate(buy', sell', orders', s);
    hide CeilPaisa;
    CeilOfProduct(e.brokerage + e.exchange + e.sebi, e'.brokerage + e'.exchange + e'.sebi, s.gstRate);
  }

  lemma CeilOfProduct(a: real, b: real, rate: real)
    requires a <= b && rate >= 0.0
    ensures CeilPaisa(Mul(a, rate)) <= CeilPaisa(Mul(b, rate))
  {
    MulOrder(a, b, rate);
    CeilPaisaMonotone(Mul(a, rate), Mul(b, rate));
  }

  lemma BrokerageMonotone(s: Schedule, t: real, n: int, t': real, n': int)
    requires s.Sane() && 0.0 <= t <= t' && 0 <= n <= n'
    ensures CeilPaisa(Mul(n as real, PerOrder(s, t))) <= CeilPaisa(Mul(n' as real, PerOrder(s, t')))
  {
    hide Mul;
    CeilOfProduct(t / 2.0, t' / 2.0, s.brokerageRate);
    MulSignOf(t / 2.0, s.brokerageRate);
    CeilPaisaBounds(Mul(t / 2.0, s.brokerageRate));
    var p, p' := PerOrder(s, t), PerOrder(s, t');
    MulUnits(n as real);
    MulOrder(p, p', n as real);
    MulOrder(n as real, n' as real, p');
    CeilPaisaMonotone(Mul(n as real, p), Mul(n' as real, p'));
  }

  /** The formula without any rounding: half the turnover per order. */
  function Unrounded(s: Schedule, buy: real, sell: real, orders: nat): real {
    CostOf(s, Mul(orders as real, Least(s.brokerageCap, Mul((buy + sell) / 2.0, s.brokerageRate))), buy, sell)
  }

  /** Per order the default schedule charges whole paise, less than one more than the formula. */
  lemma PerOrderIsWholePaise(t: real)
    requires t >= 0.0
    ensures exists k: int :: PerOrder(DEFAULT_SCHEDULE, t) == Paise(k)
    ensures PerOrder(DEFAULT_SCHEDULE, t) <= Least(20.0, Mul(t / 2.0, 0.0003)) + 0.01
  {
    var v := Mul(t / 2.0, 0.0003);
    CeilPaisaBounds(v);
    assert CeilPaisa(v) == Paise(-((-v * 100.0).Floor));
    assert 20.0 == Paise(2000);
  }

  function Paise(k: int): real { k as real / 100.0 }

  lemma {:induction false} PaiseTimes(n: nat, k: int)
    ensures Mul(n as real, Paise(k)) == Paise(n * k)
  {
    hide Mul;
    MulUnits(Paise(k));
    if n > 0 {
      PaiseTimes(n - 1, k);
      MulAdds((n - 1) as real, 1.0, Paise(k));
      assert (n - 1) as real + 1.0 == n as real && n * k == (n - 1) * k + k;
    }
  }

  lemma WholeBrokerage(t: real, orders: nat)
    requires t >= 0.0
    ensures var p := PerOrder(DEFAULT_SCHEDULE, t);
      CeilPaisa(Mul(orders as real, p)) == Mul(orders as real, p)
  {
    hide *;
    PerOrderIsWholePaise(t);
    var k: int :| PerOrder(DEFAULT_SCHEDULE, t) == Paise(k);
    PaiseTimes(orders, k);
    CeilOfPaise(orders * k);
  }

  lemma CeilOfPaise(k: int)
    ensures CeilPaisa(Paise(k)) == Paise(k)
  {
    CeilPaisaWhole(k);
  }

  /** Under the default schedule the estimate exceeds the unrounded formula by less than
      1.18 * orders + 5.36 paise. */
  lemma EstimateIsClose(buy: real, sell: real, orders: nat)
    requires buy >= 0.0 && sell >= 0.0
    ensures Estimate(buy, sell, orders, DEFAULT_SCHEDULE).Total()
          < Unrounded(DEFAULT_SCHEDULE, buy, sell, orders) + 0.0118 * orders as real + 0.0536
  {
    var s, n, t := DEFAULT_SCHEDULE, orders as real, buy + sell;
    var e, u := Estimate(buy, sell, orders, s), Mul(n, Least(20.0, Mul(t / 2.0, 0.0003)));
    WholeBrokerage(t, orders);
    PerOrderIsWholePaise(t);
    assert e.brokerage == Mul(n, PerOrder(s, t));
    hide Mul, PerOrder;
    MulUnits(n);
    MulOrder(PerOrder(s, t), Least(20.0, Mul(t / 2.0, 0.0003)) + 0.01, n);
    MulAdds(Least(20.0, Mul(t / 2.0, 0.0003)), 0.01, n);
    Hundredth(n);
    assert e.brokerage <= u + 0.01 * n;
    CeilPaisaBounds(Mul(sell, s.sttSellRate));
    CeilPaisaBounds(Mul(t, s.exchangeRate));
    CeilPaisaBounds(Mul(t, s.sebiRate));
    CeilPaisaBounds(Mul(buy, s.stampBuyRate));
    CeilPaisaBounds(Mul(e.brokerage + e.exchange + e.sebi, s.gstRate));
    var x, y := Mul(t, s.exchangeRate), Mul(t, s.sebiRate);
    Eighteenth(e.brokerage + e.exchange + e.sebi);
    Eighteenth(u + x + y);
  }

  lemma Hundredth(x: real)
    ensures Mul(0.01, x) == 0.01 * x
  {
  }

  lemma Eighteenth(x: real)
    ensures Mul(x, 0.18) == 0.18 * x
  {
  }

  // ---------- component by component ----------

  /** `x` is `v` rupees, taken up to the next whole paisa. */
  ghost predicate UpToPaisa(x: real, v: real) { v <= x < v + 0.01 && exists k: int :: x == Paise(k) }

  /** 0.03 % of the turnover, at most 20 rupees. */
  ghost predicate OrderCharge(charge: real, turnover: real) {
    if 0.0003 * turnover > 20.0 then charge == 20.0 else UpToPaisa(charge, 0.0003 * turnover)
  }

  lemma CeilIsUpToPaisa(v: real)
    ensures UpToPaisa(CeilPaisa(v), v)
  {
    CeilPaisaBounds(v);
    assert CeilPaisa(v) == Paise(-((-v * 100.0).Floor));
  }

  /** What the default schedule charges: per order 0.03 % of half the turnover but at most 20 rupees;
      0.025 % of what is sold; 0.00297 % and 0.0001 % of the turnover; 0.003 % of what is bought; and
      18 % of the brokerage and the two charges on the turnover.  Negative turnovers and orders count
      as none, and every component is taken up to the next whole paisa. */
  lemma ComponentsAre(buy: real, sell: real, orders: int) returns (perOrder: real)
    ensures var e, b, s, n := Estimate(buy, sell, orders, DEFAULT_SCHEDULE),
              (if buy < 0.0 then 0.0 else buy), (if sell < 0.0 then 0.0 else sell), if orders < 0 then 0 else orders;
      && e.brokerage == Mul(n as real, perOrder) && OrderCharge(perOrder, (b + s) / 2.0)
      && UpToPaisa(e.stt, 0.00025 * s) && UpToPaisa(e.exchange, 0.0000297 * (b + s))
      && UpToPaisa(e.sebi, 0.000001 * (b + s)) && UpToPaisa(e.stamp, 0.00003 * b)
      && UpToPaisa(e.gst, 0.18 * (e.brokerage + e.exchange + e.sebi))
      && e.Total() == e.brokerage + e.stt + e.exchange + e.sebi + e.stamp + e.gst
  {
    var e, b, s := Estimate(buy, sell, orders, DEFAULT_SCHEDULE), Positive(buy), Positive(sell);
    var n := if orders < 0 then 0 else orders;
    Rates(b, s, e.brokerage + e.exchange + e.sebi);
    hide UpToPaisa, OrderCharge, CeilPaisa;
    CeilIsUpToPaisa(0.00025 * s);
    CeilIsUpToPaisa(0.0000297 * (b + s));
    CeilIsUpToPaisa(0.000001 * (b + s));
    CeilIsUpToPaisa(0.00003 * b);
    CeilIsUpToPaisa(0.18 * (e.brokerage + e.exchange + e.sebi));
    WholeBrokerage(b + s, n);
    PerOrderIs(b + s);
    hide Mul, PerOrder;
    perOrder := PerOrder(DEFAULT_SCHEDULE, b + s);
  }

  lemma Rates(b: real, s: real, taxed: real)
    ensures Mul(s, 0.00025) == 0.00025 * s && Mul(b, 0.00003) == 0.00003 * b
    ensures Mul(b + s, 0.0000297) == 0.0000297 * (b + s) && Mul(b + s, 0.000001) == 0.000001 * (b + s)
    ensures Mul(taxed, 0.18) == 0.18 * taxed
  {
  }

  lemma PerOrderIs(turnover: real)
    requires turnover >= 0.0
    ensures OrderCharge(PerOrder(DEFAULT_SCHEDULE, turnover), turnover / 2.0)
  {
    var v := 0.0003 * (turnover / 2.0);
    assert Mul(turnover / 2.0, 0.0003) == v;
    CeilIsUpToPaisa(v);
    CeilPaisaBounds(v);
    if v <= 20.0 {
      CeilPaisaMonotone(v, 20.0);
      CeilPaisaWhole(2000);
    }
  }
}
