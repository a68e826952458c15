/**
  When a conversion costs the customer something. Spreads are rounded away at tiny mid rates, so
  "positive spreads lose" is not true of every book; what decides is whether the executable rate
  is below the mid cross rate, and that can be read off mids and spreads.
 */
module TradeLosses {
  import opened Money
  import opened Pricing
  import opened PricingLaws
  import opened NoArbitrage

  // ---------------------------------------------------------------- what a trade changes

  ghost predicate Loses(rates: Rates, t: Trade)
    requires Star(rates) && ValidTrade(t)
  {
    forall h: Holdings :: Execute(rates, h, t).Value(rates) < h.Value(rates)
  }

  /** The mid cross rate of a trade, in units of 10^-10. */
  ghost function TradeMid(rates: Rates, t: Trade): real
    requires Star(rates) && ValidTrade(t)
  {
    StarLegs(rates, t.source, t.destination, Dec(t.amount, MONEY_PLACES));
    MidRate(Quoted(rates, t).legs)
  }

  /** A trade changes the mid-value by what it buys less what the amount is worth at mid. */
  lemma TradeDelta(rates: Rates, h: Holdings, t: Trade)
    requires Star(rates) && ValidTrade(t)
    ensures Execute(rates, h, t).Value(rates) - h.Value(rates)
         == Weight(rates, t.destination)
            * (Quoted(rates, t).destinationAmount as real - Scaled(t.amount as real * TradeMid(rates, t)))
  {
    hide Quoted, Weight, TradeMid, Holdings.Value;
    var d := Quoted(rates, t).destinationAmount;
    var ws, wd := Weight(rates, t.source), Weight(rates, t.destination);
    ValueAdd(rates, h, t.source, -(t.amount as int));
    ValueAdd(rates, h.Add(t.source, -(t.amount as int)), t.destination, d);
    NegateProduct(t.amount, ws);
    assert Execute(rates, h, t).Value(rates) == h.Value(rates) - t.amount as real * ws + d as real * wd;
    TradeWeights(rates, t);
    SourceValue(t.amount as real, TradeMid(rates, t), ws, wd);
    var worth := Scaled(t.amount as real * TradeMid(rates, t));
    RealDistribute(wd, d as real, worth);
  }

  /** The mid cross rate is the ratio of the weights. */
  lemma TradeWeights(rates: Rates, t: Trade)
    requires Star(rates) && ValidTrade(t)
    ensures TradeMid(rates, t) * Weight(rates, t.destination) == UNIT * Weight(rates, t.source)
  {
    hide PriceQuote, DestinationAmount, Weight, MidRate, RoundMoney, QuoteRate;
    StarLegs(rates, t.source, t.destination, Dec(t.amount, MONEY_PLACES));
  }

  lemma RealDistribute(w: real, x: real, y: real)
    ensures w * (x - y) == x * w - y * w
  {
  }

  lemma SignOfProduct(w: real, x: real)
    requires w > 0.0
    ensures w * x < 0.0 <==> x < 0.0
    ensures w * x == 0.0 <==> x == 0.0
  {
  }

  /** A trade loses exactly when it buys less than its amount is worth at mid. */
  lemma LosesIff(rates: Rates, t: Trade)
    requires Star(rates) && ValidTrade(t)
    ensures Loses(rates, t)
       <==> Quoted(rates, t).destinationAmount as real < Scaled(t.amount as real * TradeMid(rates, t))
  {
    hide Execute, Quoted, TradeMid, Weight;
    var gap := Quoted(rates, t).destinationAmount as real - Scaled(t.amount as real * TradeMid(rates, t));
    WeightPositive(rates, t.destination);
    SignOfProduct(Weight(rates, t.destination), gap);
    forall h: Holdings
      ensures Execute(rates, h, t).Value(rates) - h.Value(rates) == Weight(rates, t.destination) * gap
    {
      TradeDelta(rates, h, t);
    }
    if Loses(rates, t) {
      var h := Holdings(0, 0, 0, 0);
      assert Execute(rates, h, t).Value(rates) < h.Value(rates);
    }
  }

  /** The terms of a trade do not depend on its amount. */
  lemma SameTerms(rates: Rates, t: Trade, u: Trade)
    requires Star(rates) && ValidTrade(t) && ValidTrade(u)
    requires t.source == u.source && t.destination == u.destination
    ensures Quoted(rates, t).legs == Quoted(rates, u).legs && Quoted(rates, t).rate == Quoted(rates, u).rate
    ensures TradeMid(rates, t) == TradeMid(rates, u)
  {
    hide QuoteRate, DestinationAmount, RoundMoney, PriceLegs, BuildRoute, TotalBps, MidRate;
    StarLegs(rates, t.source, t.destination, Dec(t.amount, MONEY_PLACES));
    StarLegs(rates, u.source, u.destination, Dec(u.amount, MONEY_PLACES));
  }

  lemma QuotedAmounts(rates: Rates, t: Trade)
    requires Star(rates) && ValidTrade(t)
    ensures Quoted(rates, t).destinationAmount == DestinationAmount(t.amount, Quoted(rates, t).rate)
  {
    hide PriceQuote, DestinationAmount, QuoteRate, MidRate, RoundMoney;
    StarLegs(rates, t.source, t.destination, Dec(t.amount, MONEY_PLACES));
    RoundMoneyIdentity(t.amount);
  }

  // ---------------------------------------------------------------- large trades

  /**
    Above an explicit size a trade loses, storable or not, when its rate is below mid by more than
    the context can make up for.
   */
  lemma TradeLosesAboveThreshold(rates: Rates, t: Trade)
    requires Star(rates) && ValidTrade(t)
    requires var mid, rate := TradeMid(rates, t), Quoted(rates, t).rate as real;
             && rate + ContextShare(rate) < mid
             && t.amount as real > UNIT / (2.0 * (mid - rate - ContextShare(rate)))
    ensures Loses(rates, t)
  {
    hide Quoted, TradeMid, Loses, DestinationAmount;
    var mid, rate := TradeMid(rates, t), Quoted(rates, t).rate;
    LosesIff(rates, t);
    QuotedAmounts(rates, t);
    DestinationCap(t.amount, rate);
    BelowMid(t.amount as real, mid, rate as real);
  }

  lemma BelowMid(s: real, mid: real, rate: real)
    requires rate + ContextShare(rate) < mid && s > UNIT / (2.0 * (mid - rate - ContextShare(rate)))
    ensures var x := Scaled(s * rate);
            x + ContextShare(x) + 0.5 < Scaled(s * mid)
  {
    var e := mid - rate - ContextShare(rate);
    var threshold := UNIT / (2.0 * e);
    assert threshold * (2.0 * e) == UNIT;
    RealMulLt(threshold, s, 2.0 * e);
    assert s * (2.0 * e) == 2.0 * (s * mid) - 2.0 * (s * rate) - 2.0 * ContextShare(s * rate);
  }

  /** The size above which a storable trade below mid always loses. */
  ghost function LossThreshold(mid: real, rate: real): real
    requires rate < mid
  {
    0.51 * UNIT / (mid - rate)
  }

  /** What can be stored is small enough for the context to add next to nothing to half a cent. */
  lemma StorableCap(sourceAmount: nat, rate: nat)
    requires FitsNumeric(DestinationAmount(sourceAmount, rate))
    ensures DestinationAmount(sourceAmount, rate) as real <= Scaled(sourceAmount as real * rate as real) + 0.51
  {
    hide DestinationAmount;
    DestinationError(sourceAmount, rate);
    RealProduct(sourceAmount, rate);
    var c, d := sourceAmount * rate, DestinationAmount(sourceAmount, rate);
    assert c < 2 * NUMERIC_LIMIT * RATE_ONE;
    assert 10_000_000_000 * d - c <= 5_100_000_000;
  }

  lemma StorableTradeLoses(rates: Rates, t: Trade)
    requires Star(rates) && ValidTrade(t) && FitsNumeric(Quoted(rates, t).destinationAmount)
    requires var mid, rate := TradeMid(rates, t), Quoted(rates, t).rate as real;
             rate < mid && t.amount as real > LossThreshold(mid, rate)
    ensures Loses(rates, t)
  {
    hide Quoted, TradeMid, Loses, DestinationAmount;
    var mid, rate := TradeMid(rates, t), Quoted(rates, t).rate;
    LosesIff(rates, t);
    QuotedAmounts(rates, t);
    StorableCap(t.amount, rate);
    var s, e := t.amount as real, mid - rate as real;
    assert LossThreshold(mid, rate as real) * e == 0.51 * UNIT;
    RealMulLt(LossThreshold(mid, rate as real), s, e);
    assert s * e == s * mid - s * rate as real;
  }

  /** A product with enough trailing zeros needs no rounding. */
  lemma RoundAmountExact(rate: nat, j: nat)
    requires rate < TEN_28
    ensures DestinationAmount(RoundAmount(j), rate) == Pow10(j) * rate
  {
    hide RoundHalfEven, Pow10, Ulp;
    var n, c := Pow10(10 + j), Pow10(10 + j) * rate;
    MulLt(rate, TEN_28, n);
    var k := UlpDivides(c, 10 + j);
    assert c == (rate * k) * Ulp(c) by { MulAssoc(rate, k, Ulp(c)); }
    RoundExact(rate * k, Ulp(c));
    assert ContextRound(c) == c;
    DestinationUnfold(n, rate);
    Pow10Add(10, j);
    assert Pow10(10) == RATE_ONE by { TenPlaces(); }
    assert c == (Pow10(j) * rate) * RATE_ONE by { Swap(RATE_ONE, Pow10(j), rate); }
    RoundExact(Pow10(j) * rate, RATE_ONE);
  }

  /** 10^j units of 10^8, in cents. */
  function RoundAmount(j: nat): (amount: nat)
    ensures amount > 0
  {
    Pow10(10 + j)
  }

  lemma TenPlaces()
    ensures Pow10(10) == RATE_ONE
  {
  }

  lemma Swap(a: int, b: int, c: int)
    ensures (a * b) * c == (b * c) * a
  {
  }

  /** A round amount is converted without any rounding: the rate alone decides. */
  lemma RoundTradeLosesIff(rates: Rates, t: Trade, j: nat)
    requires Star(rates) && ValidTrade(t) && t.amount == RoundAmount(j) && FitsNumeric(Quoted(rates, t).rate)
    ensures Loses(rates, t) <==> (Quoted(rates, t).rate as real) < TradeMid(rates, t)
  {
    hide Quoted, TradeMid, Loses, DestinationAmount, Pow10;
    var mid, rate := TradeMid(rates, t), Quoted(rates, t).rate;
    LosesIff(rates, t);
    QuotedAmounts(rates, t);
    RoundAmountExact(rate, j);
    Pow10Add(10, j);
    TenPlaces();
    RealProduct(RATE_ONE, Pow10(j));
    RealProduct(Pow10(j), rate);
    ScaledOrder(Pow10(j) as real, rate as real, mid);
  }

  lemma ScaledOrder(p: real, rate: real, mid: real)
    requires p > 0.0
    ensures p * rate < Scaled((UNIT * p) * mid) <==> rate < mid
  {
    assert Scaled((UNIT * p) * mid) == p * mid;
    if rate < mid {
      RealMulLt(rate, mid, p);
    } else {
      RealMulLe(mid, rate, p);
    }
  }

  // ---------------------------------------------------------------- the guard

  /** A half-even rounding stays at or below k exactly up to the midpoint above k. */
  lemma RoundAtMost(num: int, den: int, k: int)
    requires den > 0
    ensures RoundHalfEven(num, den) <= k
       <==> 2 * num < (2 * k + 1) * den || (2 * num == (2 * k + 1) * den && k % 2 == 0)
  {
    hide RoundHalfEven;
    var r := RoundHalfEven(num, den);
    RoundError(num, den);
    var above := k * den;
    assert (2 * k + 1) * den == 2 * above + den;
    if r < k {
      Apart(r, k, den);
    } else if r > k {
      Apart(k, r, den);
      if r > k + 1 {
        Apart(k + 1, r, den);
      }
    }
  }

  /** The spread survives the rounding of a sell leg: more than half a quantum, or an odd half. */
  predicate SellCosts(mid: Mid, s: SellBps) {
    mid * s > 5_000 || (mid * s == 5_000 && mid % 2 == 1)
  }

  lemma SellCostsIff(mid: Mid, s: SellBps)
    ensures SellRate(mid, s) < mid <==> SellCosts(mid, s)
  {
    hide SellRate, RoundHalfEven;
    SellRateExact(mid, s);
    RoundAtMost(mid * (BASIS_POINTS - s), BASIS_POINTS, mid - 1);
    assert mid * (BASIS_POINTS - s) == BASIS_POINTS * mid - mid * s;
  }

  const TEN_20: nat := 100_000_000_000_000_000_000

  /** The largest number of quanta strictly below num / den. */
  function Below(num: nat, den: nat): int
    requires den > 0
  {
    (num - 1) / den
  }

  lemma BelowIs(num: nat, den: nat, r: int)
    requires den > 0
    ensures r * den < num <==> r <= Below(num, den)
  {
    var k := Below(num, den);
    DivMod(num - 1, den);
    if r <= k {
      MulLe(r, k, den);
    } else {
      Apart(k, r, den);
    }
  }

  /** The same for a buy leg, whose mid rate is the inverse of the stored one. */
  predicate BuyCosts(mid: Mid, b: BuyBps)
    requires mid > 0
  {
    var k, p := Below(TEN_20, mid), mid * (BASIS_POINTS + b);
    2 * TEN_24 < (2 * k + 1) * p || (2 * TEN_24 == (2 * k + 1) * p && k % 2 == 0)
  }

  lemma BuyCostsIff(mid: Mid, b: BuyBps)
    requires mid > 0
    ensures BuyRate(mid, b) * mid < TEN_20 <==> BuyCosts(mid, b)
  {
    hide BuyRate, RoundHalfEven, Below;
    BuyRateExact(mid, b);
    BelowIs(TEN_20, mid, BuyRate(mid, b));
    RoundAtMost(TEN_24, mid * (BASIS_POINTS + b), Below(TEN_20, mid));
  }

  /** The same for two legs through the dollar, bought at `into` and sold at `out`. */
  predicate CrossCosts(into: CurrentRate, out: CurrentRate)
    requires into.mid > 0
  {
    var k := Below(RATE_ONE * out.mid, into.mid);
    var product := ContextTimes(BuyRate(into.mid, into.buyBps), SellRate(out.mid, out.sellBps));
    2 * product < (2 * k + 1) * RATE_ONE || (2 * product == (2 * k + 1) * RATE_ONE && k % 2 == 0)
  }

  lemma CrossCostsIff(into: CurrentRate, out: CurrentRate)
    requires into.mid > 0
    ensures var product := ContextTimes(BuyRate(into.mid, into.buyBps), SellRate(out.mid, out.sellBps));
            RoundHalfEven(product, RATE_ONE) * into.mid < RATE_ONE * out.mid <==> CrossCosts(into, out)
  {
    hide BuyRate, SellRate, RoundHalfEven, Below, ContextRound;
    var product := ContextTimes(BuyRate(into.mid, into.buyBps), SellRate(out.mid, out.sellBps));
    BelowIs(RATE_ONE * out.mid, into.mid, RoundHalfEven(product, RATE_ONE));
    RoundAtMost(product, RATE_ONE, Below(RATE_ONE * out.mid, into.mid));
  }

  /** What a caller can check on the book before trading. */
  ghost predicate SpreadCosts(rates: Rates, source: Currency, destination: Currency)
    requires Star(rates) && source != destination
  {
    assert forall c: Currency :: c != USD ==> (USD, c) in CANONICAL;
    if source == USD then SellCosts(rates[(USD, destination)].mid, rates[(USD, destination)].sellBps)
    else if destination == USD then BuyCosts(rates[(USD, source)].mid, rates[(USD, source)].buyBps)
    else CrossCosts(rates[(USD, source)], rates[(USD, destination)])
  }

  /** The legs of a trade on the star, read off the book. */
  lemma StarTerms(rates: Rates, t: Trade)
    requires Star(rates) && ValidTrade(t)
    ensures forall c: Currency :: c != USD ==> (USD, c) in rates
    ensures var legs := Quoted(rates, t).legs;
            && TradableLegs(legs) && Quoted(rates, t).rate == QuoteRate(legs)
            && TradeMid(rates, t) == MidRate(legs)
            && |legs| == (if t.source == USD || t.destination == USD then 1 else 2)
            && (t.source != USD ==> IsBuy(legs[0], rates[(USD, t.source)]))
            && (t.destination != USD ==> IsSell(legs[|legs| - 1], rates[(USD, t.destination)]))
  {
    hide PriceQuote, QuoteRate, DestinationAmount, RoundMoney, MidRate, SellRate, BuyRate, Tradable, Weight;
    var amount := Dec(t.amount, MONEY_PLACES);
    StarLegs(rates, t.source, t.destination, amount);
    StarQuotes(rates, t.source, t.destination);
    assert forall c: Currency :: c != USD ==> (USD, c) in CANONICAL && (c, USD) !in CANONICAL;
    QuotedRoute(rates, t);
    var route := BuildRoute(rates, t.source, t.destination).value;
    RoutedLegs(rates, route, 0);
    if |route| == 3 {
      RoutedLegs(rates, route, 1);
    }
  }

  lemma QuotedRoute(rates: Rates, t: Trade)
    requires Star(rates) && ValidTrade(t)
    ensures var route := BuildRoute(rates, t.source, t.destination);
            route.Some? && PriceLegs(rates, route.value) == Ok(Quoted(rates, t).legs)
  {
    hide BuildRoute, PriceLegs, QuoteRate, DestinationAmount, RoundMoney, TotalBps, MidRate, Tradable;
    StarLegs(rates, t.source, t.destination, Dec(t.amount, MONEY_PLACES));
  }

  ghost predicate IsSell(leg: LegPricing, row: CurrentRate) {
    leg.side == Sell && leg.mid == row.mid && leg.executable == SellRate(row.mid, row.sellBps)
  }

  ghost predicate IsBuy(leg: LegPricing, row: CurrentRate) {
    row.mid > 0 && leg.side == Buy && leg.mid == row.mid && leg.executable == BuyRate(row.mid, row.buyBps)
  }

  lemma BelowQuotient(rate: nat, num: nat, den: nat)
    requires den > 0
    ensures (rate as real) < num as real / den as real <==> rate * den < num
  {
    var x := num as real / den as real;
    assert x * den as real == num as real;
    RealProduct(rate, den);
    if (rate as real) < x {
      RealMulLt(rate as real, x, den as real);
    } else {
      RealMulLe(x, rate as real, den as real);
    }
  }

  lemma SellTermsIff(leg: LegPricing, row: CurrentRate)
    requires Tradable(leg) && IsSell(leg, row)
    ensures (QuoteRate([leg]) as real) < MidRate([leg]) <==> SellCosts(row.mid, row.sellBps)
  {
    hide SellRate, BuyRate, QuoteRate, SellCosts;
    LegBounds(leg);
    SingleLegRate(leg);
    SellCostsIff(row.mid, row.sellBps);
  }

  lemma BuyTermsIff(leg: LegPricing, row: CurrentRate)
    requires Tradable(leg) && IsBuy(leg, row)
    ensures (QuoteRate([leg]) as real) < MidRate([leg]) <==> BuyCosts(row.mid, row.buyBps)
  {
    hide SellRate, BuyRate, QuoteRate, BuyCosts;
    LegBounds(leg);
    SingleLegRate(leg);
    BuyCostsIff(row.mid, row.buyBps);
    BelowQuotient(leg.executable, TEN_20, leg.mid);
  }

  lemma CrossTermsIff(first: LegPricing, second: LegPricing, into: CurrentRate, out: CurrentRate)
    requires Tradable(first) && Tradable(second) && IsBuy(first, into) && IsSell(second, out)
    ensures (QuoteRate([first, second]) as real) < MidRate([first, second]) <==> CrossCosts(into, out)
  {
    hide SellRate, BuyRate, QuoteRate, CrossCosts, ContextRound, RoundHalfEven;
    LegBounds(first);
    TwoLegRate(first, second);
    CrossCostsIff(into, out);
    BelowQuotient(QuoteRate([first, second]), RATE_ONE * out.mid, into.mid);
    CrossMid(into.mid, out.mid);
  }

  /** Whether the executable rate is below mid can be read off the book. */
  lemma SpreadCostsIff(rates: Rates, t: Trade)
    requires Star(rates) && ValidTrade(t)
    ensures (Quoted(rates, t).rate as real) < TradeMid(rates, t) <==> SpreadCosts(rates, t.source, t.destination)
  {
    hide Quoted, TradeMid, QuoteRate, MidRate, Tradable, IsSell, IsBuy, SellCosts, BuyCosts, CrossCosts;
    StarTerms(rates, t);
    var legs := Quoted(rates, t).legs;
    if t.source == USD {
      assert legs == [legs[0]];
      SellTermsIff(legs[0], rates[(USD, t.destination)]);
    } else if t.destination == USD {
      assert legs == [legs[0]];
      BuyTermsIff(legs[0], rates[(USD, t.source)]);
    } else {
      assert legs == [legs[0], legs[1]];
      CrossTermsIff(legs[0], legs[1], rates[(USD, t.source)], rates[(USD, t.destination)]);
    }
  }

  lemma CrossMid(into: nat, out: nat)
    requires into > 0
    ensures Scaled(UNIT * UNIT / into as real * out as real) == (RATE_ONE * out) as real / into as real
  {
    var x := 1.0 / into as real;
    assert UNIT * UNIT / into as real == UNIT * UNIT * x;
    RealProduct(RATE_ONE, out);
  }

  // ---------------------------------------------------------------- the dichotomy

  /**
    Whether trades between two currencies lose is decided by the book, and exactly so. If the
    spreads cost something after rounding, every storable trade above an explicit size loses; if
    they do not, trades of unbounded size lose nothing.
   */
  lemma LargeTradesLoseIff(rates: Rates, source: Currency, destination: Currency)
    requires Star(rates) && source != destination
    requires FitsNumeric(Quoted(rates, Trade(source, destination, 1)).rate)
    ensures SpreadCosts(rates, source, destination) ==>
              var one := Trade(source, destination, 1);
              var mid, rate := TradeMid(rates, one), Quoted(rates, one).rate as real;
              && rate < mid
              && forall t: Trade | ValidTrade(t) && t.source == source && t.destination == destination ::
                   FitsNumeric(Quoted(rates, t).destinationAmount) && t.amount as real > LossThreshold(mid, rate)
                   ==> Loses(rates, t)
    ensures forall j: nat :: Loses(rates, Trade(source, destination, RoundAmount(j)))
                             <==> SpreadCosts(rates, source, destination)
  {
    hide Quoted, TradeMid, Loses, SpreadCosts, Star, Pow10;
    var one := Trade(source, destination, 1);
    SpreadCostsIff(rates, one);
    forall t: Trade | ValidTrade(t) && t.source == source && t.destination == destination
      ensures Quoted(rates, t).rate == Quoted(rates, one).rate && TradeMid(rates, t) == TradeMid(rates, one)
    {
      SameTerms(rates, t, one);
    }
    forall t: Trade | ValidTrade(t) && t.source == source && t.destination == destination
      ensures var mid, rate := TradeMid(rates, one), Quoted(rates, one).rate as real;
              && rate < mid && FitsNumeric(Quoted(rates, t).destinationAmount)
              && t.amount as real > LossThreshold(mid, rate)
              ==> Loses(rates, t)
    {
      var mid, rate := TradeMid(rates, one), Quoted(rates, one).rate as real;
      if rate < mid && FitsNumeric(Quoted(rates, t).destinationAmount) && t.amount as real > LossThreshold(mid, rate) {
        StorableTradeLoses(rates, t);
      }
    }
    forall j: nat
      ensures Loses(rates, Trade(source, destination, RoundAmount(j))) <==> SpreadCosts(rates, source, destination)
    {
      RoundTradeLosesIff(rates, Trade(source, destination, RoundAmount(j)), j);
    }
  }

  /** A book at the default spreads of 50 basis points, with the shilling at 10^-10 to the dollar. */
  const TINY_BOOK: Rates := map[
    (USD, KES) := CurrentRate(USD, KES, 1, 50, 50, 0, 0),
    (USD, NGN) := CurrentRate(USD, NGN, 15_000_000_000_000, 50, 50, 1, 0),
    (USD, EUR) := CurrentRate(USD, EUR, 9_000_000_000, 50, 50, 2, 0)]

  /**
    Positive spreads alone do not make large trades lose: from dollars to shillings at this book
    the spread is rounded away, and trades of any size down to the cent of mid-value are free.
   */
  lemma SpreadsWithoutLoss(h: Holdings, j: nat)
    ensures Star(TINY_BOOK)
    ensures var t := Trade(USD, KES, RoundAmount(j));
            ValidTrade(t) && Execute(TINY_BOOK, h, t).Value(TINY_BOOK) == h.Value(TINY_BOOK)
  {
    hide Quoted, TradeMid, Execute, DestinationAmount, Weight, Pow10, SellRate, QuoteRate;
    assert (USD, KES) in TINY_BOOK;
    var t := Trade(USD, KES, RoundAmount(j));
    StarTerms(TINY_BOOK, t);
    var legs := Quoted(TINY_BOOK, t).legs;
    assert legs == [legs[0]];
    assert SellRate(1, 50) == 1 by { SellRateExact(1, 50); }
    SingleLegRate(legs[0]);
    QuotedAmounts(TINY_BOOK, t);
    RoundAmountExact(1, j);
    Pow10Add(10, j);
    TenPlaces();
    RealProduct(RATE_ONE, Pow10(j));
    TradeDelta(TINY_BOOK, h, t);
  }
}
