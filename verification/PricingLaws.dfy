/**
  What pricing promises: single rounding where the code rounds twice, monotonicity, near
  additivity, and explicit error bounds for compound rates.
 */
module PricingLaws {
  import opened Money
  import opened Pricing

  const TEN_24: nat := 1_000_000_000_000_000_000_000_000

  // ---------------------------------------------------------------- two roundings or one

  /** The sell leg is exact in the context, so it is rounded once. */
  lemma SellRateExact(mid: Mid, s: SellBps)
    ensures SellRate(mid, s) == RoundHalfEven(mid * (BASIS_POINTS - s), BASIS_POINTS)
  {
    hide RoundHalfEven, ContextRound, RoundRate;
    ShortProduct(mid, BASIS_POINTS - s);
    ShortSell(mid * (BASIS_POINTS - s));
  }

  lemma ShortProduct(mid: Mid, k: nat)
    requires k <= BASIS_POINTS
    ensures 0 <= mid * k < TEN_28
  {
    MulLe(0, mid, k);
    MulLe(k, BASIS_POINTS, mid);
  }

  lemma ShortSell(p: nat)
    requires p < TEN_28
    ensures RoundRate(Dec(ContextRound(p), 14)) == RoundHalfEven(p, BASIS_POINTS)
  {
    hide RoundHalfEven, ContextRound;
    ContextExact(p);
    assert Pow10(4) == BASIS_POINTS;
  }

  /** The buy leg is rounded by a 28-digit division and by `quantize`, to the effect of one. */
  lemma BuyRateExact(mid: Mid, b: BuyBps)
    requires mid > 0
    ensures mid * (BASIS_POINTS + b) > 0
    ensures BuyRate(mid, b) == RoundHalfEven(TEN_24, mid * (BASIS_POINTS + b))
  {
    PricedMidBounds(mid, b);
    QuotientThenQuantize(mid * (BASIS_POINTS + b));
  }

  /** A stored leg agrees with its own mid rate, spread and side. */
  ghost predicate Reprices(leg: LegPricing) {
    match leg.side
    case Sell => leg.spreadBps < BASIS_POINTS && leg.executable == SellRate(leg.mid, leg.spreadBps)
    case Buy => leg.spreadBps <= BASIS_POINTS && leg.mid > 0 && leg.executable == BuyRate(leg.mid, leg.spreadBps)
  }

  lemma SellBound(mid: Mid, s: SellBps)
    ensures SellRate(mid, s) <= mid
  {
    SellRateExact(mid, s);
    MulLe(BASIS_POINTS - s, BASIS_POINTS, mid);
    RoundMonotone(mid * (BASIS_POINTS - s), mid * BASIS_POINTS, BASIS_POINTS);
    RoundExact(mid, BASIS_POINTS);
  }

  lemma BuyBound(mid: Mid, b: BuyBps)
    requires mid > 0
    ensures BuyRate(mid, b) <= NUMERIC_LIMIT
  {
    var p := mid * (BASIS_POINTS + b);
    PricedMidBounds(mid, b);
    BuyRateExact(mid, b);
    RoundMonotoneRational(TEN_24, p, NUMERIC_LIMIT, 1);
    RoundExact(NUMERIC_LIMIT, 1);
  }

  lemma LegBounds(leg: LegPricing)
    requires Reprices(leg)
    ensures leg.executable <= NUMERIC_LIMIT
    ensures leg.side == Sell ==> leg.executable <= leg.mid
  {
    match leg.side
    case Sell => SellBound(leg.mid, leg.spreadBps);
    case Buy => BuyBound(leg.mid, leg.spreadBps);
  }

  lemma PricedLegReprices(rate: CurrentRate, source: Currency, destination: Currency)
    ensures var r := PriceLeg(rate, source, destination);
            r.Ok? ==> && Reprices(r.value)
                      && r.value.source == source && r.value.destination == destination
                      && r.value.mid == rate.mid && r.value.snapshotId == rate.snapshotId
                      && r.value.spreadBps == if r.value.side == Sell then rate.sellBps else rate.buyBps
  {
  }

  /** Leg i of a priced route is the row found for hop i, priced in the direction of the hop. */
  lemma {:induction false} RoutedLegs(rates: Rates, route: seq<Currency>, i: nat)
    requires PriceLegs(rates, route).Ok? && i < |PriceLegs(rates, route).value|
    ensures i + 1 < |route|
    ensures var row := FindCurrentRate(rates, route[i], route[i + 1]);
            row.Some? && PriceLeg(row.value, route[i], route[i + 1]) == Ok(PriceLegs(rates, route).value[i])
  {
    var n := |route| - 1;
    if i < n - 1 {
      RoutedLegs(rates, route[..n], i);
    }
  }

  /** A direct quote carries its only leg's rate. */
  lemma SingleLegRate(leg: LegPricing)
    requires leg.executable < TEN_28
    ensures Compound([leg]) == leg.executable
    ensures QuoteRate([leg]) == leg.executable
  {
    assert [leg][..0] == [];
    ContextExact(leg.executable);
  }

  /** A two-leg quote: the product of the leg rates, at 20 places, through the context. */
  lemma TwoLegRate(first: LegPricing, second: LegPricing)
    requires first.executable < TEN_28
    ensures QuoteRate([first, second])
         == RoundHalfEven(ContextTimes(first.executable, second.executable), RATE_ONE)
  {
    assert [first, second][..1] == [first];
    SingleLegRate(first);
    assert Pow10(10) == RATE_ONE;
  }

  function Product(a: nat, b: nat): nat {
    a * b
  }

  lemma ProductRoundedOnce(c: nat)
    requires c < TEN_28 * 1_000_000_000
    ensures RoundHalfEven(ContextRound(c), RATE_ONE) == RoundHalfEven(c, RATE_ONE) <==> !Misrounds(c)
    ensures c < TEN_28 ==> !Misrounds(c)
  {
    ContextThenQuantize(c);
    if c < TEN_28 {
      ShortProductExact(c);
    }
  }

  /** The spread summary of a quote adds up the spreads of its legs. */
  lemma SpreadsAddUp(first: LegPricing, second: LegPricing)
    ensures TotalBps([first]) == first.spreadBps
    ensures TotalBps([first, second]) == first.spreadBps + second.spreadBps
  {
    assert [first][..0] == [];
    assert [first, second][..1] == [first];
  }

  /**
    The compound rate is the single half-even rounding of the product of its leg rates exactly
    when the product does not misround; below 10^8 (a product under 28 digits) it never does.
   */
  lemma CrossRateRoundedOnce(first: LegPricing, second: LegPricing)
    requires Reprices(first) && Reprices(second)
    requires Product(first.executable, second.executable) < TEN_28 * 1_000_000_000
    ensures var c := Product(first.executable, second.executable);
            && (QuoteRate([first, second]) == RoundHalfEven(c, RATE_ONE) <==> !Misrounds(c))
            && (c < TEN_28 ==> !Misrounds(c))
  {
    LegBounds(first);
    TwoLegRate(first, second);
    ProductRoundedOnce(Product(first.executable, second.executable));
  }

  /** Two legs of a star-shaped book at the default spreads: euros to dollars to shillings. */
  const INTO_DOLLARS: LegPricing := LegPricing(EUR, USD, 9_999_999_702, 9_950_249_053, 50, Buy, 0)
  const OUT_OF_DOLLARS: LegPricing :=
    LegPricing(USD, KES, 1_010_050_239_006_626_851, 1_004_999_987_811_593_717, 50, Sell, 1)

  /** Past 10^8 the single rounding is false of the code: these legs compound to a quantum less. */
  lemma CrossRateRoundedTwice()
    ensures Reprices(INTO_DOLLARS) && Reprices(OUT_OF_DOLLARS)
    ensures var rate := QuoteRate([INTO_DOLLARS, OUT_OF_DOLLARS]);
            && FitsNumeric(rate)
            && rate + 1 == RoundHalfEven(Product(INTO_DOLLARS.executable, OUT_OF_DOLLARS.executable), RATE_ONE)
  {
    hide QuoteRate, SellRate, BuyRate, ContextRound;
    BuyRateExact(9_999_999_702, 50);
    SellRateExact(1_010_050_239_006_626_851, 50);
    assert Product(INTO_DOLLARS.executable, OUT_OF_DOLLARS.executable) == LONG_PRODUCT;
    LongProductRounded();
    TwoLegRate(INTO_DOLLARS, OUT_OF_DOLLARS);
    assert QuoteRate([INTO_DOLLARS, OUT_OF_DOLLARS]) == 1_000_000_017_698_732_192;
  }

  const LONG_PRODUCT: nat := 10_000_000_176_987_321_925_000_000_001

  lemma LongProductRounded()
    ensures ContextRound(LONG_PRODUCT) == LONG_PRODUCT - 1
  {
    assert Ulp(LONG_PRODUCT) == 10 by { assert Ulp(LONG_PRODUCT / 10) == 1; }
  }

  lemma DestinationUnfold(sourceAmount: nat, rate: nat)
    ensures DestinationAmount(sourceAmount, rate)
         == RoundHalfEven(ContextTimes(sourceAmount, rate), RATE_ONE)
  {
    assert Pow10(10) == RATE_ONE;
  }

  /** The same for the destination amount: one rounding below 10^16, and exactly when otherwise. */
  lemma AmountRoundedOnce(sourceAmount: nat, rate: nat)
    requires sourceAmount * rate < TEN_28 * 1_000_000_000
    ensures DestinationAmount(sourceAmount, rate) == RoundHalfEven(sourceAmount * rate, RATE_ONE)
       <==> !Misrounds(sourceAmount * rate)
    ensures sourceAmount * rate < TEN_28 ==> !Misrounds(sourceAmount * rate)
  {
    DestinationUnfold(sourceAmount, rate);
    ProductRoundedOnce(sourceAmount * rate);
  }

  /**
    Past 10^16 the promise of a single rounding is false of the code: 10000000000.01 units at
    the rate 1000000.5000000001 are credited one cent less than the nearest cent.
   */
  lemma AmountRoundedTwice()
    ensures exists sourceAmount: nat, rate: nat ::
              && FitsNumeric(sourceAmount) && FitsNumeric(rate)
              && FitsNumeric(DestinationAmount(sourceAmount, rate))
              && DestinationAmount(sourceAmount, rate) + 1 == RoundHalfEven(sourceAmount * rate, RATE_ONE)
  {
    var a: nat := 1_000_000_000_001;
    var r: nat := 10_000_005_000_000_001;
    var c: nat := 10_000_005_000_010_001_005_000_000_001;
    assert a * r == c;
    assert Ulp(c) == 10 by { assert Ulp(c / 10) == 1; }
    assert ContextRound(c) == c - 1;
    DestinationUnfold(a, r);
    assert DestinationAmount(a, r) == 1_000_000_500_001_000_100;
  }

  // ---------------------------------------------------------------- a quote, term by term

  /**
    A leg as the book prices it: sold at the row of its own direction if there is one, at mid less
    the sell spread; else bought at the row of the other direction, at one over mid plus the buy
    spread; each rounded once.
   */
  ghost predicate LegTerms(rates: Rates, source: Currency, destination: Currency, leg: LegPricing) {
    && leg.source == source && leg.destination == destination
    && if (source, destination) in rates then
         var row := rates[(source, destination)];
         && leg.side == Sell && leg.mid == row.mid && leg.spreadBps == row.sellBps && leg.snapshotId == row.snapshotId
         && leg.executable == RoundHalfEven(row.mid * (10_000 - row.sellBps), 10_000)
       else
         && (destination, source) in rates
         && var row := rates[(destination, source)];
            && leg.side == Buy && leg.mid == row.mid && leg.spreadBps == row.buyBps && leg.snapshotId == row.snapshotId
            && row.mid * (10_000 + row.buyBps) > 0
            && leg.executable == RoundHalfEven(1_000_000_000_000_000_000_000_000, row.mid * (10_000 + row.buyBps))
  }

  lemma FoundLegTerms(rates: Rates, source: Currency, destination: Currency)
    requires Keyed(rates) && source != destination
    ensures var row := FindCurrentRate(rates, source, destination);
            row.Some? && PriceLeg(row.value, source, destination).Ok? ==>
              LegTerms(rates, source, destination, PriceLeg(row.value, source, destination).value)
  {
    hide SellRate, BuyRate, RoundHalfEven;
    var row := FindCurrentRate(rates, source, destination);
    if row.Some? && PriceLeg(row.value, source, destination).Ok? {
      SellRateExact(row.value.mid, row.value.sellBps);
      if row.value.mid > 0 {
        BuyRateExact(row.value.mid, row.value.buyBps);
      }
    }
  }

  /** Everything in a quote, in terms of the book and the request. */
  lemma QuoteTerms(rates: Rates, source: Currency, destination: Currency, amount: Dec)
    requires Keyed(rates) && source != destination && amount.coeff > 0
    requires PriceQuote(rates, source, destination, amount).Ok?
    ensures var p := PriceQuote(rates, source, destination, amount).value;
            && IsRoute(rates, p.route, source, destination)
            && |p.legs| + 1 == |p.route|
            && (forall i :: 0 <= i < |p.legs| ==> LegTerms(rates, p.route[i], p.route[i + 1], p.legs[i]))
            && (|p.legs| == 1 ==>
                  p.rate == p.legs[0].executable && p.spreadBps == p.legs[0].spreadBps)
            && (|p.legs| == 2 ==>
                  && p.rate == RoundHalfEven(ContextTimes(p.legs[0].executable, p.legs[1].executable), 10_000_000_000)
                  && p.spreadBps == p.legs[0].spreadBps + p.legs[1].spreadBps)
            && p.sourceAmount == RoundHalfEven(amount.coeff * 100, Pow10(amount.places))
            && p.destinationAmount == RoundHalfEven(ContextTimes(p.sourceAmount, p.rate), 10_000_000_000)
  {
    hide RoundHalfEven, SellRate, BuyRate, PriceLeg, FindCurrentRate, LegTerms, ContextRound, DestinationAmount,
         QuoteRate, TotalBps, Reprices, RoundMoney;
    RouterCorrect(rates, source, destination);
    var p := PriceQuote(rates, source, destination, amount).value;
    forall i | 0 <= i < |p.legs|
      ensures LegTerms(rates, p.route[i], p.route[i + 1], p.legs[i]) && p.legs[i].executable <= NUMERIC_LIMIT
    {
      RoutedLegs(rates, p.route, i);
      FoundLegTerms(rates, p.route[i], p.route[i + 1]);
      PricedLegBounds(rates, p.route[i], p.route[i + 1]);
    }
    if |p.legs| == 1 {
      assert p.legs == [p.legs[0]];
      SingleLegRate(p.legs[0]);
      SpreadsAddUp(p.legs[0], p.legs[0]);
    } else {
      assert p.legs == [p.legs[0], p.legs[1]];
      TwoLegRate(p.legs[0], p.legs[1]);
      SpreadsAddUp(p.legs[0], p.legs[1]);
    }
    CentsAreNearest(amount);
    DestinationUnfold(p.sourceAmount, p.rate);
  }

  lemma PricedLegBounds(rates: Rates, source: Currency, destination: Currency)
    ensures var row := FindCurrentRate(rates, source, destination);
            row.Some? && PriceLeg(row.value, source, destination).Ok? ==>
              PriceLeg(row.value, source, destination).value.executable <= NUMERIC_LIMIT
  {
    hide SellRate, BuyRate;
    var row := FindCurrentRate(rates, source, destination);
    if row.Some? && PriceLeg(row.value, source, destination).Ok? {
      PricedLegReprices(row.value, source, destination);
      LegBounds(PriceLeg(row.value, source, destination).value);
    }
  }

  /** Rounding to cents, as one half-even rounding of the hundredfold. */
  lemma CentsAreNearest(d: Dec)
    ensures RoundMoney(d) == RoundHalfEven(d.coeff * 100, Pow10(d.places))
  {
    QuantizeIsRounding(d, MONEY_PLACES);
    assert Pow10(2) == 100;
  }

  // ---------------------------------------------------------------- monotone pricing

  lemma SellAntitone(mid: Mid, s: SellBps, s': SellBps)
    requires s <= s'
    ensures SellRate(mid, s') <= SellRate(mid, s)
  {
    hide SellRate, RoundHalfEven;
    SellRateExact(mid, s);
    SellRateExact(mid, s');
    MulLe(BASIS_POINTS - s', BASIS_POINTS - s, mid);
    RoundMonotone(mid * (BASIS_POINTS - s'), mid * (BASIS_POINTS - s), BASIS_POINTS);
  }

  lemma BuyAntitone(mid: Mid, b: BuyBps, b': BuyBps)
    requires mid > 0 && b <= b'
    ensures BuyRate(mid, b') <= BuyRate(mid, b)
  {
    hide BuyRate, RoundHalfEven;
    BuyRateExact(mid, b);
    BuyRateExact(mid, b');
    var p, p' := mid * (BASIS_POINTS + b), mid * (BASIS_POINTS + b');
    MulLe(BASIS_POINTS + b, BASIS_POINTS + b', mid);
    MulLe(p, p', TEN_24);
    RoundMonotoneRational(TEN_24, p', TEN_24, p);
  }

  lemma MulMonotone(a: nat, b: nat, c: nat, d: nat)
    requires a <= c && b <= d
    ensures a * b <= c * d
  {
    MulLe(a, c, b);
    MulLe(b, d, c);
  }

  lemma ContextProductMonotone(a: nat, b: nat, c: nat, d: nat)
    requires a <= c && b <= d
    ensures ContextTimes(a, b) <= ContextTimes(c, d)
  {
    MulMonotone(a, b, c, d);
    ContextMonotone(a * b, c * d);
  }

  /** Lower leg rates never compound to a higher rate. */
  lemma {:induction false} CompoundMonotone(legs: seq<LegPricing>, legs': seq<LegPricing>)
    requires |legs| == |legs'|
    requires forall i :: 0 <= i < |legs| ==> legs'[i].executable <= legs[i].executable
    ensures Compound(legs') <= Compound(legs)
  {
    if legs != [] {
      var n := |legs| - 1;
      CompoundMonotone(legs[..n], legs'[..n]);
      ContextProductMonotone(Compound(legs'[..n]), legs'[n].executable, Compound(legs[..n]), legs[n].executable);
    }
  }

  lemma QuantizeMonotone(a: int, b: int, places: nat, target: nat)
    requires a <= b
    ensures Quantize(Dec(a, places), target) <= Quantize(Dec(b, places), target)
  {
    if places <= target {
      MulLe(a, b, Pow10(target - places));
    } else {
      RoundMonotone(a, b, Pow10(places - target));
    }
  }

  lemma DestinationMonotone(s: nat, s': nat, r: nat, r': nat)
    requires s <= s' && r <= r'
    ensures DestinationAmount(s, r) <= DestinationAmount(s', r')
  {
    ContextProductMonotone(s, r, s', r');
    QuantizeMonotone(ContextTimes(s, r), ContextTimes(s', r'), MONEY_PLACES + RATE_PLACES, MONEY_PLACES);
  }

  lemma ScaleOrder(x: int, q: int, y: int, p: int, k: nat)
    requires x * q <= y * p
    ensures (x * k) * q <= (y * k) * p
  {
    MulLe(x * q, y * p, k);
    assert (x * k) * q == (x * q) * k && (y * k) * p == (y * p) * k;
  }

  lemma MoneyMonotone(a: Dec, b: Dec)
    requires a.coeff * Pow10(b.places) <= b.coeff * Pow10(a.places)
    ensures RoundMoney(a) <= RoundMoney(b)
  {
    QuantizeIsRounding(a, MONEY_PLACES);
    QuantizeIsRounding(b, MONEY_PLACES);
    assert Pow10(2) == 100;
    ScaleOrder(a.coeff, Pow10(b.places), b.coeff, Pow10(a.places), 100);
    RoundMonotoneRational(a.coeff * 100, Pow10(a.places), b.coeff * 100, Pow10(b.places));
  }

  /** The same book with no spread narrower. */
  ghost predicate WiderSpreads(rates: Rates, rates': Rates) {
    && rates.Keys == rates'.Keys
    && forall k <- rates ::
         && rates'[k].base == rates[k].base && rates'[k].quote == rates[k].quote
         && rates'[k].mid == rates[k].mid
         && rates[k].sellBps <= rates'[k].sellBps && rates[k].buyBps <= rates'[k].buyBps
  }

  lemma LegNeverImproves(rate: CurrentRate, rate': CurrentRate, source: Currency, destination: Currency)
    requires rate'.base == rate.base && rate'.quote == rate.quote && rate'.mid == rate.mid
    requires rate.sellBps <= rate'.sellBps && rate.buyBps <= rate'.buyBps
    ensures var r, r' := PriceLeg(rate, source, destination), PriceLeg(rate', source, destination);
            && (r.Ok? <==> r'.Ok?)
            && (r.Ok? ==> r'.value.executable <= r.value.executable)
  {
    if source == rate.base && destination == rate.quote {
      SellAntitone(rate.mid, rate.sellBps, rate'.sellBps);
    } else if source == rate.quote && destination == rate.base && rate.mid > 0 {
      BuyAntitone(rate.mid, rate.buyBps, rate'.buyBps);
    }
  }

  lemma {:induction false} LegsNeverImprove(rates: Rates, rates': Rates, route: seq<Currency>)
    requires WiderSpreads(rates, rates')
    ensures var r, r' := PriceLegs(rates, route), PriceLegs(rates', route);
            && (r.Ok? <==> r'.Ok?)
            && (r.Ok? ==> && |r'.value| == |r.value|
                          && forall i :: 0 <= i < |r.value| ==> r'.value[i].executable <= r.value[i].executable)
  {
    if |route| > 1 {
      var n := |route| - 1;
      LegsNeverImprove(rates, rates', route[..n]);
      var found := FindCurrentRate(rates, route[n - 1], route[n]);
      var found' := FindCurrentRate(rates', route[n - 1], route[n]);
      assert found.Some? <==> found'.Some?;
      if found.Some? {
        LegNeverImproves(found.value, found'.value, route[n - 1], route[n]);
      }
    }
  }

  /** The route depends on which pairs have a rate, not on the rates. */
  lemma SameRoute(rates: Rates, rates': Rates, source: Currency, destination: Currency)
    requires rates.Keys == rates'.Keys
    ensures BuildRoute(rates, source, destination) == BuildRoute(rates', source, destination)
  {
    assert forall a, b :: FindCurrentRate(rates, a, b).Some? <==> FindCurrentRate(rates', a, b).Some?;
    RouteViaShape(rates, source, destination);
    RouteViaShape(rates', source, destination);
    assert forall p :: Usable(rates, source, p, destination) <==> Usable(rates', source, p, destination);
  }

  /**
    Pricing is monotone: on any book, a larger amount never buys less, and the destination
    amount never rises when spreads grow.
   */
  lemma QuoteMonotone(rates: Rates, rates': Rates, source: Currency, destination: Currency, less: Dec, more: Dec)
    requires WiderSpreads(rates, rates')
    requires less.coeff > 0 && more.coeff > 0
    requires less.coeff * Pow10(more.places) <= more.coeff * Pow10(less.places)
    ensures var small := PriceQuote(rates', source, destination, less);
            var large := PriceQuote(rates, source, destination, more);
            && (small.Ok? <==> large.Ok?)
            && (large.Ok? ==> && small.value.rate <= large.value.rate
                              && small.value.sourceAmount <= large.value.sourceAmount
                              && small.value.destinationAmount <= large.value.destinationAmount)
  {
    SameRoute(rates, rates', source, destination);
    MoneyMonotone(less, more);
    var route := BuildRoute(rates, source, destination);
    if route.Some? {
      LegsNeverImprove(rates, rates', route.value);
      var legs, legs' := PriceLegs(rates, route.value), PriceLegs(rates', route.value);
      if legs.Ok? {
        CompoundMonotone(legs.value, legs'.value);
        QuantizeMonotone(Compound(legs'.value), Compound(legs.value), RATE_PLACES * |legs.value|, RATE_PLACES);
        DestinationMonotone(RoundMoney(less), RoundMoney(more), QuoteRate(legs'.value), QuoteRate(legs.value));
      }
    }
  }

  // ---------------------------------------------------------------- splitting an amount

  function Sum(amounts: seq<nat>): nat {
    if amounts == [] then 0 else Sum(amounts[..|amounts| - 1]) + amounts[|amounts| - 1]
  }

  function SumOfParts(amounts: seq<nat>, rate: nat): nat {
    if amounts == [] then 0
    else SumOfParts(amounts[..|amounts| - 1], rate) + DestinationAmount(amounts[|amounts| - 1], rate)
  }

  /**
    d cents stand for c units of 10^-12, up to n half-cents of rounding and up to the half unit
    in the 28th digit that the context may move the products they came from.
   */
  ghost predicate Near(d: int, c: int, n: nat) {
    var e := 2_000_000_000_000_000_000_000_000_000 * (10_000_000_000 * d - c);
    var slack := n * 10_000_000_000_000_000_000_000_000_000_000_000_000 + c;
    -slack <= e <= slack
  }

  lemma DestinationError(sourceAmount: nat, rate: nat)
    ensures Near(DestinationAmount(sourceAmount, rate), sourceAmount * rate, 1)
  {
    var c := sourceAmount * rate;
    DestinationUnfold(sourceAmount, rate);
    ContextError(c);
    RoundError(ContextRound(c), RATE_ONE);
  }

  lemma {:induction false} SumOfPartsError(amounts: seq<nat>, rate: nat)
    ensures Near(SumOfParts(amounts, rate), Sum(amounts) * rate, |amounts|)
  {
    if amounts != [] {
      var n := |amounts| - 1;
      hide DestinationAmount;
      SumOfPartsError(amounts[..n], rate);
      DestinationError(amounts[n], rate);
      Distribute(Sum(amounts[..n]), amounts[n], rate);
    }
  }

  lemma Distribute(x: int, y: int, k: int)
    ensures (x + y) * k == x * k + y * k
  {
  }

  /**
    Splitting an amount into any number of quotes at one rate changes the total received by at
    most half a cent per quote and half a cent for the whole, for every total that can be stored.
   */
  lemma SplittingNearlyAdditive(amounts: seq<nat>, rate: nat)
    requires FitsNumeric(DestinationAmount(Sum(amounts), rate))
    ensures var d := 2 * (SumOfParts(amounts, rate) - DestinationAmount(Sum(amounts), rate));
            -(|amounts| + 1) <= d <= |amounts| + 1
  {
    SumOfPartsError(amounts, rate);
    DestinationError(Sum(amounts), rate);
    assert Sum(amounts) * rate < 2 * NUMERIC_LIMIT * RATE_ONE;
  }
}
