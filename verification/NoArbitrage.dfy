/**
  Error bounds for compound rates, and the absence of arbitrage: at one book, no sequence of
  conversions gains more than the sum of explicit rounding terms.

  Rates are reals in units of 10^-10 here, amounts are cents.
 */
module NoArbitrage {
  import opened Money
  import opened Pricing
  import opened PricingLaws

  const UNIT: real := 10_000_000_000.0

  /** x units of 10^-10 as a number. */
  ghost function Scaled(x: real): real {
    x / 10_000_000_000.0
  }

  /** Half a unit in the last of 28 digits is at most this part of x. */
  ghost function ContextShare(x: real): real {
    x * 0.0000000000000000000000000005
  }

  // ---------------------------------------------------------------- leg rates

  /** The mid rate in the leg's direction, unrounded. */
  ghost function FairRate(leg: LegPricing): real
    requires leg.mid > 0
  {
    match leg.side
    case Sell => leg.mid as real
    case Buy => UNIT * UNIT / leg.mid as real
  }

  /** What the directional spread leaves of it. */
  ghost function SpreadFactor(leg: LegPricing): real
    requires leg.spreadBps <= BASIS_POINTS
  {
    match leg.side
    case Sell => (BASIS_POINTS - leg.spreadBps) as real / 10_000.0
    case Buy => 10_000.0 / (BASIS_POINTS + leg.spreadBps) as real
  }

  ghost predicate Tradable(leg: LegPricing) {
    Reprices(leg) && leg.mid > 0
  }

  ghost function UnroundedRate(leg: LegPricing): real
    requires leg.mid > 0 && leg.spreadBps <= BASIS_POINTS
  {
    FairRate(leg) * SpreadFactor(leg)
  }

  lemma RealMulLt(a: real, b: real, k: real)
    requires a < b && 0.0 < k
    ensures a * k < b * k
  {
  }

  lemma RealMulLe(a: real, b: real, k: real)
    requires a <= b && 0.0 <= k
    ensures a * k <= b * k
  {
  }

  lemma RealProduct(a: int, b: int)
    ensures (a * b) as real == a as real * b as real
  {
  }

  lemma QuotientOfProduct(a: real, b: real, x: real, y: real)
    requires x > 0.0 && y > 0.0
    ensures x * y > 0.0 && (a / x) * (b / y) == (a * b) / (x * y)
  {
    var u, v := a / x, b / y;
    assert u * x == a && v * y == b;
    assert (u * v) * (x * y) == (u * x) * (v * y);
  }

  /** Half-even rounding stays within half a unit of the quotient. */
  lemma RoundWithinHalf(num: int, den: int)
    requires den > 0
    ensures num as real / den as real - 0.5 <= RoundHalfEven(num, den) as real <= num as real / den as real + 0.5
  {
    hide RoundHalfEven;
    var q := RoundHalfEven(num, den);
    RoundError(num, den);
    RealProduct(q, den);
    var w := q * den;
    assert -(den as real) <= 2.0 * (w as real) - 2.0 * (num as real) <= den as real;
    QuotientWithinHalf(q as real, num as real, den as real);
  }

  lemma QuotientWithinHalf(q: real, n: real, d: real)
    requires d > 0.0 && -d <= 2.0 * (q * d) - 2.0 * n <= d
    ensures n / d - 0.5 <= q <= n / d + 0.5
  {
    var x := n / d;
    assert x * d == n;
    if q > x + 0.5 {
      RealMulLt(x + 0.5, q, d);
    }
    if q < x - 0.5 {
      RealMulLt(q, x - 0.5, d);
    }
  }

  lemma SellRateError(m: Mid, s: SellBps)
    ensures var y := m as real * ((BASIS_POINTS - s) as real / 10_000.0);
            y - 0.5 <= SellRate(m, s) as real <= y + 0.5
  {
    hide SellRate, RoundHalfEven;
    SellRateExact(m, s);
    RoundWithinHalf(m * (BASIS_POINTS - s), BASIS_POINTS);
    RealProduct(m, BASIS_POINTS - s);
  }

  lemma BuyRateError(m: Mid, b: BuyBps)
    requires m > 0
    ensures var y := (UNIT * UNIT / m as real) * (10_000.0 / (BASIS_POINTS + b) as real);
            y - 0.5 <= BuyRate(m, b) as real <= y + 0.5
  {
    hide BuyRate, RoundHalfEven;
    BuyRateExact(m, b);
    RoundWithinHalf(TEN_24, m * (BASIS_POINTS + b));
    RealProduct(m, BASIS_POINTS + b);
    QuotientOfProduct(UNIT * UNIT, 10_000.0, m as real, (BASIS_POINTS + b) as real);
  }

  /** A leg's stored rate is within half a quantum of mid rate times spread factor. */
  lemma LegRateError(leg: LegPricing)
    requires Tradable(leg)
    ensures UnroundedRate(leg) - 0.5 <= leg.executable as real <= UnroundedRate(leg) + 0.5
  {
    hide SellRate, BuyRate;
    match leg.side
    case Sell => SellRateError(leg.mid, leg.spreadBps);
    case Buy => BuyRateError(leg.mid, leg.spreadBps);
  }

  lemma FactorAtMostOne(leg: LegPricing)
    requires leg.spreadBps <= BASIS_POINTS
    ensures 0.0 <= SpreadFactor(leg) <= 1.0
  {
  }

  lemma FairRatePositive(leg: LegPricing)
    requires leg.mid > 0
    ensures 0.0 < FairRate(leg)
  {
  }

  lemma SpreadsOnlyCost(leg: LegPricing)
    requires leg.mid > 0 && leg.spreadBps <= BASIS_POINTS
    ensures 0.0 <= UnroundedRate(leg) <= FairRate(leg)
  {
    hide SpreadFactor, FairRate;
    FactorAtMostOne(leg);
    FairRatePositive(leg);
    RealMulLe(0.0, SpreadFactor(leg), FairRate(leg));
    RealMulLe(SpreadFactor(leg), 1.0, FairRate(leg));
  }

  // ---------------------------------------------------------------- compound rates

  /** The context's relative error, over the reals. */
  lemma ContextRelativeError(c: nat)
    ensures var x, t := c as real, ContextRound(c) as real;
            x - ContextShare(x) <= t <= x + ContextShare(x)
  {
    hide ContextRound;
    ContextError(c);
    if c >= TEN_28 {
      assert 2_000_000_000_000_000_000_000_000_000 * (ContextRound(c) - c) <= c;
      assert 2_000_000_000_000_000_000_000_000_000 * (c - ContextRound(c)) <= c;
    }
  }

  /** The largest deviation two rounded legs, the context and the final rounding can add up to. */
  ghost function CompoundSlack(y1: real, y2: real): real {
    0.5 + Scaled((y1 + y2) / 2.0 + 0.25) + Scaled(ContextShare((y1 + 0.5) * (y2 + 0.5)))
  }

  lemma ProductAbove(r1: real, r2: real, z1: real, z2: real)
    requires 0.0 <= r2 && 0.0 <= z1 && r1 <= z1 && r2 <= z2
    ensures r1 * r2 <= z1 * z2
  {
    RealMulLe(r1, z1, r2);
    RealMulLe(r2, z2, z1);
  }

  lemma ProductBelow(r1: real, r2: real, y1: real, y2: real)
    requires 0.0 <= r2 <= y2 + 0.5 && 0.0 <= y1
    requires y1 - 0.5 <= r1 && y2 - 0.5 <= r2
    ensures r1 * r2 >= y1 * y2 - (y1 + y2) / 2.0 - 0.25
  {
    BelowInSteps(r1, r2, y1, y2);
  }

  /** A product the solver sees as one number. */
  ghost function Times(a: real, b: real): real {
    a * b
  }

  lemma BelowInSteps(r1: real, r2: real, y1: real, y2: real)
    requires 0.0 <= r2 <= y2 + 0.5 && 0.0 <= y1
    requires y1 - 0.5 <= r1 && y2 - 0.5 <= r2
    ensures Times(r1, r2) >= Times(y1, y2) - (y1 + y2) / 2.0 - 0.25
  {
    hide Times;
    HalfBelow(r1, y1, r2);
    HalfBelow(r2, y2, y1);
  }

  lemma HalfBelow(r: real, y: real, k: real)
    requires y - 0.5 <= r && 0.0 <= k
    ensures Times(r, k) >= Times(y, k) - k / 2.0
    ensures Times(r, k) == Times(k, r) && Times(y, k) == Times(k, y)
  {
    RealMulLe(y - 0.5, r, k);
  }

  /**
    The executable rate of a routed quote differs from the unrounded compound of mid rates and
    directional spreads by at most an explicit function of the leg rates and the quantum.
   */
  lemma CompoundRateError(first: LegPricing, second: LegPricing)
    requires Tradable(first) && Tradable(second)
    ensures var y1, y2 := UnroundedRate(first), UnroundedRate(second);
            Scaled(y1 * y2) - CompoundSlack(y1, y2)
              <= QuoteRate([first, second]) as real
              <= Scaled(y1 * y2) + CompoundSlack(y1, y2)
  {
    hide SellRate, BuyRate, QuoteRate, RoundHalfEven, ContextTimes, UnroundedRate, CompoundSlack, FairRate;
    LegBounds(first);
    TwoLegRate(first, second);
    LegRateError(first);
    LegRateError(second);
    SpreadsOnlyCost(first);
    SpreadsOnlyCost(second);
    CompoundError(first.executable, second.executable, UnroundedRate(first), UnroundedRate(second),
                  QuoteRate([first, second]));
  }

  lemma CompoundError(r1: nat, r2: nat, y1: real, y2: real, rate: nat)
    requires 0.0 <= y1 && 0.0 <= y2
    requires y1 - 0.5 <= r1 as real <= y1 + 0.5 && y2 - 0.5 <= r2 as real <= y2 + 0.5
    requires rate == RoundHalfEven(ContextTimes(r1, r2), RATE_ONE)
    ensures Scaled(y1 * y2) - CompoundSlack(y1, y2) <= rate as real <= Scaled(y1 * y2) + CompoundSlack(y1, y2)
  {
    hide RoundHalfEven, ContextRound, CompoundSlack, ContextShare;
    ProductAbove(r1 as real, r2 as real, y1 + 0.5, y2 + 0.5);
    ProductBelow(r1 as real, r2 as real, y1, y2);
    RealProduct(r1, r2);
    ContextRelativeError(r1 * r2);
    RoundWithinHalf(ContextTimes(r1, r2), RATE_ONE);
    AddUp(r1 as real * r2 as real, ContextTimes(r1, r2) as real, rate as real, y1, y2);
  }

  lemma AddUp(p: real, t: real, rate: real, y1: real, y2: real)
    requires y1 * y2 - (y1 + y2) / 2.0 - 0.25 <= p <= (y1 + 0.5) * (y2 + 0.5)
    requires p - ContextShare(p) <= t <= p + ContextShare(p)
    requires Scaled(t) - 0.5 <= rate <= Scaled(t) + 0.5
    ensures Scaled(y1 * y2) - CompoundSlack(y1, y2) <= rate <= Scaled(y1 * y2) + CompoundSlack(y1, y2)
  {
    TopProduct(y1, y2);
  }

  lemma TopProduct(y1: real, y2: real)
    ensures (y1 + 0.5) * (y2 + 0.5) == y1 * y2 + (y1 + y2) / 2.0 + 0.25
  {
    assert (y1 + 0.5) * (y2 + 0.5) == y1 * (y2 + 0.5) + 0.5 * (y2 + 0.5);
    assert y1 * (y2 + 0.5) == y1 * y2 + y1 * 0.5;
  }

  // ---------------------------------------------------------------- one trade

  /** The legs of a direct or a two-hop quote. */
  ghost predicate TradableLegs(legs: seq<LegPricing>) {
    1 <= |legs| <= 2 && forall i :: 0 <= i < |legs| ==> Tradable(legs[i])
  }

  /** The mid cross rate. */
  ghost function MidRate(legs: seq<LegPricing>): real
    requires TradableLegs(legs)
  {
    if |legs| == 1 then FairRate(legs[0]) else Scaled(FairRate(legs[0]) * FairRate(legs[1]))
  }

  /** The mid cross rate compounded with the directional spreads, and nothing rounded. */
  ghost function SpreadRate(legs: seq<LegPricing>): real
    requires TradableLegs(legs)
  {
    if |legs| == 1 then UnroundedRate(legs[0]) else Scaled(UnroundedRate(legs[0]) * UnroundedRate(legs[1]))
  }

  /** How far rounding can lift the executable rate above the spread rate. */
  ghost function RateSlack(legs: seq<LegPricing>): real
    requires TradableLegs(legs)
  {
    if |legs| == 1 then 0.5 else CompoundSlack(FairRate(legs[0]), FairRate(legs[1]))
  }

  lemma SlackMonotone(y1: real, y2: real, z1: real, z2: real)
    requires 0.0 <= y1 <= z1 && 0.0 <= y2 <= z2
    ensures CompoundSlack(y1, y2) <= CompoundSlack(z1, z2)
    ensures Scaled(y1 * y2) <= Scaled(z1 * z2)
  {
    ProductAbove(y1, y2, z1, z2);
    ProductAbove(y1 + 0.5, y2 + 0.5, z1 + 0.5, z2 + 0.5);
  }

  /** The executable rate exceeds the mid cross rate only by the rounding slack. */
  lemma RateCap(legs: seq<LegPricing>)
    requires TradableLegs(legs)
    ensures QuoteRate(legs) as real <= SpreadRate(legs) + RateSlack(legs)
    ensures SpreadRate(legs) <= MidRate(legs)
  {
    hide SellRate, BuyRate, QuoteRate, UnroundedRate, CompoundSlack, FairRate;
    var first := legs[0];
    LegBounds(first);
    SpreadsOnlyCost(first);
    if |legs| == 1 {
      assert legs == [first];
      SingleLegRate(first);
      LegRateError(first);
    } else {
      var second := legs[1];
      assert legs == [first, second];
      SpreadsOnlyCost(second);
      CompoundRateError(first, second);
      SlackMonotone(UnroundedRate(first), UnroundedRate(second), FairRate(first), FairRate(second));
    }
  }

  /** The most cents a source amount can buy at a rate. */
  lemma DestinationCap(sourceAmount: nat, rate: nat)
    ensures var x := Scaled(sourceAmount as real * rate as real);
            DestinationAmount(sourceAmount, rate) as real <= x + ContextShare(x) + 0.5
  {
    hide DestinationAmount;
    DestinationError(sourceAmount, rate);
    RealProduct(sourceAmount, rate);
    var c, d := sourceAmount * rate, DestinationAmount(sourceAmount, rate);
    assert 20_000_000_000_000_000_000_000_000_000_000_000_000 * d
        <= 10_000_000_000_000_000_000_000_000_000_000_000_000 + 2_000_000_000_000_000_000_000_000_001 * c;
  }

  /**
    What a trade can gain in USD mid-value, in cents: the cost of the spread (rate against mid)
    against half a cent and the context's share, all at the destination's weight.
   */
  ghost function GainCap(sourceAmount: nat, mid: real, rate: real, weight: real): real {
    weight * (Scaled(sourceAmount as real * (rate - mid)) + ContextShare(Scaled(sourceAmount as real * rate)) + 0.5)
  }

  lemma GainBound(sourceAmount: nat, rate: nat, cap: real, mid: real, sourceWeight: real, weight: real)
    requires rate as real <= cap && 0.0 < weight
    requires mid * weight == UNIT * sourceWeight
    ensures DestinationAmount(sourceAmount, rate) as real * weight - sourceAmount as real * sourceWeight
         <= GainCap(sourceAmount, mid, cap, weight)
  {
    hide DestinationAmount;
    DestinationCap(sourceAmount, rate);
    var s, r, d := sourceAmount as real, rate as real, DestinationAmount(sourceAmount, rate) as real;
    RealMulLe(r, cap, s);
    var x, y := Scaled(s * r), Scaled(s * cap);
    assert d <= y + ContextShare(y) + 0.5;
    RealMulLe(d, y + ContextShare(y) + 0.5, weight);
    SourceValue(s, mid, sourceWeight, weight);
    assert s * (cap - mid) == s * cap - s * mid;
    GainAlgebra(y, ContextShare(y), Scaled(s * mid), weight);
  }

  lemma SourceValue(s: real, mid: real, sourceWeight: real, weight: real)
    requires mid * weight == UNIT * sourceWeight
    ensures s * sourceWeight == Scaled(s * mid) * weight
  {
    assert (s * mid) * weight == s * (UNIT * sourceWeight);
    assert (s * mid) / 10_000_000_000.0 * weight == ((s * mid) * weight) / 10_000_000_000.0;
  }

  lemma GainAlgebra(y: real, k: real, m: real, weight: real)
    ensures (y + k + 0.5) * weight - m * weight == weight * ((y - m) + k + 0.5)
  {
  }

  // ---------------------------------------------------------------- a star-shaped book

  /** The book every refresh leaves: the canonical pairs, with usable mid rates. */
  ghost predicate Star(rates: Rates) {
    && Keyed(rates)
    && rates.Keys == CANONICAL
    && forall k <- rates :: rates[k].mid > 0
  }

  /** The USD mid-value of one unit of a currency. */
  ghost function Weight(rates: Rates, c: Currency): real
    requires Star(rates)
  {
    if c == USD then 1.0
    else
      assert (USD, c) in CANONICAL;
      UNIT / rates[(USD, c)].mid as real
  }

  lemma FairRateOf(leg: LegPricing)
    requires leg.mid > 0
    ensures leg.side == Sell ==> FairRate(leg) * (UNIT / leg.mid as real) == UNIT
    ensures leg.side == Buy ==> FairRate(leg) == UNIT * (UNIT / leg.mid as real)
  {
  }

  /** On a star a leg's mid rate is the ratio of the weights. */
  lemma LegWeights(rates: Rates, source: Currency, destination: Currency)
    requires Star(rates) && source != destination && (source == USD || destination == USD)
    ensures FindCurrentRate(rates, source, destination).Some?
    ensures var leg := PriceLeg(FindCurrentRate(rates, source, destination).value, source, destination);
            && leg.Ok? && Tradable(leg.value)
            && FairRate(leg.value) * Weight(rates, destination) == UNIT * Weight(rates, source)
  {
    hide SellRate, BuyRate, FairRate;
    var other := if source == USD then destination else source;
    assert (USD, other) in CANONICAL && (other, USD) !in CANONICAL;
    var row := rates[(USD, other)];
    assert FindCurrentRate(rates, source, destination) == Some(row);
    PricedLegReprices(row, source, destination);
    FairRateOf(PriceLeg(row, source, destination).value);
  }

  /** Every pair quotes on a star: directly against USD, through USD otherwise. */
  lemma StarQuotes(rates: Rates, source: Currency, destination: Currency)
    requires Star(rates) && source != destination
    ensures BuildRoute(rates, source, destination)
         == Some(if source == USD || destination == USD then [source, destination] else [source, USD, destination])
  {
    assert forall a, b :: FindCurrentRate(rates, a, b).Some? <==> (a, b) in CANONICAL || (b, a) in CANONICAL;
    RouteViaShape(rates, source, destination);
  }

  /** A star prices every route it finds, with legs worth the ratio of the weights at mid. */
  lemma StarLegs(rates: Rates, source: Currency, destination: Currency, amount: Dec)
    requires Star(rates) && source != destination && amount.coeff > 0
    ensures var r := PriceQuote(rates, source, destination, amount);
            && r.Ok? && TradableLegs(r.value.legs)
            && MidRate(r.value.legs) * Weight(rates, destination) == UNIT * Weight(rates, source)
            && r.value.rate == QuoteRate(r.value.legs)
            && r.value.destinationAmount == DestinationAmount(r.value.sourceAmount, r.value.rate)
            && r.value.sourceAmount == RoundMoney(amount)
  {
    hide QuoteRate, DestinationAmount, RoundMoney, FairRate, PriceLeg, Weight, Reprices, FindCurrentRate,
         BuildRoute, PriceLegs, TotalBps;
    StarQuotes(rates, source, destination);
    var route := BuildRoute(rates, source, destination).value;
    StarRouted(rates, route);
    LegsNeverMismatch(rates, route);
    var legs := PriceLegs(rates, route).value;
    RoutedLegs(rates, route, 0);
    LegWeights(rates, route[0], route[1]);
    if |route| == 3 {
      RoutedLegs(rates, route, 1);
      LegWeights(rates, route[1], route[2]);
      ChainWeights(FairRate(legs[0]), FairRate(legs[1]),
                   Weight(rates, source), Weight(rates, USD), Weight(rates, destination));
    }
  }

  lemma StarRouted(rates: Rates, route: seq<Currency>)
    requires Star(rates)
    requires forall i :: 0 <= i < |route| - 1 ==> route[i] != route[i + 1] && (route[i] == USD || route[i + 1] == USD)
    ensures Routed(rates, route) && !SomeHopInvertsZero(rates, route)
  {
    forall i | 0 <= i < |route| - 1
      ensures HasRate(rates, route[i], route[i + 1])
    {
      assert (route[i], route[i + 1]) in CANONICAL || (route[i + 1], route[i]) in CANONICAL;
    }
  }

  lemma ChainWeights(f: real, g: real, ws: real, wu: real, wd: real)
    requires f * wu == UNIT * ws && g * wd == UNIT * wu
    ensures Scaled(f * g) * wd == UNIT * ws
  {
    assert (f * g) * wd == f * (g * wd) == f * (UNIT * wu) == UNIT * (f * wu);
    assert (f * g) / 10_000_000_000.0 * wd == ((f * g) * wd) / 10_000_000_000.0;
  }

  // ---------------------------------------------------------------- runs of trades

  datatype Holdings = Holdings(usd: int, eur: int, kes: int, ngn: int) {
    function Add(c: Currency, cents: int): Holdings {
      match c
      case USD => this.(usd := usd + cents)
      case EUR => this.(eur := eur + cents)
      case KES => this.(kes := kes + cents)
      case NGN => this.(ngn := ngn + cents)
    }

    /** USD mid-value, in cents. */
    ghost function Value(rates: Rates): real
      requires Star(rates)
    {
      usd as real * Weight(rates, USD) + eur as real * Weight(rates, EUR)
      + kes as real * Weight(rates, KES) + ngn as real * Weight(rates, NGN)
    }
  }

  lemma ValueAdd(rates: Rates, h: Holdings, c: Currency, cents: int)
    requires Star(rates)
    ensures h.Add(c, cents).Value(rates) == h.Value(rates) + cents as real * Weight(rates, c)
  {
    hide Weight;
    var w := Weight(rates, c);
    var held := match c case USD => h.usd case EUR => h.eur case KES => h.kes case NGN => h.ngn;
    assert (held + cents) as real * w == held as real * w + cents as real * w;
  }

  datatype Trade = Trade(source: Currency, destination: Currency, amount: nat)

  ghost predicate ValidTrade(t: Trade) {
    t.source != t.destination && t.amount > 0
  }

  /** The engine's quote for a trade. */
  ghost function Quoted(rates: Rates, t: Trade): PricedQuote
    requires Star(rates) && ValidTrade(t)
  {
    StarLegs(rates, t.source, t.destination, Dec(t.amount, MONEY_PLACES));
    PriceQuote(rates, t.source, t.destination, Dec(t.amount, MONEY_PLACES)).value
  }

  /** Executing the quote: debit the source, credit the destination. */
  ghost function Execute(rates: Rates, h: Holdings, t: Trade): Holdings
    requires Star(rates) && ValidTrade(t)
  {
    h.Add(t.source, -(t.amount as int)).Add(t.destination, Quoted(rates, t).destinationAmount)
  }

  /**
    The most that rounding can hand the customer on this trade, in USD cents at mid: the rate's
    slack on the amount, the context's share, and half a cent of the destination.
   */
  ghost function RoundingTerm(rates: Rates, t: Trade): real
    requires Star(rates) && ValidTrade(t)
  {
    StarLegs(rates, t.source, t.destination, Dec(t.amount, MONEY_PLACES));
    var legs := Quoted(rates, t).legs;
    Weight(rates, t.destination)
    * (Scaled(t.amount as real * RateSlack(legs))
       + ContextShare(Scaled(t.amount as real * (MidRate(legs) + RateSlack(legs))))
       + 0.5)
  }

  lemma WeightPositive(rates: Rates, c: Currency)
    requires Star(rates)
    ensures Weight(rates, c) > 0.0
  {
    if c != USD {
      assert (USD, c) in CANONICAL;
    }
  }

  /** Each executed quote changes the USD mid-value by at most its gain cap. */
  lemma TradeGain(rates: Rates, h: Holdings, t: Trade, cap: real)
    requires Star(rates) && ValidTrade(t)
    requires Quoted(rates, t).rate as real <= cap
    ensures var legs := Quoted(rates, t).legs;
            && TradableLegs(legs)
            && Execute(rates, h, t).Value(rates) - h.Value(rates)
               <= GainCap(t.amount, MidRate(legs), cap, Weight(rates, t.destination))
  {
    hide PriceQuote, DestinationAmount, GainCap, Weight, MidRate, RoundMoney, QuoteRate;
    StarLegs(rates, t.source, t.destination, Dec(t.amount, MONEY_PLACES));
    RoundMoneyIdentity(t.amount);
    var q := Quoted(rates, t);
    WeightPositive(rates, t.destination);
    GainBound(t.amount, q.rate, cap, MidRate(q.legs), Weight(rates, t.source), Weight(rates, t.destination));
    ValueAdd(rates, h, t.source, -(t.amount as int));
    ValueAdd(rates, h.Add(t.source, -(t.amount as int)), t.destination, q.destinationAmount);
    NegateProduct(t.amount, Weight(rates, t.source));
  }

  lemma NegateProduct(a: int, w: real)
    ensures (-a) as real * w == -(a as real * w)
  {
  }

  lemma TradeGainsAtMostRounding(rates: Rates, h: Holdings, t: Trade)
    requires Star(rates) && ValidTrade(t)
    ensures Execute(rates, h, t).Value(rates) <= h.Value(rates) + RoundingTerm(rates, t)
  {
    hide PriceQuote, GainCap, Weight, QuoteRate, Execute, MidRate, SpreadRate, RateSlack, Tradable, RoundingTerm;
    StarLegs(rates, t.source, t.destination, Dec(t.amount, MONEY_PLACES));
    var legs := Quoted(rates, t).legs;
    RateCap(legs);
    TradeGain(rates, h, t, MidRate(legs) + RateSlack(legs));
    TermIsCap(rates, t);
  }

  /** The rounding term is the gain cap at a rate that exceeds mid by the slack. */
  lemma TermIsCap(rates: Rates, t: Trade)
    requires Star(rates) && ValidTrade(t)
    ensures var legs := Quoted(rates, t).legs;
            && TradableLegs(legs)
            && RoundingTerm(rates, t)
               == GainCap(t.amount, MidRate(legs), MidRate(legs) + RateSlack(legs), Weight(rates, t.destination))
  {
    hide PriceQuote, GainCap, Weight, QuoteRate, MidRate, RateSlack, Tradable;
    StarLegs(rates, t.source, t.destination, Dec(t.amount, MONEY_PLACES));
    var legs := Quoted(rates, t).legs;
    CapAtMid(t.amount, MidRate(legs), RateSlack(legs), Weight(rates, t.destination));
  }

  lemma CapAtMid(amount: nat, mid: real, slack: real, weight: real)
    ensures GainCap(amount, mid, mid + slack, weight)
         == weight * (Scaled(amount as real * slack) + ContextShare(Scaled(amount as real * (mid + slack))) + 0.5)
  {
    assert mid + slack - mid == slack;
  }

  ghost function ExecuteAll(rates: Rates, h: Holdings, trades: seq<Trade>): Holdings
    requires Star(rates) && forall t <- trades :: ValidTrade(t)
  {
    if trades == [] then h
    else Execute(rates, ExecuteAll(rates, h, trades[..|trades| - 1]), trades[|trades| - 1])
  }

  ghost function TotalRounding(rates: Rates, trades: seq<Trade>): real
    requires Star(rates) && forall t <- trades :: ValidTrade(t)
  {
    if trades == [] then 0.0
    else TotalRounding(rates, trades[..|trades| - 1]) + RoundingTerm(rates, trades[|trades| - 1])
  }

  /**
    No arbitrage: however many conversions are strung together at one book, round trips and
    longer cycles included, the USD mid-value of the holdings grows by no more than the sum of
    the rounding terms of the trades.
   */
  lemma {:induction false} NoArbitrage(rates: Rates, h: Holdings, trades: seq<Trade>)
    requires Star(rates) && forall t <- trades :: ValidTrade(t)
    ensures ExecuteAll(rates, h, trades).Value(rates) <= h.Value(rates) + TotalRounding(rates, trades)
  {
    hide Execute, RoundingTerm;
    if trades != [] {
      var n := |trades| - 1;
      NoArbitrage(rates, h, trades[..n]);
      TradeGainsAtMostRounding(rates, ExecuteAll(rates, h, trades[..n]), trades[n]);
    }
  }
}
