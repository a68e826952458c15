/**
  Quote pricing: the rate book, the router, one leg, and a whole quote.
 */
module Pricing {
  import opened Money

  const BASIS_POINTS: nat := 10_000

  // Directional spreads in basis points, as the settings and `current_rates` hold them.
  type SellBps = s: nat | s < BASIS_POINTS
  type BuyBps = b: nat | b <= BASIS_POINTS

  // A NUMERIC(20,10) mid rate. A provider rate below half a quantum is stored as zero.
  type Mid = m: nat | m < NUMERIC_LIMIT

  type Pair = (Currency, Currency)

  /** One row of `current_rates`. */
  datatype CurrentRate = CurrentRate(
    base: Currency, quote: Currency, mid: Mid, buyBps: BuyBps, sellBps: SellBps,
    snapshotId: nat, lastUpdatedAt: int)

  type Rates = map<Pair, CurrentRate>

  datatype RateBook = RateBook(rates: Rates, lastUpdatedAt: Option<int>)

  datatype QuoteError =
    | SameCurrency | CustomerNotFound | RatesUnavailable | RatesStale
    | NoRoute | RateMissing | DirectionMismatch | DivisionByZero | NumericOverflow

  datatype Result<T> = Ok(value: T) | Err(error: QuoteError)

  datatype Side = Buy | Sell

  datatype LegPricing = LegPricing(
    source: Currency, destination: Currency, mid: Mid, executable: nat,
    spreadBps: nat, side: Side, snapshotId: nat)

  /** The pairs every refresh stores: a star around the dollar. */
  const CANONICAL: set<Pair> := {(USD, KES), (USD, NGN), (USD, EUR)}

  /** The book is a dictionary built from the rows, each under its own pair. */
  ghost predicate Keyed(rates: Rates) {
    forall k <- rates :: rates[k].base == k.0 && rates[k].quote == k.1
  }

  // ---------------------------------------------------------------- routing

  function FindCurrentRate(rates: Rates, source: Currency, destination: Currency): Option<CurrentRate> {
    if (source, destination) in rates then Some(rates[(source, destination)])
    else if (destination, source) in rates then Some(rates[(destination, source)])
    else None
  }

  const PIVOTS: seq<Currency> := [USD, EUR]

  function RouteVia(
      rates: Rates, source: Currency, destination: Currency, pivots: seq<Currency>): Option<seq<Currency>> {
    if pivots == [] then None
    else
      var pivot := pivots[0];
      if pivot != source && pivot != destination
         && FindCurrentRate(rates, source, pivot).Some? && FindCurrentRate(rates, pivot, destination).Some?
      then Some([source, pivot, destination])
      else RouteVia(rates, source, destination, pivots[1..])
  }

  function BuildRoute(rates: Rates, source: Currency, destination: Currency): Option<seq<Currency>> {
    if FindCurrentRate(rates, source, destination).Some? then Some([source, destination])
    else RouteVia(rates, source, destination, PIVOTS)
  }

  // ---------------------------------------------------------------- one leg

  function SellRate(mid: Mid, sellBps: SellBps): nat {
    RoundRate(Dec(ContextTimes(mid, BASIS_POINTS - sellBps), 14))
  }

  function BuyRate(mid: Mid, buyBps: BuyBps): nat
    requires mid > 0
  {
    PricedMidBounds(mid, buyBps);
    RoundRate(ContextQuotient(100_000_000_000_000, ContextTimes(mid, BASIS_POINTS + buyBps)))
  }

  lemma PricedMidBounds(mid: Mid, buyBps: BuyBps)
    requires mid > 0
    ensures var priced := mid * (BASIS_POINTS + buyBps);
            BASIS_POINTS <= priced < TEN_28 && ContextRound(priced) == priced
  {
    var k := BASIS_POINTS + buyBps;
    MulLe(1, mid, k);
    MulLe(k, 2 * BASIS_POINTS, mid);
    ContextExact(mid * k);
  }

  function PriceLeg(rate: CurrentRate, source: Currency, destination: Currency): Result<LegPricing> {
    if source == rate.base && destination == rate.quote then
      Ok(LegPricing(source, destination, rate.mid, SellRate(rate.mid, rate.sellBps),
                    rate.sellBps, Sell, rate.snapshotId))
    else if source == rate.quote && destination == rate.base then
      if rate.mid == 0 then Err(DivisionByZero)
      else Ok(LegPricing(source, destination, rate.mid, BuyRate(rate.mid, rate.buyBps),
                         rate.buyBps, Buy, rate.snapshotId))
    else Err(DirectionMismatch)
  }

  // ---------------------------------------------------------------- a whole quote

  /** The legs of a route, priced hop by hop; the first failure wins. */
  function PriceLegs(rates: Rates, route: seq<Currency>): (r: Result<seq<LegPricing>>)
    ensures r.Ok? && |route| > 0 ==> |r.value| == |route| - 1
  {
    if |route| <= 1 then Ok([])
    else
      var n := |route| - 1;
      match PriceLegs(rates, route[..n])
      case Err(e) => Err(e)
      case Ok(legs) =>
        match FindCurrentRate(rates, route[n - 1], route[n])
        case None => Err(RateMissing)
        case Some(rate) =>
          match PriceLeg(rate, route[n - 1], route[n])
          case Err(e) => Err(e)
          case Ok(leg) => Ok(legs + [leg])
  }

  /** The errors pricing a route can end in, on any book. */
  lemma {:induction false} LegErrors(rates: Rates, route: seq<Currency>)
    ensures PriceLegs(rates, route).Err? ==>
              PriceLegs(rates, route).error in {RateMissing, DirectionMismatch, DivisionByZero}
  {
    if |route| > 1 {
      LegErrors(rates, route[..|route| - 1]);
    }
  }

  /** The running product of leg rates, at 10 decimal places per leg, each step in the context. */
  function Compound(legs: seq<LegPricing>): nat {
    if legs == [] then 1
    else ContextTimes(Compound(legs[..|legs| - 1]), legs[|legs| - 1].executable)
  }

  function QuoteRate(legs: seq<LegPricing>): nat {
    RoundRate(Dec(Compound(legs), RATE_PLACES * |legs|))
  }

  function TotalBps(legs: seq<LegPricing>): nat {
    if legs == [] then 0
    else TotalBps(legs[..|legs| - 1]) + legs[|legs| - 1].spreadBps
  }

  function DestinationAmount(sourceAmount: nat, rate: nat): nat {
    RoundMoney(Dec(ContextTimes(sourceAmount, rate), MONEY_PLACES + RATE_PLACES))
  }

  datatype PricedQuote = PricedQuote(
    route: seq<Currency>, legs: seq<LegPricing>, rate: nat, spreadBps: nat,
    sourceAmount: nat, destinationAmount: nat)

  /** Route, legs, compound rate and amounts. The request schema only lets positive amounts in. */
  function PriceQuote(rates: Rates, source: Currency, destination: Currency, amount: Dec): Result<PricedQuote>
    requires amount.coeff > 0
  {
    match BuildRoute(rates, source, destination)
    case None => Err(NoRoute)
    case Some(route) =>
      match PriceLegs(rates, route)
      case Err(e) => Err(e)
      case Ok(legs) =>
        var sourceAmount := RoundMoney(amount);
        var rate := QuoteRate(legs);
        Ok(PricedQuote(route, legs, rate, TotalBps(legs), sourceAmount, DestinationAmount(sourceAmount, rate)))
  }

  // ---------------------------------------------------------------- router correctness

  ghost predicate HasRate(rates: Rates, a: Currency, b: Currency) {
    (a, b) in rates || (b, a) in rates
  }

  /** What a route is, independently of how the router searches. */
  ghost predicate IsRoute(rates: Rates, route: seq<Currency>, source: Currency, destination: Currency) {
    && 2 <= |route| <= 3
    && route[0] == source && route[|route| - 1] == destination
    && (forall i, j :: 0 <= i < j < |route| ==> route[i] != route[j])
    && (forall i :: 0 <= i < |route| - 1 ==> HasRate(rates, route[i], route[i + 1]))
    && (|route| == 3 ==> route[1] == USD || route[1] == EUR)
  }

  /** Direct first, then through USD, then through EUR. */
  ghost function Preference(route: seq<Currency>): nat
    requires |route| >= 2
  {
    if |route| == 2 then 0 else if route[1] == USD then 1 else 2
  }

  ghost predicate Usable(rates: Rates, source: Currency, pivot: Currency, destination: Currency) {
    && pivot != source && pivot != destination
    && HasRate(rates, source, pivot) && HasRate(rates, pivot, destination)
  }

  lemma RouteViaShape(rates: Rates, source: Currency, destination: Currency)
    ensures RouteVia(rates, source, destination, PIVOTS)
         == if Usable(rates, source, USD, destination) then Some([source, USD, destination])
            else if Usable(rates, source, EUR, destination) then Some([source, EUR, destination])
            else None
  {
    assert RouteVia(rates, source, destination, []) == None;
    assert [EUR][1..] == [] && PIVOTS[1..] == [EUR];
    assert RouteVia(rates, source, destination, [EUR])
        == if Usable(rates, source, EUR, destination) then Some([source, EUR, destination]) else None;
  }

  /**
    For every possible book the router finds a route exactly when one exists, what it returns
    is a route, and no route is preferred to it.
   */
  lemma RouterCorrect(rates: Rates, source: Currency, destination: Currency)
    requires source != destination
    ensures BuildRoute(rates, source, destination).Some?
       <==> exists route :: IsRoute(rates, route, source, destination)
    ensures var r := BuildRoute(rates, source, destination);
            r.Some? ==> && IsRoute(rates, r.value, source, destination)
                        && forall route :: IsRoute(rates, route, source, destination)
                             ==> Preference(r.value) <= Preference(route)
  {
    var r := BuildRoute(rates, source, destination);
    RouteViaShape(rates, source, destination);
    if r.Some? {
      assert IsRoute(rates, r.value, source, destination);
    }
    forall route | IsRoute(rates, route, source, destination)
      ensures r.Some? && Preference(r.value) <= Preference(route)
    {
      assert HasRate(rates, route[0], route[0 + 1]);
      if |route| == 3 {
        assert HasRate(rates, route[1], route[1 + 1]);
        assert route[1] in PIVOTS;
        assert route[0] != route[1] && route[1] != route[2];
      }
    }
  }

  /** Some hop is priced by inverting a mid rate that was stored as zero. */
  ghost predicate InvertsZero(rates: Rates, source: Currency, destination: Currency) {
    && (source, destination) !in rates
    && (destination, source) in rates
    && rates[(destination, source)].mid == 0
  }

  /** A leg prices the very row the router found: never in a direction the row lacks. */
  lemma LegMatchesHop(rates: Rates, source: Currency, destination: Currency)
    requires Keyed(rates) && source != destination && HasRate(rates, source, destination)
    ensures var rate := FindCurrentRate(rates, source, destination);
            && rate.Some?
            && var leg := PriceLeg(rate.value, source, destination);
               && (leg.Err? ==> leg.error == DivisionByZero)
               && (leg.Err? <==> InvertsZero(rates, source, destination))
  {
  }

  ghost predicate SomeHopInvertsZero(rates: Rates, route: seq<Currency>) {
    exists i :: 0 <= i < |route| - 1 && InvertsZero(rates, route[i], route[i + 1])
  }

  ghost predicate Routed(rates: Rates, route: seq<Currency>) {
    forall i :: 0 <= i < |route| - 1 ==> route[i] != route[i + 1] && HasRate(rates, route[i], route[i + 1])
  }

  lemma LastHop(rates: Rates, route: seq<Currency>)
    requires |route| > 1 && Routed(rates, route)
    ensures var n := |route| - 1;
            && Routed(rates, route[..n])
            && route[n - 1] != route[n] && HasRate(rates, route[n - 1], route[n])
            && (SomeHopInvertsZero(rates, route)
                <==> SomeHopInvertsZero(rates, route[..n]) || InvertsZero(rates, route[n - 1], route[n]))
  {
    var n := |route| - 1;
    var init := route[..n];
    assert route[n - 1] != route[n - 1 + 1] && HasRate(rates, route[n - 1], route[n - 1 + 1]);
    if SomeHopInvertsZero(rates, init) {
      var i :| 0 <= i < |init| - 1 && InvertsZero(rates, init[i], init[i + 1]);
      assert InvertsZero(rates, route[i], route[i + 1]);
    }
    if InvertsZero(rates, route[n - 1], route[n]) {
      assert InvertsZero(rates, route[n - 1], route[n - 1 + 1]);
    }
    if SomeHopInvertsZero(rates, route) {
      var i :| 0 <= i < |route| - 1 && InvertsZero(rates, route[i], route[i + 1]);
      if i < n - 1 {
        assert InvertsZero(rates, init[i], init[i + 1]);
      }
    }
  }

  /**
    On a routed book the missing-rate and the direction-mismatch branches are unreachable; only
    inverting a zero mid rate can fail.
   */
  lemma {:induction false} LegsNeverMismatch(rates: Rates, route: seq<Currency>)
    requires Keyed(rates) && Routed(rates, route)
    ensures PriceLegs(rates, route).Err? ==> PriceLegs(rates, route).error == DivisionByZero
    ensures PriceLegs(rates, route).Err? <==> SomeHopInvertsZero(rates, route)
  {
    if |route| > 1 {
      var n := |route| - 1;
      LastHop(rates, route);
      LegsNeverMismatch(rates, route[..n]);
      LegMatchesHop(rates, route[n - 1], route[n]);
    }
  }

  /** Pricing a quote fails only for want of a route, or on a zero mid rate it has to invert. */
  lemma QuotePricingErrors(rates: Rates, source: Currency, destination: Currency, amount: Dec)
    requires Keyed(rates) && source != destination && amount.coeff > 0
    ensures var r := PriceQuote(rates, source, destination, amount);
            && (r.Err? ==> r.error == NoRoute || r.error == DivisionByZero)
            && (r == Err(NoRoute) <==> !exists route :: IsRoute(rates, route, source, destination))
  {
    RouterCorrect(rates, source, destination);
    var r := BuildRoute(rates, source, destination);
    if r.Some? {
      forall i | 0 <= i < |r.value| - 1
        ensures r.value[i] != r.value[i + 1] && HasRate(rates, r.value[i], r.value[i + 1])
      {
      }
      LegsNeverMismatch(rates, r.value);
    }
  }
}
