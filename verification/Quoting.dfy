/**
  create_quote: freshness, pricing, the stored quote and its legs, and the audit trail they form
  together with the snapshots.
 */
module Quoting {
  import opened Money
  import opened Pricing
  import PricingLaws
  import NoArbitrage
  import opened RateRefresh
  import opened RateRefreshLaws
  import T = Tables
  import TablesLaws
  import opened SerialAnswers

  datatype QuoteRequest = QuoteRequest(customer: Uuid, source: Currency, destination: Currency, amount: Dec)

  /** The schema only lets positive amounts in. */
  ghost predicate ValidRequest(r: QuoteRequest) {
    r.amount.coeff > 0
  }

  /** The rates part: the gate on the newest timestamp, then routing and pricing. */
  function PriceFresh(book: RateBook, r: QuoteRequest, now: int, s: Settings): Result<PricedQuote>
    requires r.amount.coeff > 0
  {
    if book.lastUpdatedAt.None? then Err(RatesUnavailable)
    else if book.lastUpdatedAt.value < now - s.freshness then Err(RatesStale)
    else PriceQuote(book.rates, r.source, r.destination, r.amount)
  }

  /** Every stored number fits its NUMERIC column. */
  predicate Storable(p: PricedQuote) {
    && FitsNumeric(p.sourceAmount) && FitsNumeric(p.destinationAmount) && FitsNumeric(p.rate)
    && forall leg <- p.legs :: FitsNumeric(leg.executable)
  }

  function StoredQuote(r: QuoteRequest, p: PricedQuote, createdAt: int): T.Quote {
    T.Quote(r.customer, r.source, r.destination, p.sourceAmount, p.destinationAmount, p.rate, p.route,
            p.spreadBps, createdAt, createdAt + T.QUOTE_TTL)
  }

  /** create_quote, alone. `now` is the clock at the freshness check, `createdAt` at the insert. */
  function CreateQuote(
      db: T.Tables, rates: RateTables, r: QuoteRequest, now: int, createdAt: int, s: Settings, id: Uuid)
    : (T.Tables, Result<T.Quote>)
    requires r.amount.coeff > 0
  {
    if r.source == r.destination then (db, Err(SameCurrency))
    else if r.customer !in db.customers then (db, Err(CustomerNotFound))
    else
      match PriceFresh(LoadCurrentRateBook(rates), r, now, s)
      case Err(error) => (db, Err(error))
      case Ok(p) =>
        if !Storable(p) then (db, Err(NumericOverflow))
        else
          var q := StoredQuote(r, p, createdAt);
          (T.StoreQuote(db, id, q, p.legs), Ok(q))
  }

  /**
    What create_quote stores: the customer and currencies of the request, the priced terms, and
    an expiry sixty seconds after the clock of the insert; nothing when it refuses.
   */
  lemma StoredTerms(db: T.Tables, t: RateTables, r: QuoteRequest, now: int, createdAt: int, s: Settings, id: Uuid)
    requires ValidRequest(r)
    ensures var (db', result) := CreateQuote(db, t, r, now, createdAt, s, id);
            && (result == Err(SameCurrency) <==> r.source == r.destination)
            && (result == Err(CustomerNotFound) <==> r.source != r.destination && r.customer !in db.customers)
            && (result.Err? ==> db' == db)
            && (result.Ok? ==>
                  var q, priced := result.value, PriceQuote(t.current, r.source, r.destination, r.amount);
                  && q.createdAt == createdAt && q.expiresAt == createdAt + 60_000_000
                  && q.customer == r.customer && q.source == r.source && q.destination == r.destination
                  && priced.Ok?
                  && q.sourceAmount == priced.value.sourceAmount
                  && q.destinationAmount == priced.value.destinationAmount
                  && q.rate == priced.value.rate && q.route == priced.value.route
                  && q.spreadBps == priced.value.spreadBps
                  && db' == db.(quotes := db.quotes[id := q], quoteLegs := db.quoteLegs[id := priced.value.legs]))
  {
    hide PriceLegs, QuoteRate, DestinationAmount, TotalBps, RoundMoney, Latest, BuildRoute;
    var route := BuildRoute(t.current, r.source, r.destination);
    if route.Some? {
      LegErrors(t.current, route.value);
    }
  }

  /**
    The life of a quote. As long as it is stored and unspent, an execution is refused as expired
    exactly from sixty seconds after its creation on; before that it goes through exactly if the
    ledger covers it and the amounts are in order.
   */
  lemma QuoteLivesSixtySeconds(
      db: T.Tables, t: RateTables, r: QuoteRequest, now: int, createdAt: int, s: Settings, id: Uuid,
      later: T.Tables, x: T.ExecuteRequest, executionId: Uuid, at: int, doneAt: int)
    requires ValidRequest(r) && CreateQuote(db, t, r, now, createdAt, s, id).1.Ok?
    requires TablesLaws.Valid(later) && x.quoteId == id && Unspent(later, x)
    requires later.quotes[id] == CreateQuote(db, t, r, now, createdAt, s, id).0.quotes[id]
    ensures var o := T.ExecuteQuote(later, x, executionId, at, doneAt).1;
            && (o == T.Rejected(T.QuoteExpired) <==> createdAt + 60_000_000 <= at)
            && (at < createdAt + 60_000_000 ==>
                  var q := later.quotes[id];
                  o.Completed? <==> q.sourceAmount <= T.Net(later.ledger, (q.customer, q.source))
                                    && Positive(q) && !TooLarge(later, q))
  {
    hide CreateQuote, TablesLaws.Valid, T.ExecuteQuote, T.Net;
    StoredTerms(db, t, r, now, createdAt, s, id);
    ExecuteAnswers(later, x, executionId, at, doneAt);
  }

  // ---------------------------------------------------------------- readiness

  lemma BookIsStarShaped(t: RateTables)
    requires OneRefresh(t) && t.current != map[]
    ensures Keyed(t.current)
    ensures t.current.Keys == CANONICAL
    ensures (forall k :: k in t.current ==> t.current[k].mid > 0) ==> NoArbitrage.Star(t.current)
  {
    hide Pins;
    var r :| FromRefresh(t, r);
    forall k | k in t.current
      ensures t.current[k].base == k.0 && t.current[k].quote == k.1
    {
      RowPinned(t, k);
    }
  }

  lemma StarAlwaysRoutes(t: RateTables, source: Currency, destination: Currency)
    requires OneRefresh(t) && t.current != map[] && source != destination
    ensures BuildRoute(t.current, source, destination)
         == StarRoute(source, destination)
  {
    hide OneRefresh;
    BookIsStarShaped(t);
    assert forall a, b :: FindCurrentRate(t.current, a, b).Some? <==> (a, b) in CANONICAL || (b, a) in CANONICAL;
    RouteViaShape(t.current, source, destination);
  }

  /** The first hop has to invert a mid rate that was stored as zero. */
  predicate BuysAtZero(t: RateTables, source: Currency) {
    source != USD && (USD, source) in t.current && t.current[(USD, source)].mid == 0
  }

  /** On a book of one refresh, pricing fails exactly on inverting a mid rate stored as zero. */
  lemma FreshPricing(t: RateTables, r: QuoteRequest)
    requires OneRefresh(t) && t.current != map[] && ValidRequest(r) && r.source != r.destination
    ensures var result := PriceQuote(t.current, r.source, r.destination, r.amount);
            && (result.Err? ==> result.error == DivisionByZero)
            && (result.Err? <==> BuysAtZero(t, r.source))
            && (result.Ok? ==> Some(result.value.route) == StarRoute(r.source, r.destination))
  {
    hide OneRefresh, PriceLegs, RoundMoney, DestinationAmount, QuoteRate, TotalBps, BuildRoute, InvertsZero;
    BookIsStarShaped(t);
    StarAlwaysRoutes(t, r.source, r.destination);
    var route := StarRoute(r.source, r.destination).value;
    StarHops(t, r.source, r.destination);
    LegsNeverMismatch(t.current, route);
  }

  /** Only the hop into the dollar inverts a rate, and it is the first. */
  lemma StarHops(t: RateTables, source: Currency, destination: Currency)
    requires t.current.Keys == CANONICAL && source != destination
    ensures var route := StarRoute(source, destination).value;
            && Routed(t.current, route)
            && (SomeHopInvertsZero(t.current, route) <==> BuysAtZero(t, source))
  {
    var route := StarRoute(source, destination).value;
    assert forall c: Currency :: c != USD ==> (USD, c) in CANONICAL;
    forall i | 0 <= i < |route| - 1
      ensures route[i] != route[i + 1] && HasRate(t.current, route[i], route[i + 1])
      ensures InvertsZero(t.current, route[i], route[i + 1]) <==> i == 0 && BuysAtZero(t, source)
    {
      assert i == 0 || i == 1;
    }
    if BuysAtZero(t, source) {
      assert InvertsZero(t.current, route[0], route[0 + 1]);
    }
  }

  ghost function StarRoute(source: Currency, destination: Currency): Option<seq<Currency>> {
    Some(if source == USD || destination == USD then [source, destination] else [source, USD, destination])
  }

  /** The refusals of the freshness gate are the answers of the readiness probe. */
  lemma GateIsReadiness(t: RateTables, r: QuoteRequest, now: int, s: Settings)
    requires RatesValid(t) && ValidRequest(r) && r.source != r.destination
    ensures var gate := PriceFresh(LoadCurrentRateBook(t), r, now, s);
            && (FreshnessStatus(t, now, s) == Unavailable <==> gate == Err(RatesUnavailable))
            && (FreshnessStatus(t, now, s) == Stale <==> gate == Err(RatesStale))
            && (FreshnessStatus(t, now, s) == Fresh ==>
                  gate == PriceQuote(t.current, r.source, r.destination, r.amount) && t.current != map[])
  {
    hide OneRefresh, SnapshotsValid, PriceQuote, Latest;
    BookIsUniform(t);
    if t.current != map[] {
      FreshPricing(t, r);
    }
  }

  /**
    Readiness is quotability: a quote for an existing customer and distinct currencies is
    refused for its rates exactly when the readiness status is not fresh. Fresh rates always
    route, directly against USD and through USD otherwise, never through EUR, and never meet a
    missing rate or a direction mismatch. What can still fail is exactly the inversion of a
    source rate stored as zero, and a priced number past its column.
   */
  lemma ReadinessIsQuotability(
      db: T.Tables, t: RateTables, r: QuoteRequest, now: int, createdAt: int, s: Settings, id: Uuid)
    requires RatesValid(t) && ValidRequest(r) && r.source != r.destination && r.customer in db.customers
    ensures var result := CreateQuote(db, t, r, now, createdAt, s, id).1;
            && (FreshnessStatus(t, now, s) == Unavailable <==> result == Err(RatesUnavailable))
            && (FreshnessStatus(t, now, s) == Stale <==> result == Err(RatesStale))
            && (FreshnessStatus(t, now, s) == Fresh ==>
                  var priced := PriceQuote(t.current, r.source, r.destination, r.amount);
                  && (priced.Ok? <==> !BuysAtZero(t, r.source))
                  && (result == Err(DivisionByZero) <==> BuysAtZero(t, r.source))
                  && (result == Err(NumericOverflow) <==> priced.Ok? && TooWide(priced.value))
                  && (result.Ok? <==> priced.Ok? && !TooWide(priced.value))
                  && (result.Ok? ==> Some(result.value.route) == StarRoute(r.source, r.destination)))
  {
    hide RatesValid, OneRefresh, Storable, PriceFresh, PriceQuote, FreshnessStatus, LoadCurrentRateBook, StarRoute,
         BuysAtZero, TooWide;
    GateIsReadiness(t, r, now, s);
    if FreshnessStatus(t, now, s) == Fresh {
      var priced := PriceQuote(t.current, r.source, r.destination, r.amount);
      if priced.Ok? {
        StorableIff(priced.value);
      }
      OfOneRefresh(t);
      FreshPricing(t, r);
    }
  }

  /** The provider's 0.00000000004 shillings to the dollar: positive, and stored as zero. */
  const TINY_RATES: ProviderRates := ProviderRates(USD, map[KES := Dec(4, 11), NGN := Dec(1500, 0), EUR := Dec(9, 1)])

  /**
    The failing case is reachable: a complete response of positive rates refreshes the book, and
    every quote out of shillings then divides by zero while the readiness probe says fresh.
   */
  lemma TinyRateDividesByZero(
      db: T.Tables, refreshId: Uuid, started: int, s: Settings, r: QuoteRequest, createdAt: int, id: Uuid)
    requires ValidRequest(r) && r.source == KES && r.destination != KES && r.customer in db.customers
    ensures Complete(TINY_RATES)
    ensures var (t, outcome) := RefreshTables(NO_RATES, refreshId, Fetched(TINY_RATES), started, s);
            && outcome == Refreshed
            && FreshnessStatus(t, started, s) == Fresh
            && CreateQuote(db, t, r, started, createdAt, s, id).1 == Err(DivisionByZero)
  {
    hide CreateQuote, RateRows, RatesValid, Latest, RefreshTables, FreshnessStatus, BuysAtZero;
    TinyRates();
    RefreshesIff(NO_RATES, refreshId, TINY_RATES, started, s);
    EmptyRatesValid();
    RefreshKeeps(NO_RATES, refreshId, Fetched(TINY_RATES), started, s);
    var t := RefreshTables(NO_RATES, refreshId, Fetched(TINY_RATES), started, s).0;
    RefreshedTime(NO_RATES, refreshId, Fetched(TINY_RATES), started, s);
    StoredMids(NO_RATES, refreshId, TINY_RATES, started, s, KES);
    assert FreshnessStatus(t, started, s) == Fresh by { FreshAtStart(t, started, s); }
    assert BuysAtZero(t, KES) by { assert t.current[(USD, KES)].mid == 0; BuysAtZeroUnfold(t); }
    ReadinessIsQuotability(db, t, r, started, createdAt, s, id);
  }

  lemma FreshAtStart(t: RateTables, started: int, s: Settings)
    requires BookTime(t) == Some(started)
    ensures FreshnessStatus(t, started, s) == Fresh
  {
  }

  lemma BuysAtZeroUnfold(t: RateTables)
    requires (USD, KES) in t.current && t.current[(USD, KES)].mid == 0
    ensures BuysAtZero(t, KES)
  {
  }

  lemma TinyRates()
    ensures Complete(TINY_RATES)
    ensures RoundRate(TINY_RATES.rates[KES]) == 0
    ensures RateRefreshLaws.Usable(TINY_RATES, KES) && RateRefreshLaws.Usable(TINY_RATES, NGN)
    ensures RateRefreshLaws.Usable(TINY_RATES, EUR)
  {
    assert Pow10(1) == 10;
    assert Pow10(10) == RATE_ONE;
    assert Pow10(9) == 1_000_000_000;
    assert RoundRate(Dec(4, 11)) == 0;
    assert RoundRate(Dec(1500, 0)) == 15_000_000_000_000;
    assert RoundRate(Dec(9, 1)) == 9_000_000_000;
  }

  /** Some number of the quote has more than twenty digits. */
  ghost predicate TooWide(p: PricedQuote) {
    || p.sourceAmount >= 100_000_000_000_000_000_000
    || p.destinationAmount >= 100_000_000_000_000_000_000
    || p.rate >= 100_000_000_000_000_000_000
    || exists i :: 0 <= i < |p.legs| && p.legs[i].executable >= 100_000_000_000_000_000_000
  }

  lemma StorableIff(p: PricedQuote)
    ensures Storable(p) <==> !TooWide(p)
  {
    if !TooWide(p) {
      forall leg | leg in p.legs
        ensures FitsNumeric(leg.executable)
      {
        var i :| 0 <= i < |p.legs| && p.legs[i] == leg;
      }
    } else if i :| 0 <= i < |p.legs| && p.legs[i].executable >= 100_000_000_000_000_000_000 {
      assert p.legs[i] in p.legs;
    }
  }

  lemma OfOneRefresh(t: RateTables)
    requires RatesValid(t)
    ensures OneRefresh(t)
  {
  }

  // ---------------------------------------------------------------- the audit trail

  /** The leg was priced from this snapshot, in the direction its side says. */
  ghost predicate FromSnapshot(leg: LegPricing, snapshot: Snapshot) {
    && leg.snapshotId == snapshot.id && leg.mid == snapshot.mid
    && (leg.side == Sell ==> leg.source == snapshot.base && leg.destination == snapshot.quote)
    && (leg.side == Buy ==> leg.source == snapshot.quote && leg.destination == snapshot.base)
  }

  /**
    Re-pricing a stored quote from its legs and their snapshots reproduces its rate and its
    destination amount, to the last digit.
   */
  ghost predicate Audits(q: T.Quote, legs: seq<LegPricing>, snapshots: seq<Snapshot>) {
    && |legs| >= 1 && |q.route| == |legs| + 1
    && q.route[0] == q.source && q.route[|legs|] == q.destination
    && (forall i :: 0 <= i < |legs| ==>
          && legs[i].source == q.route[i] && legs[i].destination == q.route[i + 1]
          && PricingLaws.Reprices(legs[i])
          && exists snapshot <- snapshots :: FromSnapshot(legs[i], snapshot))
    && q.rate == QuoteRate(legs)
    && (|legs| == 1 ==> q.rate == legs[0].executable)
    && q.sourceAmount >= 0 && q.destinationAmount == DestinationAmount(q.sourceAmount, q.rate)
    && q.spreadBps == TotalBps(legs)
  }

  ghost predicate AllAudit(db: T.Tables, rates: RateTables) {
    forall id :: id in db.quotes ==> id in db.quoteLegs && Audits(db.quotes[id], db.quoteLegs[id], rates.snapshots)
  }

  /** Later snapshots do not disturb an audit. */
  lemma AuditStable(q: T.Quote, legs: seq<LegPricing>, snapshots: seq<Snapshot>, more: seq<Snapshot>)
    requires Audits(q, legs, snapshots) && snapshots <= more
    ensures Audits(q, legs, more)
  {
    hide PricingLaws.Reprices, QuoteRate, DestinationAmount, TotalBps;
    assert forall snapshot :: snapshot in snapshots ==> snapshot in more;
  }

  lemma LegHasSnapshot(t: RateTables, source: Currency, destination: Currency)
    requires OneRefresh(t) && FindCurrentRate(t.current, source, destination).Some?
    ensures var leg := PriceLeg(FindCurrentRate(t.current, source, destination).value, source, destination);
            leg.Ok? ==> && PricingLaws.Reprices(leg.value)
                        && leg.value.source == source && leg.value.destination == destination
                        && exists snapshot <- t.snapshots :: FromSnapshot(leg.value, snapshot)
  {
    hide SellRate, BuyRate;
    var row := FindCurrentRate(t.current, source, destination).value;
    PricingLaws.PricedLegReprices(row, source, destination);
    var k := if (source, destination) in t.current then (source, destination) else (destination, source);
    RowPinned(t, k);
  }

  lemma RowPinned(t: RateTables, k: Pair)
    requires OneRefresh(t) && k in t.current
    ensures t.current[k].base == k.0 && t.current[k].quote == k.1
    ensures exists snapshot <- t.snapshots :: IsPair(snapshot, k) && snapshot.id == t.current[k].snapshotId
             && snapshot.mid == t.current[k].mid
  {
    var r :| FromRefresh(t, r);
    var i := PairIndex(k);
    var n := |t.snapshots| - 3 + i;
    assert StoredAs(t, r, i);
    assert t.snapshots[n] in t.snapshots;
  }

  /** Every quote create_quote stores can be audited from the moment it is stored. */
  lemma NewQuoteAudits(t: RateTables, r: QuoteRequest, createdAt: int)
    requires RatesValid(t) && ValidRequest(r) && r.source != r.destination
    requires PriceQuote(t.current, r.source, r.destination, r.amount).Ok?
    ensures var p := PriceQuote(t.current, r.source, r.destination, r.amount).value;
            Audits(StoredQuote(r, p, createdAt), p.legs, t.snapshots)
  {
    hide SellRate, BuyRate, QuoteRate, DestinationAmount, TotalBps, RoundMoney, OneRefresh, SnapshotsValid,
         PricingLaws.Reprices,
         PriceLeg, FindCurrentRate, FromSnapshot;
    RouterCorrect(t.current, r.source, r.destination);
    var p := PriceQuote(t.current, r.source, r.destination, r.amount).value;
    forall i | 0 <= i < |p.legs|
      ensures p.legs[i].source == p.route[i] && p.legs[i].destination == p.route[i + 1]
      ensures PricingLaws.Reprices(p.legs[i]) && exists snapshot <- t.snapshots :: FromSnapshot(p.legs[i], snapshot)
    {
      PricingLaws.RoutedLegs(t.current, p.route, i);
      LegHasSnapshot(t, p.route[i], p.route[i + 1]);
    }
    if |p.legs| == 1 {
      PricingLaws.LegBounds(p.legs[0]);
      PricingLaws.SingleLegRate(p.legs[0]);
      assert p.legs == [p.legs[0]];
    }
  }

  /** The book may have been read long before the quote commits: `read` then, `t` now. */
  lemma CreateQuoteKeeps(
    db: T.Tables, read: RateTables, t: RateTables, r: QuoteRequest, now: int, createdAt: int, s: Settings, id: Uuid)
    requires TablesLaws.Valid(db) && RatesValid(read) && AllAudit(db, t) && ValidRequest(r) && id !in db.quotes
    requires read.snapshots <= t.snapshots
    ensures var db' := CreateQuote(db, read, r, now, createdAt, s, id).0;
            TablesLaws.Valid(db') && AllAudit(db', t)
  {
    hide TablesLaws.Valid, PriceQuote, Audits, RatesValid, Latest;
    var result := CreateQuote(db, read, r, now, createdAt, s, id);
    if result.1.Ok? {
      NewQuoteAudits(read, r, createdAt);
      var p := PriceQuote(read.current, r.source, r.destination, r.amount).value;
      AuditStable(StoredQuote(r, p, createdAt), p.legs, read.snapshots, t.snapshots);
      assert T.ValidQuote(db, StoredQuote(r, p, createdAt));
      TablesLaws.StoreQuoteKeeps(db, id, StoredQuote(r, p, createdAt), p.legs);
    }
  }
}
