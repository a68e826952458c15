/**
  The trades of NoArbitrage are what executed quotes do to the balance rows: over any schedule of
  interleaved transactions, a customer who only converts at one book gains at most the sum of
  the rounding terms.
 */
module Conversions {
  import opened Money
  import opened Tables
  import opened TablesLaws
  import P = Protocol
  import Serializability
  import Pricing
  import opened NoArbitrage
  import Quoting

  /** What a customer holds, according to the balance rows. */
  ghost function HoldingsOf(db: Tables, customer: Uuid): Holdings {
    Holdings(BalanceOf(db, (customer, USD)), BalanceOf(db, (customer, EUR)),
             BalanceOf(db, (customer, KES)), BalanceOf(db, (customer, NGN)))
  }

  ghost function TradeOf(q: Quote): Trade
    requires q.sourceAmount >= 0
  {
    Trade(q.source, q.destination, q.sourceAmount)
  }

  /** The quote carries the terms of the book. */
  ghost predicate PricedAt(rates: Pricing.Rates, q: Quote) {
    && Star(rates) && q.source != q.destination && q.sourceAmount > 0
    && q.destinationAmount == Quoted(rates, TradeOf(q)).destinationAmount
  }

  /** Every quote create_quote stores carries the terms of the book it was priced on. */
  lemma StoredQuotePricedAt(rates: Pricing.Rates, r: Quoting.QuoteRequest, createdAt: int)
    requires Star(rates) && Quoting.ValidRequest(r) && r.source != r.destination && RoundMoney(r.amount) > 0
    ensures var p := Pricing.PriceQuote(rates, r.source, r.destination, r.amount);
            p.Ok? && PricedAt(rates, Quoting.StoredQuote(r, p.value, createdAt))
  {
    hide RoundMoney, Pricing.BuildRoute, Pricing.PriceLegs, Pricing.QuoteRate, Pricing.DestinationAmount,
         Pricing.TotalBps,
         MidRate, Tradable, Weight;
    StarLegs(rates, r.source, r.destination, r.amount);
    var cents := RoundMoney(r.amount);
    StarLegs(rates, r.source, r.destination, Dec(cents, MONEY_PLACES));
    RoundMoneyIdentity(cents);
  }

  /** Executing a quote moves its customer's balance rows as the trade does, and nobody else's. */
  lemma SettleIsTrade(
      db: Tables, r: ExecuteRequest, id: Uuid, now: int, doneAt: int, rates: Pricing.Rates, customer: Uuid)
    requires Valid(db) && Refusal(db, r, now).None?
    requires r.quoteId in db.quotes && db.quotes[r.quoteId].customer == customer
             ==> PricedAt(rates, db.quotes[r.quoteId])
    ensures r.quoteId in db.quotes
    ensures var q := db.quotes[r.quoteId];
            HoldingsOf(Settle(db, r, id, doneAt), customer)
            == if q.customer == customer then Execute(rates, HoldingsOf(db, customer), TradeOf(q))
               else HoldingsOf(db, customer)
  {
    hide Valid, Settle, Refusal, Quoted, Star;
    ExecutableIff(db, r, now);
    ValidParts(db, r.quoteId);
    SettleMoves(db, r, id, doneAt);
  }

  lemma ValidParts(db: Tables, quoteId: Uuid)
    requires Valid(db)
    ensures RowsComplete(db) && CacheMatches(db) && Solvent(db.ledger)
    ensures quoteId in db.quotes ==> db.quotes[quoteId].source != db.quotes[quoteId].destination
  {
    if quoteId in db.quotes {
      assert ValidQuote(db, db.quotes[quoteId]);
    }
  }

  // ---------------------------------------------------------------- over a whole log

  /** The entry executes a quote of the customer, on these tables. */
  ghost predicate Converts(db: Tables, e: P.LogEntry, customer: Uuid) {
    && e.TxnEntry? && e.req.ExecuteReq?
    && Refusal(db, e.req.r, e.checkedAt).None?
    && e.req.r.quoteId in db.quotes && db.quotes[e.req.r.quoteId].customer == customer
    && db.quotes[e.req.r.quoteId].sourceAmount > 0
  }

  /** The customer's trades, in commit order. */
  ghost function TradesOf(db: Tables, log: seq<P.LogEntry>, customer: Uuid): seq<Trade> {
    if log == [] then []
    else
      var n := |log| - 1;
      var before := P.SerialRun(db, log[..n]);
      TradesOf(db, log[..n], customer)
      + if Converts(before, log[n], customer) then [TradeOf(before.quotes[log[n].req.r.quoteId])] else []
  }

  /** The customer is not credited, and converts only at the terms of the book. */
  ghost predicate OnlyConverts(db: Tables, log: seq<P.LogEntry>, rates: Pricing.Rates, customer: Uuid) {
    forall i :: 0 <= i < |log| && log[i].TxnEntry? ==>
      && (log[i].req.CreditReq? ==> log[i].req.customer != customer)
      && var before := P.SerialRun(db, log[..i]);
         Converts(before, log[i], customer) ==> PricedAt(rates, before.quotes[log[i].req.r.quoteId])
  }

  lemma EntryIsTrade(db: Tables, e: P.LogEntry, rates: Pricing.Rates, customer: Uuid)
    requires Valid(db)
    requires e.TxnEntry? && e.req.CreditReq? ==> e.req.customer != customer
    requires Converts(db, e, customer) ==> PricedAt(rates, db.quotes[e.req.r.quoteId])
    ensures HoldingsOf(P.Serial(db, e).0, customer)
         == if Converts(db, e, customer)
            then Execute(rates, HoldingsOf(db, customer), TradeOf(db.quotes[e.req.r.quoteId]))
            else HoldingsOf(db, customer)
  {
    hide Valid, Refusal, Settle, CreditBalance, Star, PricedAt, Execute;
    match e
    case QuoteEntry(_, _, _) =>
    case TxnEntry(id, req, checkedAt, doneAt, _) =>
      match req {
        case ExecuteReq(r) =>
          if Refusal(db, r, checkedAt).None? {
            ExecutableIff(db, r, checkedAt);
            SettleIsTrade(db, r, id, checkedAt, doneAt, rates, customer);
          }
        case CreditReq(other, currency, amount) => CreditEffect(db, other, currency, amount, id);
        case CustomerReq => OpeningMovesNothing(db.(customers := db.customers + {id}), id, CURRENCIES, customer);
      }
  }

  lemma {:induction false} OpeningMovesNothing(db: Tables, id: Uuid, currencies: seq<Currency>, customer: Uuid)
    ensures HoldingsOf(EnsureBalances(db, id, currencies), customer) == HoldingsOf(db, customer)
  {
    if currencies != [] {
      OpeningMovesNothing(db, id, currencies[..|currencies| - 1], customer);
    }
  }

  /** The customer's balance rows after a log are the outcome of the trades, one after the other. */
  lemma {:induction false} LogIsTrades(db: Tables, log: seq<P.LogEntry>, rates: Pricing.Rates, customer: Uuid)
    requires Star(rates) && OnlyConverts(db, log, rates, customer)
    requires forall i :: 0 <= i <= |log| ==> Valid(P.SerialRun(db, log[..i]))
    ensures forall t <- TradesOf(db, log, customer) :: ValidTrade(t)
    ensures HoldingsOf(P.SerialRun(db, log), customer)
         == ExecuteAll(rates, HoldingsOf(db, customer), TradesOf(db, log, customer))
  {
    hide Valid, Star, PricedAt, Execute, HoldingsOf, P.Serial, Refusal;
    if log != [] {
      var n := |log| - 1;
      PrefixConverts(db, log, rates, customer, n);
      LogIsTrades(db, log[..n], rates, customer);
      var before := P.SerialRun(db, log[..n]);
      EntryIsTrade(before, log[n], rates, customer);
      var trades := TradesOf(db, log[..n], customer);
      if Converts(before, log[n], customer) {
        ConvertsValid(before, log[n], rates, customer);
        var t := TradeOf(before.quotes[log[n].req.r.quoteId]);
        assert (trades + [t])[..|trades|] == trades;
      } else {
        assert trades + [] == trades;
      }
    }
  }

  lemma ConvertsValid(db: Tables, e: P.LogEntry, rates: Pricing.Rates, customer: Uuid)
    requires Converts(db, e, customer) && PricedAt(rates, db.quotes[e.req.r.quoteId])
    ensures e.TxnEntry? && e.req.ExecuteReq? && e.req.r.quoteId in db.quotes
    ensures db.quotes[e.req.r.quoteId].sourceAmount > 0 && ValidTrade(TradeOf(db.quotes[e.req.r.quoteId]))
  {
  }

  lemma PrefixConverts(db: Tables, log: seq<P.LogEntry>, rates: Pricing.Rates, customer: Uuid, n: nat)
    requires n <= |log| && OnlyConverts(db, log, rates, customer)
    requires forall i :: 0 <= i <= |log| ==> Valid(P.SerialRun(db, log[..i]))
    ensures OnlyConverts(db, log[..n], rates, customer)
    ensures forall i :: 0 <= i <= n ==> Valid(P.SerialRun(db, log[..n][..i]))
  {
    hide Valid, Converts, PricedAt, P.SerialRun;
    forall i | 0 <= i <= n
      ensures log[..n][..i] == log[..i]
    {
    }
  }

  /**
    No arbitrage in the tables. After any schedule of interleaved transactions, with faults
    anywhere, a customer whose committed movements are conversions at one star-shaped book holds,
    at mid, at most what it held before plus the rounding terms of its trades.
   */
  lemma NoArbitrageInAnySchedule(s: P.State, schedule: seq<P.Action>, rates: Pricing.Rates, customer: Uuid)
    requires Serializability.Initial(s) && Star(rates)
    requires OnlyConverts(s.db, P.RunAll(s, schedule).log, rates, customer)
    ensures var final := P.RunAll(s, schedule);
            var trades := TradesOf(s.db, final.log, customer);
            && (forall t <- trades :: ValidTrade(t))
            && HoldingsOf(final.db, customer).Value(rates)
               <= HoldingsOf(s.db, customer).Value(rates) + TotalRounding(rates, trades)
  {
    hide Valid, Star, OnlyConverts, HoldingsOf, TradesOf, P.RunAll, P.SerialRun;
    var final := P.RunAll(s, schedule);
    Serializability.Serializable(s, schedule);
    Serializability.AlwaysValid(s, schedule);
    LogIsTrades(s.db, final.log, rates, customer);
    NoArbitrage.NoArbitrage(rates, HoldingsOf(s.db, customer), TradesOf(s.db, final.log, customer));
  }
}
