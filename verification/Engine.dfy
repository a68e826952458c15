/**
  The services as they run in one session: rows are changed in place in the session's working
  tables, and a commit or a rollback ends every request.
 */
module Engine {
  import opened Money
  import opened Tables
  import opened TablesLaws
  import Pricing
  import RateRefresh
  import Quoting

  /** The statement of an execution before which an exception strikes; the test hook is before the credit. */
  datatype FaultPoint =
    | NoFault | AtReadKey | AtClaimKey | AtLockQuote | AtCheckExecuted
    | AtEnsureFirst | AtEnsureSecond | AtLockFirst | AtLockSecond
    | AtInsertExecution | AtAppendDebit | AtAppendCredit | AtCommit

  class Session {
    var customers: set<Uuid>
    var balances: map<Account, int>
    var quotes: map<Uuid, Quote>
    var quoteLegs: map<Uuid, seq<Pricing.LegPricing>>
    var executions: map<Uuid, Execution>
    var ledger: seq<LedgerEntry>
    var adjustments: map<Uuid, Adjustment>
    var keys: map<string, KeyRow>
    var committed: Tables

    function Working(): Tables
      reads this
    {
      Tables(customers, balances, quotes, quoteLegs, executions, ledger, adjustments, keys)
    }

    /** Between requests: nothing staged, and the committed tables are in order. */
    ghost predicate Ready()
      reads this
    {
      Working() == committed && Valid(committed)
    }

    constructor (t: Tables)
      ensures committed == t && Working() == t
    {
      customers, balances, quotes, quoteLegs := t.customers, t.balances, t.quotes, t.quoteLegs;
      executions, ledger, adjustments, keys := t.executions, t.ledger, t.adjustments, t.keys;
      committed := t;
    }

    method Commit()
      modifies this
      ensures Working() == old(Working()) && committed == old(Working())
    {
      committed := Working();
    }

    method Rollback()
      modifies this
      ensures Working() == old(committed) && committed == old(committed)
    {
      var t := committed;
      customers, balances, quotes, quoteLegs := t.customers, t.balances, t.quotes, t.quoteLegs;
      executions, ledger, adjustments, keys := t.executions, t.ledger, t.adjustments, t.keys;
    }

    /** What every exception after the key claim ends in. */
    method Abandon() returns (outcome: Outcome)
      modifies this
      ensures Working() == old(committed) && committed == old(committed) && outcome == Rejected(Fault)
    {
      Rollback();
      outcome := Rejected(Fault);
    }

    // -------------------------------------------------------------- repositories

    method EnsureBalanceRow(a: Account)
      modifies this
      ensures Working() == EnsureBalance(old(Working()), a) && committed == old(committed)
    {
      if a !in balances {
        balances := balances[a := 0];
      }
    }

    method EnsureAllBalances(customer: Uuid)
      modifies this
      ensures Working() == EnsureBalances(old(Working()), customer, CURRENCIES) && committed == old(committed)
    {
      for i := 0 to |CURRENCIES|
        invariant Working() == EnsureBalances(old(Working()), customer, CURRENCIES[..i])
        invariant committed == old(committed)
      {
        EnsureBalanceRow((customer, CURRENCIES[i]));
        assert CURRENCIES[..i + 1][..i] == CURRENCIES[..i];
      }
      assert CURRENCIES[..|CURRENCIES|] == CURRENCIES;
    }

    /** The only writer of the ledger; it refuses amounts that are not positive. */
    method AppendEntry(e: LedgerEntry) returns (accepted: bool)
      modifies this
      ensures accepted <==> e.amount > 0
      ensures Working() == if accepted then old(Working()).(ledger := old(ledger) + [e]) else old(Working())
      ensures committed == old(committed)
    {
      accepted := e.amount > 0;
      if accepted {
        ledger := ledger + [e];
      }
    }

    /** Append an entry and assign the new balance to the row it was read from. */
    method PostEntry(e: LedgerEntry, balance: int) returns (accepted: bool, updated: int)
      modifies this
      ensures accepted <==> e.amount > 0
      ensures accepted ==> updated == UpdatedBalance(balance, e)
      ensures Working() == if accepted
                           then old(Working()).(ledger := old(ledger) + [e],
                                                balances := old(balances)[AccountOf(e) := updated])
                           else old(Working())
      ensures committed == old(committed)
    {
      accepted := AppendEntry(e);
      updated := UpdatedBalance(balance, e);
      if accepted {
        balances := balances[AccountOf(e) := updated];
      }
    }

    // -------------------------------------------------------------- customers

    method CreateCustomerRow(id: Uuid)
      requires Ready() && FreshId(committed, id)
      modifies this
      ensures Ready() && committed == CreateCustomer(old(committed), id)
    {
      ghost var before := committed;
      customers := customers + {id};
      EnsureAllBalances(id);
      Commit();
      CreateCustomerKeeps(before, id);
    }

    method CreditAccount(customer: Uuid, currency: Currency, amount: Dec, id: Uuid) returns (outcome: Outcome)
      requires Ready() && FreshId(committed, id)
      modifies this
      ensures Ready()
      ensures (committed, outcome) == CreditBalance(old(committed), customer, currency, amount, id)
    {
      ghost var before := committed;
      CreditKeeps(before, customer, currency, amount, id);
      if customer !in customers {
        return Rejected(Error.CustomerNotFound);
      }
      var rounded := RoundMoney(amount);
      var a := (customer, currency);
      EnsureBalanceRow(a);
      assert Working() == before;
      var balance := balances[a];
      if !FitsNumeric(rounded) {
        Rollback();
        return Rejected(Error.NumericOverflow);
      }
      adjustments := adjustments[id := Adjustment(customer, currency, rounded)];
      var e := AdjustmentEntry(customer, currency, rounded, id);
      var accepted, updated := PostEntry(e, balance);
      if !accepted {
        Rollback();
        return Rejected(NonPositiveAmount);
      }
      UpdateExact(before.balances[a], e);
      UpdateExact(before.balances[a], AdjustmentEntry(customer, currency, rounded, 0));
      if !FitsNumeric(updated) {
        Rollback();
        return Rejected(Error.NumericOverflow);
      }
      Commit();
      outcome := Credited(updated);
    }

    /** All four balances of a customer; each is what its ledger entries add up to. */
    method GetBalances(customer: Uuid) returns (found: Option<map<Currency, int>>)
      requires Ready()
      modifies this
      ensures Ready() && committed == old(committed)
      ensures found.Some? <==> customer in committed.customers
      ensures found.Some? ==> forall c: Currency ::
                c in found.value && found.value[c] == ComputeBalance(committed.ledger, (customer, c))
    {
      if customer !in customers {
        return None;
      }
      RowsAlreadyThere(committed, customer);
      EnsureAllBalances(customer);
      found := Some(map c: Currency | c in CURRENCIES :: RoundMoney(Dec(balances[(customer, c)], MONEY_PLACES)));
      forall c: Currency
        ensures c in found.value && found.value[c] == ComputeBalance(committed.ledger, (customer, c))
      {
        AnyCurrency(c);
        CacheEqualsLedger(committed, (customer, c));
        RoundMoneyIdentity(balances[(customer, c)]);
      }
    }

    // -------------------------------------------------------------- create_quote

    /** Price every hop of a route, in order, stopping at the first that fails. */
    method PriceRoute(rates: Pricing.Rates, route: seq<Currency>)
      returns (result: Pricing.Result<seq<Pricing.LegPricing>>)
      requires |route| >= 2
      ensures result == Pricing.PriceLegs(rates, route)
    {
      hide Pricing.PriceLeg, Pricing.FindCurrentRate;
      var legs: seq<Pricing.LegPricing> := [];
      for i := 0 to |route| - 1
        invariant Pricing.PriceLegs(rates, route[..i + 1]) == Pricing.Ok(legs)
      {
        assert route[..i + 2][..i + 1] == route[..i + 1];
        var rate := Pricing.FindCurrentRate(rates, route[i], route[i + 1]);
        if rate.None? {
          FirstFailureWins(rates, route, i + 2);
          return Pricing.Err(Pricing.RateMissing);
        }
        var leg := Pricing.PriceLeg(rate.value, route[i], route[i + 1]);
        if leg.Err? {
          FirstFailureWins(rates, route, i + 2);
          return Pricing.Err(leg.error);
        }
        legs := legs + [leg.value];
      }
      assert route[..|route| - 1 + 1] == route;
      result := Pricing.Ok(legs);
    }

    /** The product of the leg rates, one context multiplication per leg, and the sum of spreads. */
    method CompoundLegs(legs: seq<Pricing.LegPricing>) returns (product: nat, spreadBps: nat)
      ensures product == Pricing.Compound(legs) && spreadBps == Pricing.TotalBps(legs)
    {
      product, spreadBps := 1, 0;
      for i := 0 to |legs|
        invariant product == Pricing.Compound(legs[..i]) && spreadBps == Pricing.TotalBps(legs[..i])
      {
        assert legs[..i + 1][..i] == legs[..i];
        product := ContextTimes(product, legs[i].executable);
        spreadBps := spreadBps + legs[i].spreadBps;
      }
      assert legs[..|legs|] == legs;
    }

    /** Route, legs, compound rate and amounts of a quote. */
    method Price(rates: Pricing.Rates, source: Currency, destination: Currency, amount: Dec)
      returns (result: Pricing.Result<Pricing.PricedQuote>)
      requires amount.coeff > 0 && source != destination
      ensures result == Pricing.PriceQuote(rates, source, destination, amount)
    {
      hide Pricing.Compound, Pricing.TotalBps, Pricing.PriceLegs, Pricing.BuildRoute, Pricing.DestinationAmount,
           RoundHalfEven;
      var route := Pricing.BuildRoute(rates, source, destination);
      if route.None? {
        return Pricing.Err(Pricing.NoRoute);
      }
      Pricing.RouterCorrect(rates, source, destination);
      var legs := PriceRoute(rates, route.value);
      if legs.Err? {
        return Pricing.Err(legs.error);
      }
      var product, spreadBps := CompoundLegs(legs.value);
      var rate := RoundRate(Dec(product, RATE_PLACES * |legs.value|));
      var sourceAmount := RoundMoney(amount);
      result := Pricing.Ok(Pricing.PricedQuote(
        route.value, legs.value, rate, spreadBps, sourceAmount, Pricing.DestinationAmount(sourceAmount, rate)));
    }

    /** Price and store an immutable quote with its legs; balances are neither read nor changed. */
    method CreateQuote(rates: RateRefresh.RateSession, r: Quoting.QuoteRequest, now: int, createdAt: int,
                       s: RateRefresh.Settings, id: Uuid)
      returns (result: Pricing.Result<Quote>)
      requires Ready() && r.amount.coeff > 0 && id !in committed.quotes
      modifies this
      ensures Ready()
      ensures (committed, result) == Quoting.CreateQuote(old(committed), rates.committed, r, now, createdAt, s, id)
    {
      hide Valid, Pricing.PriceQuote, RateRefresh.Latest;
      ghost var before := committed;
      if r.source == r.destination {
        return Pricing.Err(Pricing.SameCurrency);
      }
      if r.customer !in customers {
        return Pricing.Err(Pricing.CustomerNotFound);
      }
      var book := RateRefresh.LoadCurrentRateBook(rates.committed);
      if book.lastUpdatedAt.None? {
        return Pricing.Err(Pricing.RatesUnavailable);
      }
      if book.lastUpdatedAt.value < now - s.freshness {
        return Pricing.Err(Pricing.RatesStale);
      }
      var priced := Price(book.rates, r.source, r.destination, r.amount);
      if priced.Err? {
        return Pricing.Err(priced.error);
      }
      var p := priced.value;
      if !Quoting.Storable(p) {
        return Pricing.Err(Pricing.NumericOverflow);
      }
      var quote := Quoting.StoredQuote(r, p, createdAt);
      assert ValidQuote(before, quote);
      StoreQuoteKeeps(before, id, quote, p.legs);
      quotes := quotes[id := quote];
      quoteLegs := quoteLegs[id := p.legs];
      Commit();
      result := Pricing.Ok(quote);
    }

    // -------------------------------------------------------------- execute_quote

    /**
      Execute stored quote terms exactly once. Every exception after the key claim rolls back, so
      a fault before any statement leaves the committed tables as they were, the key unused included.
     */
    method Execute(r: ExecuteRequest, executionId: Uuid, now: int, doneAt: int, fault: FaultPoint)
      returns (outcome: Outcome)
      requires Ready() && FreshId(committed, executionId)
      modifies this
      ensures Ready()
      ensures outcome != Rejected(Fault) ==>
                (committed, outcome) == ExecuteQuote(old(committed), r, executionId, now, doneAt)
      ensures outcome == Rejected(Fault) ==> fault != NoFault && committed == old(committed)
      ensures fault != NoFault && Refusal(old(committed), r, now).None? ==> outcome == Rejected(Fault)
    {
      ghost var before := committed;
      if r.key == "" {
        return Rejected(KeyMissing);
      }
      if fault == AtReadKey {
        return Rejected(Fault);
      }
      if r.key in keys {
        var row := keys[r.key];
        if row.hash != r.hash {
          return Rejected(IdempotencyConflict);
        }
        if row.completedAt.Some? && row.payload.Some? {
          return Replayed(row.payload.value);
        }
        return Rejected(IdempotencyConflict);
      }
      if fault == AtClaimKey {
        return Rejected(Fault);
      }
      keys := keys[r.key := KeyRow(r.hash, None, None)];
      if fault == AtLockQuote {
        outcome := Abandon();
        return;
      }
      if r.quoteId !in quotes {
        Rollback();
        return Rejected(QuoteNotFound);
      }
      if fault == AtCheckExecuted {
        outcome := Abandon();
        return;
      }
      if IsExecuted(Working(), r.quoteId) {
        assert IsExecuted(before, r.quoteId);
        Rollback();
        return Rejected(QuoteAlreadyExecuted);
      }
      assert !IsExecuted(before, r.quoteId);
      var q := quotes[r.quoteId];
      if now >= q.expiresAt {
        Rollback();
        return Rejected(Error.QuoteExpired);
      }
      outcome := Settlement(r, q, executionId, now, doneAt, fault, before);
    }

    /** The part of execute_quote from the row locks on: funds, both entries, both rows, the response. */
    method Settlement(r: ExecuteRequest, q: Quote, executionId: Uuid, now: int, doneAt: int,
                      fault: FaultPoint, ghost before: Tables)
      returns (outcome: Outcome)
      requires Claimed(r, q, executionId, now, before)
      requires fault !in {AtReadKey, AtClaimKey, AtLockQuote, AtCheckExecuted}
      modifies this
      ensures Ready()
      ensures outcome != Rejected(Fault) ==>
                (committed, outcome) == ExecuteQuote(before, r, executionId, now, doneAt)
      ensures outcome == Rejected(Fault) ==> fault != NoFault && committed == before
      ensures fault != NoFault && Refusal(before, r, now).None? ==> outcome == Rejected(Fault)
    {
      hide Valid, Settle, UpdatedBalance, IsExecuted, ResponseOf;
      QuoteRows(before, r.quoteId);
      var order := LockOrder(q);
      if fault == AtEnsureFirst {
        outcome := Abandon();
        return;
      }
      EnsureBalanceRow((q.customer, order[0]));
      if fault == AtEnsureSecond {
        outcome := Abandon();
        return;
      }
      EnsureBalanceRow((q.customer, order[1]));
      if fault == AtLockFirst || fault == AtLockSecond {
        outcome := Abandon();
        return;
      }
      if balances[(q.customer, q.source)] < q.sourceAmount {
        Rollback();
        return Rejected(InsufficientFunds);
      }
      outcome := Transfer(r, q, executionId, now, doneAt, fault, before);
    }

    /** Where an execution stands when its checks on the quote have passed: only the key is staged. */
    ghost predicate Claimed(r: ExecuteRequest, q: Quote, executionId: Uuid, now: int, before: Tables)
      reads this
    {
      && Valid(before) && committed == before && FreshId(before, executionId)
      && r.key != "" && r.key !in before.keys && r.quoteId in before.quotes && q == before.quotes[r.quoteId]
      && !IsExecuted(before, r.quoteId) && now < q.expiresAt
      && Working() == before.(keys := before.keys[r.key := KeyRow(r.hash, None, None)])
    }

    /** The execution row, the debit and the credit, each entry with its balance. */
    method Transfer(r: ExecuteRequest, q: Quote, executionId: Uuid, now: int, doneAt: int,
                    fault: FaultPoint, ghost before: Tables)
      returns (outcome: Outcome)
      requires Claimed(r, q, executionId, now, before)
      requires AccountsPresent(before, q) && q.source != q.destination
      requires q.sourceAmount <= before.balances[(q.customer, q.source)]
      requires fault in {NoFault, AtInsertExecution, AtAppendDebit, AtAppendCredit, AtCommit}
      modifies this
      ensures Ready()
      ensures outcome != Rejected(Fault) ==>
                (committed, outcome) == ExecuteQuote(before, r, executionId, now, doneAt)
      ensures outcome == Rejected(Fault) ==> fault != NoFault && committed == before
      ensures fault != NoFault && Refusal(before, r, now).None? ==> outcome == Rejected(Fault)
    {
      hide Valid, Settle, UpdatedBalance, IsExecuted, ResponseOf;
      var sourceBalance, destinationBalance := balances[(q.customer, q.source)], balances[(q.customer, q.destination)];
      if fault == AtInsertExecution {
        outcome := Abandon();
        return;
      }
      executions := executions[executionId := Execution(r.quoteId, q.customer)];
      if fault == AtAppendDebit {
        outcome := Abandon();
        return;
      }
      var debited, newSource := PostEntry(DebitEntry(q, executionId), sourceBalance);
      if !debited {
        Rollback();
        return Rejected(NonPositiveAmount);
      }
      if fault == AtAppendCredit {
        outcome := Abandon();
        return;
      }
      var credited, newDestination := PostEntry(CreditEntry(q, executionId), destinationBalance);
      if !credited {
        Rollback();
        return Rejected(NonPositiveAmount);
      }
      if fault == AtCommit {
        outcome := Abandon();
        return;
      }
      SameCredit(before, q, executionId);
      if !FitsNumeric(newDestination) {
        Rollback();
        return Rejected(Error.NumericOverflow);
      }
      outcome := Complete(r, q, executionId, now, doneAt, newSource, newDestination, before);
    }

    /** Store the response under the key and commit. */
    method Complete(r: ExecuteRequest, q: Quote, executionId: Uuid, now: int, doneAt: int,
                    newSource: int, newDestination: int, ghost before: Tables)
      returns (outcome: Outcome)
      requires Valid(before) && FreshId(before, executionId) && Refusal(before, r, now).None?
      requires r.quoteId in before.quotes && q == before.quotes[r.quoteId] && AccountsPresent(before, q)
               && q.source != q.destination
      requires newSource == UpdatedBalance(before.balances[(q.customer, q.source)], DebitEntry(q, executionId))
      requires newDestination
               == UpdatedBalance(before.balances[(q.customer, q.destination)], CreditEntry(q, executionId))
      requires Working() == before.(
                 executions := before.executions[executionId := Execution(r.quoteId, q.customer)],
                 ledger := before.ledger + [DebitEntry(q, executionId)] + [CreditEntry(q, executionId)],
                 balances := before.balances[(q.customer, q.source) := newSource]
                                            [(q.customer, q.destination) := newDestination],
                 keys := before.keys[r.key := KeyRow(r.hash, None, None)])
      modifies this
      ensures Ready() && (committed, outcome) == ExecuteQuote(before, r, executionId, now, doneAt)
      ensures outcome.Completed?
    {
      hide Valid, Settle, UpdatedBalance, Refusal;
      SettleTables(before, r, executionId, doneAt);
      SettleKeeps(before, r, executionId, now, doneAt);
      var payload := Payload(executionId, r.quoteId, q.source, q.sourceAmount, q.destination, q.destinationAmount,
                             newSource, newDestination);
      assert payload == ResponseOf(before, r, executionId);
      keys := keys[r.key := KeyRow(r.hash, Some(payload), Some(doneAt))];
      assert ledger == before.ledger + [DebitEntry(q, executionId), CreditEntry(q, executionId)];
      assert keys == before.keys[r.key := KeyRow(r.hash, Some(payload), Some(doneAt))];
      assert Working() == Settle(before, r, executionId, doneAt);
      Commit();
      outcome := Completed(payload);
    }
  }

  /** A leg that cannot be priced fails the whole route. */
  lemma {:induction false} FirstFailureWins(rates: Pricing.Rates, route: seq<Currency>, n: nat)
    requires n <= |route| && Pricing.PriceLegs(rates, route[..n]).Err?
    ensures Pricing.PriceLegs(rates, route) == Pricing.PriceLegs(rates, route[..n])
  {
    if n == |route| {
      assert route[..n] == route;
    } else {
      var m := |route| - 1;
      assert route[..m][..n] == route[..n];
      FirstFailureWins(rates, route[..m], n);
    }
  }

  lemma AnyCurrency(c: Currency)
    ensures c in CURRENCIES
  {
    match c
    case USD => assert CURRENCIES[0] == c;
    case EUR => assert CURRENCIES[1] == c;
    case KES => assert CURRENCIES[2] == c;
    case NGN => assert CURRENCIES[3] == c;
  }

  /** A visible customer owns all four rows, so ensuring them inserts nothing. */
  lemma RowsAlreadyThere(db: Tables, customer: Uuid)
    requires Valid(db) && customer in db.customers
    ensures EnsureBalances(db, customer, CURRENCIES) == db
    ensures forall c: Currency :: (customer, c) in db.balances
  {
    NothingToInsert(db, customer, CURRENCIES);
  }

  lemma {:induction false} NothingToInsert(db: Tables, customer: Uuid, currencies: seq<Currency>)
    requires forall c: Currency :: (customer, c) in db.balances
    ensures EnsureBalances(db, customer, currencies) == db
  {
    if currencies != [] {
      NothingToInsert(db, customer, currencies[..|currencies| - 1]);
    }
  }

  lemma QuoteRows(db: Tables, quoteId: Uuid)
    requires Valid(db) && quoteId in db.quotes
    ensures var q := db.quotes[quoteId];
            AccountsPresent(db, q) && q.source != q.destination
            && (q.customer, LockOrder(q)[0]) in db.balances && (q.customer, LockOrder(q)[1]) in db.balances
  {
    assert ValidQuote(db, db.quotes[quoteId]);
  }

  lemma SameCredit(db: Tables, q: Quote, id: Uuid)
    requires (q.customer, q.destination) in db.balances
    ensures UpdatedBalance(db.balances[(q.customer, q.destination)], CreditEntry(q, id))
         == UpdatedBalance(db.balances[(q.customer, q.destination)], CreditEntry(q, 0))
  {
    UpdateExact(db.balances[(q.customer, q.destination)], CreditEntry(q, id));
    UpdateExact(db.balances[(q.customer, q.destination)], CreditEntry(q, 0));
  }
}
