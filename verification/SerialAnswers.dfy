/**
  What the services answer when they run alone: each answer, and exactly when it is given, in
  terms of the ledger and of the stored rows; and the round trip of an idempotency key.
 */
module SerialAnswers {
  import opened Money
  import opened Tables
  import opened TablesLaws
  import opened Protocol

  // ---------------------------------------------------------------- execute_quote

  /** The key names nothing committed, the quote exists and no execution is of it. */
  ghost predicate Unspent(db: Tables, r: ExecuteRequest) {
    && r.key != "" && r.key !in db.keys
    && r.quoteId in db.quotes
    && forall e :: e in db.executions ==> db.executions[e].quoteId != r.quoteId
  }

  /** Unspent, and less than sixty seconds old. */
  ghost predicate InTime(db: Tables, r: ExecuteRequest, now: int) {
    Unspent(db, r) && now < db.quotes[r.quoteId].createdAt + 60_000_000
  }

  /** In time, and the ledger has the funds. */
  ghost predicate Covered(db: Tables, r: ExecuteRequest, now: int) {
    && InTime(db, r, now)
    && var q := db.quotes[r.quoteId];
       q.sourceAmount <= Net(db.ledger, (q.customer, q.source))
  }

  ghost predicate Positive(q: Quote) {
    0 < q.sourceAmount && 0 < q.destinationAmount
  }

  /** The destination balance would have more than twenty digits. */
  ghost predicate TooLarge(db: Tables, q: Quote) {
    Net(db.ledger, (q.customer, q.destination)) + q.destinationAmount >= 100_000_000_000_000_000_000
  }

  /** What a request is answered whose key has been committed. */
  function UsedKeyAnswer(row: KeyRow, hash: RequestHash): Outcome
    requires row.payload.Some?
  {
    if row.hash == hash then Replayed(row.payload.value) else Rejected(IdempotencyConflict)
  }

  /**
    The answers of execute_quote, each exactly when it is due. Only a completed execution changes
    a table.
   */
  lemma ExecuteAnswers(db: Tables, r: ExecuteRequest, id: Uuid, now: int, doneAt: int)
    requires Valid(db)
    ensures var (db', o) := ExecuteQuote(db, r, id, now, doneAt);
            && (o == Rejected(KeyMissing) <==> r.key == "")
            && (r.key in db.keys ==> db.keys[r.key].payload.Some? && o == UsedKeyAnswer(db.keys[r.key], r.hash))
            && (o == Rejected(IdempotencyConflict) ==> r.key in db.keys)
            && (o == Rejected(QuoteNotFound) <==> r.key != "" && r.key !in db.keys && r.quoteId !in db.quotes)
            && (o == Rejected(QuoteAlreadyExecuted) <==>
                  && r.key != "" && r.key !in db.keys && r.quoteId in db.quotes
                  && exists e :: e in db.executions && db.executions[e].quoteId == r.quoteId)
            && (o == Rejected(QuoteExpired) <==> Unspent(db, r) && !InTime(db, r, now))
            && (o == Rejected(InsufficientFunds) <==> InTime(db, r, now) && !Covered(db, r, now))
            && (o == Rejected(NonPositiveAmount) <==> Covered(db, r, now) && !Positive(db.quotes[r.quoteId]))
            && (o == Rejected(NumericOverflow) <==>
                  Covered(db, r, now) && Positive(db.quotes[r.quoteId]) && TooLarge(db, db.quotes[r.quoteId]))
            && (o.Completed? <==>
                  Covered(db, r, now) && Positive(db.quotes[r.quoteId]) && !TooLarge(db, db.quotes[r.quoteId]))
            && (!o.Completed? ==> db' == db)
  {
    hide Settle, ResponseOf, Net, UpdatedBalance, Solvent, LedgerSettles, ExecutionsValid, PayloadsDistinct;
    if r.quoteId in db.quotes {
      var q := db.quotes[r.quoteId];
      assert ValidQuote(db, q);
      UpdateExact(BalanceOf(db, (q.customer, q.destination)), CreditEntry(q, 0));
    }
  }

  /** No transaction rewrites a committed key. */
  lemma KeysStay(db: Tables, e: LogEntry, key: string)
    requires key in db.keys
    ensures key in Serial(db, e).0.keys && Serial(db, e).0.keys[key] == db.keys[key]
  {
    hide ResponseOf, UpdatedBalance, RoundMoney, CreditRefusal;
    if e.TxnEntry? && e.req.CustomerReq? {
      OpeningKeepsKeys(db.(customers := db.customers + {e.id}), e.id, CURRENCIES);
    }
  }

  lemma {:induction false} OpeningKeepsKeys(db: Tables, id: Uuid, currencies: seq<Currency>)
    ensures EnsureBalances(db, id, currencies).keys == db.keys
  {
    if currencies != [] {
      OpeningKeepsKeys(db, id, currencies[..|currencies| - 1]);
    }
  }

  lemma {:induction false} KeysStayForGood(db: Tables, log: seq<LogEntry>, key: string)
    requires key in db.keys
    ensures key in SerialRun(db, log).keys && SerialRun(db, log).keys[key] == db.keys[key]
  {
    hide Serial;
    if log != [] {
      var n := |log| - 1;
      KeysStayForGood(db, log[..n], key);
      KeysStay(SerialRun(db, log[..n]), log[n], key);
    }
  }

  /**
    The round trip of a key. Once an execution has completed under a key, whatever is committed
    later, every request with that key leaves the tables alone: with the same hash it is answered
    with the first response, balances of that time included, with any other hash it conflicts.
   */
  lemma ReplayRoundTrip(
      db: Tables, r: ExecuteRequest, id: Uuid, now: int, doneAt: int, p: Payload, log: seq<LogEntry>,
      r': ExecuteRequest, id': Uuid, now': int, doneAt': int)
    requires ExecuteQuote(db, r, id, now, doneAt).1 == Completed(p) && r'.key == r.key
    ensures var later := SerialRun(ExecuteQuote(db, r, id, now, doneAt).0, log);
            ExecuteQuote(later, r', id', now', doneAt')
            == (later, if r'.hash == r.hash then Replayed(p) else Rejected(IdempotencyConflict))
  {
    hide ResponseOf, UpdatedBalance, SerialRun, IsExecuted;
    var done := ExecuteQuote(db, r, id, now, doneAt).0;
    assert done.keys[r.key] == KeyRow(r.hash, Some(p), Some(doneAt));
    KeysStayForGood(done, log, r.key);
  }

  // ---------------------------------------------------------------- credit_balance

  /** The answers of credit_balance, each exactly when it is due. Only a credit changes a table. */
  lemma CreditAnswers(db: Tables, customer: Uuid, currency: Currency, amount: Dec, id: Uuid)
    requires Valid(db)
    ensures var (db', o) := CreditBalance(db, customer, currency, amount, id);
            var rounded, held := RoundMoney(amount), Net(db.ledger, (customer, currency));
            && (o == Rejected(CustomerNotFound) <==> customer !in db.customers)
            && (customer in db.customers ==> o == CreditVerdict(held, rounded))
            && (!o.Credited? ==> db' == db)
  {
    hide RoundMoney, Solvent, LedgerSettles, KeysComplete, QuotesValid, ExecutionsValid, Net;
    var a, rounded := (customer, currency), RoundMoney(amount);
    UpdateExact(BalanceOf(db, a), AdjustmentEntry(customer, currency, rounded, id));
    UpdateExact(BalanceOf(db, a), AdjustmentEntry(customer, currency, rounded, 0));
    assert customer in db.customers ==> a in db.balances;
  }

  /** What an existing customer is answered who holds so much and is credited so much. */
  function CreditVerdict(held: int, rounded: int): Outcome {
    if 0 < rounded < 100_000_000_000_000_000_000 - held then Credited(held + rounded)
    else if -100_000_000_000_000_000_000 < rounded <= 0 then Rejected(NonPositiveAmount)
    else Rejected(NumericOverflow)
  }
}
