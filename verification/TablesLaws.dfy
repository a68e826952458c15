/**
  What every committed transaction keeps: the cache equals the ledger, every prefix of the
  ledger is solvent, each execution is settled by exactly one debit and one credit on the quoted
  terms, and every idempotency row is complete.
 */
module TablesLaws {
  import opened Money
  import opened Tables
  import Pricing

  // ---------------------------------------------------------------- the invariant

  ghost predicate RowsComplete(db: Tables) {
    && (forall c, cur :: c in db.customers ==> (c, cur) in db.balances)
    && (forall a :: a in db.balances ==> a.0 in db.customers)
    && (forall e <- db.ledger :: AccountOf(e) in db.balances)
  }

  ghost predicate CacheMatches(db: Tables) {
    forall a :: a in db.balances ==> db.balances[a] == Net(db.ledger, a) && 0 <= db.balances[a] < NUMERIC_LIMIT
  }

  /** Replaying the ledger, no account is ever overdrawn. */
  ghost predicate Solvent(ledger: seq<LedgerEntry>) {
    forall n: nat, a: Account :: n <= |ledger| ==> Net(ledger[..n], a) >= 0
  }

  ghost predicate QuotesValid(db: Tables) {
    forall id :: id in db.quotes ==> ValidQuote(db, db.quotes[id])
  }

  ghost predicate ExecutionsValid(db: Tables) {
    && (forall e :: e in db.executions ==>
          db.executions[e].quoteId in db.quotes
          && db.executions[e].customer == db.quotes[db.executions[e].quoteId].customer)
    && (forall e, f :: e in db.executions && f in db.executions && e != f ==>
          db.executions[e].quoteId != db.executions[f].quoteId)
  }

  /** The entries that settle an execution: the quoted debit, then the quoted credit. */
  ghost function SettlementOf(db: Tables, ref: Reference): seq<LedgerEntry>
    requires ExecutionsValid(db)
  {
    match ref
    case ExecutionRef(e) =>
      if e in db.executions then
        var q := db.quotes[db.executions[e].quoteId];
        [DebitEntry(q, e), CreditEntry(q, e)]
      else []
    case AdjustmentRef(id) =>
      if id in db.adjustments then
        var adj := db.adjustments[id];
        [AdjustmentEntry(adj.customer, adj.currency, adj.amount, id)]
      else []
  }

  /** No entry without its event, no event without exactly its entries. */
  ghost predicate LedgerSettles(db: Tables)
    requires ExecutionsValid(db)
  {
    && (forall ref :: EntriesFor(db.ledger, ref) == SettlementOf(db, ref))
    && (forall e <- db.ledger :: e.amount > 0)
  }

  /** A committed key row is completed, with the response of an execution. */
  ghost predicate KeyRowsComplete(db: Tables) {
    forall k :: k in db.keys ==>
      && k != ""
      && db.keys[k].completedAt.Some? && db.keys[k].payload.Some?
      && var p := db.keys[k].payload.value;
         && p.executionId in db.executions
         && db.executions[p.executionId].quoteId == p.quoteId
         && p.quoteId in db.quotes
         && var q := db.quotes[p.quoteId];
            && p.debitCurrency == q.source && p.debitAmount == q.sourceAmount
            && p.creditCurrency == q.destination && p.creditAmount == q.destinationAmount
  }

  /** No response is stored under two keys. */
  ghost predicate PayloadsDistinct(db: Tables) {
    forall k, l :: k in db.keys && l in db.keys && db.keys[k].payload == db.keys[l].payload ==> k == l
  }

  ghost predicate KeysComplete(db: Tables) {
    KeyRowsComplete(db) && PayloadsDistinct(db)
  }

  ghost predicate Valid(db: Tables) {
    && RowsComplete(db) && CacheMatches(db) && Solvent(db.ledger)
    && QuotesValid(db) && ExecutionsValid(db) && LedgerSettles(db) && KeysComplete(db)
  }

  lemma EmptyValid()
    ensures Valid(EMPTY)
  {
  }

  // ---------------------------------------------------------------- ledger arithmetic

  lemma NetAppend(ledger: seq<LedgerEntry>, e: LedgerEntry, a: Account)
    ensures Net(ledger + [e], a) == Net(ledger, a) + if AccountOf(e) == a then Signed(e) else 0
  {
    assert (ledger + [e])[..|ledger|] == ledger;
  }

  lemma EntriesAppend(ledger: seq<LedgerEntry>, e: LedgerEntry, ref: Reference)
    ensures EntriesFor(ledger + [e], ref) == EntriesFor(ledger, ref) + if e.reference == ref then [e] else []
  {
    assert (ledger + [e])[..|ledger|] == ledger;
  }

  /** The reconciliation query computes credits minus debits. */
  lemma {:induction false} SumsAreNet(ledger: seq<LedgerEntry>, a: Account)
    ensures SumOf(ledger, a, Credit) - SumOf(ledger, a, Debit) == Net(ledger, a)
  {
    if ledger != [] {
      SumsAreNet(ledger[..|ledger| - 1], a);
    }
  }

  /** Reconciling from the ledger alone gives the cached balance, of every account. */
  lemma CacheEqualsLedger(db: Tables, a: Account)
    requires Valid(db) && a in db.balances
    ensures ComputeBalance(db.ledger, a) == db.balances[a] >= 0
  {
    SumsAreNet(db.ledger, a);
    RoundMoneyIdentity(Net(db.ledger, a));
  }

  lemma SolventAppend(ledger: seq<LedgerEntry>, e: LedgerEntry)
    requires Solvent(ledger) && Net(ledger + [e], AccountOf(e)) >= 0
    ensures Solvent(ledger + [e])
  {
    var more := ledger + [e];
    forall n: nat, a: Account | n <= |more|
      ensures Net(more[..n], a) >= 0
    {
      if n <= |ledger| {
        assert more[..n] == ledger[..n];
      } else {
        assert more[..n] == more;
        NetAppend(ledger, e, a);
        assert ledger[..|ledger|] == ledger;
      }
    }
  }

  /** Rounding an updated balance is the identity: nothing is created or destroyed. */
  lemma UpdateExact(balance: int, e: LedgerEntry)
    ensures UpdatedBalance(balance, e) == balance + Signed(e)
  {
    RoundMoneyIdentity(balance + Signed(e));
  }

  /** Posting an entry that the account can bear keeps cache, ledger and solvency in step. */
  lemma PostKeeps(db: Tables, e: LedgerEntry)
    requires RowsComplete(db) && CacheMatches(db) && Solvent(db.ledger)
    requires AccountOf(e) in db.balances
    requires 0 <= db.balances[AccountOf(e)] + Signed(e) < NUMERIC_LIMIT
    ensures RowsComplete(Post(db, e)) && CacheMatches(Post(db, e)) && Solvent(Post(db, e).ledger)
    ensures Post(db, e).balances.Keys == db.balances.Keys
    ensures Post(db, e).balances[AccountOf(e)] == db.balances[AccountOf(e)] + Signed(e)
  {
    var db' := Post(db, e);
    UpdateExact(db.balances[AccountOf(e)], e);
    forall a | a in db'.balances
      ensures db'.balances[a] == Net(db'.ledger, a) && 0 <= db'.balances[a] < NUMERIC_LIMIT
    {
      NetAppend(db.ledger, e, a);
    }
    NetAppend(db.ledger, e, AccountOf(e));
    SolventAppend(db.ledger, e);
  }

  // ---------------------------------------------------------------- execute_quote

  ghost predicate FreshId(db: Tables, id: Uuid) {
    id !in db.customers && id !in db.executions && id !in db.adjustments
  }

  /** Neither amount may be zero: such a quote can be stored, but never executes. */
  lemma ZeroAmountNeverExecutes(db: Tables, r: ExecuteRequest, id: Uuid, now: int, doneAt: int)
    requires r.quoteId in db.quotes
    requires db.quotes[r.quoteId].sourceAmount == 0 || db.quotes[r.quoteId].destinationAmount == 0
    ensures !ExecuteQuote(db, r, id, now, doneAt).1.Completed?
    ensures ExecuteQuote(db, r, id, now, doneAt).0 == db
  {
  }

  ghost predicate AccountsPresent(db: Tables, q: Quote) {
    (q.customer, q.source) in db.balances && (q.customer, q.destination) in db.balances
  }

  /** Exactly when an execution goes through. */
  ghost predicate Executable(db: Tables, r: ExecuteRequest, now: int) {
    && r.key != "" && r.key !in db.keys
    && r.quoteId in db.quotes
    && (forall e :: e in db.executions ==> db.executions[e].quoteId != r.quoteId)
    && var q := db.quotes[r.quoteId];
       && AccountsPresent(db, q)
       && now < q.createdAt + QUOTE_TTL
       && 0 < q.sourceAmount <= db.balances[(q.customer, q.source)]
       && 0 < q.destinationAmount
       && db.balances[(q.customer, q.destination)] + q.destinationAmount < NUMERIC_LIMIT
  }

  lemma ExecutableIff(db: Tables, r: ExecuteRequest, now: int)
    requires Valid(db)
    ensures Refusal(db, r, now).None? <==> Executable(db, r, now)
  {
    if r.quoteId in db.quotes {
      var q := db.quotes[r.quoteId];
      assert ValidQuote(db, q);
      UpdateExact(BalanceOf(db, (q.customer, q.destination)), CreditEntry(q, 0));
    }
  }

  /** After both posts: the source paid the quoted amount, the destination received it. */
  lemma SettleMoves(db: Tables, r: ExecuteRequest, id: Uuid, doneAt: int)
    requires RowsComplete(db) && CacheMatches(db) && Solvent(db.ledger)
    requires r.quoteId in db.quotes && AccountsPresent(db, db.quotes[r.quoteId])
    requires var q := db.quotes[r.quoteId];
             && q.source != q.destination
             && 0 < q.sourceAmount <= db.balances[(q.customer, q.source)]
             && 0 < q.destinationAmount
             && db.balances[(q.customer, q.destination)] + q.destinationAmount < NUMERIC_LIMIT
    ensures var db', q := Settle(db, r, id, doneAt), db.quotes[r.quoteId];
            && RowsComplete(db') && CacheMatches(db') && Solvent(db'.ledger)
            && db'.ledger == db.ledger + [DebitEntry(q, id), CreditEntry(q, id)]
            && db'.balances
               == db.balances[(q.customer, q.source) := db.balances[(q.customer, q.source)] - q.sourceAmount]
                             [(q.customer, q.destination) :=
                                db.balances[(q.customer, q.destination)] + q.destinationAmount]
            && ResponseOf(db, r, id).sourceBalance == db'.balances[(q.customer, q.source)]
            && ResponseOf(db, r, id).destinationBalance == db'.balances[(q.customer, q.destination)]
  {
    hide Net, UpdatedBalance;
    var q := db.quotes[r.quoteId];
    var inserted := db.(executions := db.executions[id := Execution(r.quoteId, q.customer)]);
    assert RowsComplete(inserted) && CacheMatches(inserted);
    PostKeeps(inserted, DebitEntry(q, id));
    var debited := Post(inserted, DebitEntry(q, id));
    PostKeeps(debited, CreditEntry(q, id));
    UpdateExact(BalanceOf(db, (q.customer, q.source)), DebitEntry(q, id));
    UpdateExact(BalanceOf(db, (q.customer, q.destination)), CreditEntry(q, id));
    var moved := Post(debited, CreditEntry(q, id));
    var db' := Settle(db, r, id, doneAt);
    assert db'.balances == moved.balances && db'.ledger == moved.ledger && db'.customers == moved.customers;
    assert db.ledger + [DebitEntry(q, id)] + [CreditEntry(q, id)]
        == db.ledger + [DebitEntry(q, id), CreditEntry(q, id)];
  }

  /** The serial execution, table by table. */
  lemma SettleTables(db: Tables, r: ExecuteRequest, t: Uuid, doneAt: int)
    requires r.quoteId in db.quotes
    requires AccountsPresent(db, db.quotes[r.quoteId])
    requires db.quotes[r.quoteId].source != db.quotes[r.quoteId].destination
    ensures var q := db.quotes[r.quoteId];
            var debit, credit := DebitEntry(q, t), CreditEntry(q, t);
            Settle(db, r, t, doneAt)
            == db.(executions := db.executions[t := Execution(r.quoteId, q.customer)],
                   ledger := db.ledger + [debit, credit],
                   balances := db.balances[AccountOf(debit) := UpdatedBalance(db.balances[AccountOf(debit)], debit)]
                                          [AccountOf(credit) := UpdatedBalance(db.balances[AccountOf(credit)], credit)],
                   keys := db.keys[r.key := KeyRow(r.hash, Some(ResponseOf(db, r, t)), Some(doneAt))])
  {
    hide UpdatedBalance, ResponseOf;
    var q := db.quotes[r.quoteId];
    assert db.ledger + [DebitEntry(q, t)] + [CreditEntry(q, t)] == db.ledger + [DebitEntry(q, t), CreditEntry(q, t)];
  }

  lemma SettleExecutions(db: Tables, r: ExecuteRequest, id: Uuid, doneAt: int)
    requires ExecutionsValid(db) && QuotesValid(db)
    requires r.quoteId in db.quotes && !IsExecuted(db, r.quoteId) && id !in db.executions
    ensures ExecutionsValid(Settle(db, r, id, doneAt)) && QuotesValid(Settle(db, r, id, doneAt))
  {
    var db' := Settle(db, r, id, doneAt);
    forall e, f | e in db'.executions && f in db'.executions && e != f
      ensures db'.executions[e].quoteId != db'.executions[f].quoteId
    {
      if e != id && f != id {
        assert e in db.executions && f in db.executions;
      }
    }
  }

  lemma SettleEntriesFor(db: Tables, r: ExecuteRequest, id: Uuid, doneAt: int, ref: Reference)
    requires ExecutionsValid(db) && EntriesFor(db.ledger, ref) == SettlementOf(db, ref)
    requires r.quoteId in db.quotes && id !in db.executions
    requires ExecutionsValid(Settle(db, r, id, doneAt))
    ensures EntriesFor(Settle(db, r, id, doneAt).ledger, ref) == SettlementOf(Settle(db, r, id, doneAt), ref)
  {
    hide EntriesFor, UpdatedBalance;
    var db', q := Settle(db, r, id, doneAt), db.quotes[r.quoteId];
    var debit, credit := DebitEntry(q, id), CreditEntry(q, id);
    assert db'.ledger == (db.ledger + [debit]) + [credit];
    EntriesAppend(db.ledger, debit, ref);
    EntriesAppend(db.ledger + [debit], credit, ref);
  }

  lemma SettleEntries(db: Tables, r: ExecuteRequest, id: Uuid, doneAt: int)
    requires ExecutionsValid(db) && LedgerSettles(db)
    requires r.quoteId in db.quotes && id !in db.executions
    requires db.quotes[r.quoteId].sourceAmount > 0 && db.quotes[r.quoteId].destinationAmount > 0
    requires ExecutionsValid(Settle(db, r, id, doneAt))
    ensures LedgerSettles(Settle(db, r, id, doneAt))
  {
    hide EntriesFor, UpdatedBalance, SettlementOf;
    var db', q := Settle(db, r, id, doneAt), db.quotes[r.quoteId];
    assert db'.ledger == (db.ledger + [DebitEntry(q, id)]) + [CreditEntry(q, id)];
    forall ref
      ensures EntriesFor(db'.ledger, ref) == SettlementOf(db', ref)
    {
      assert EntriesFor(db.ledger, ref) == SettlementOf(db, ref);
      SettleEntriesFor(db, r, id, doneAt, ref);
    }
  }

  lemma SettleKeyRows(db: Tables, r: ExecuteRequest, id: Uuid, doneAt: int)
    requires KeyRowsComplete(db)
    requires r.quoteId in db.quotes && id !in db.executions && r.key != ""
    ensures KeyRowsComplete(Settle(db, r, id, doneAt))
  {
    hide UpdatedBalance;
    var db' := Settle(db, r, id, doneAt);
    forall k | k in db.keys
      ensures var e := db.keys[k].payload.value.executionId; db'.executions[e] == db.executions[e]
    {
    }
  }

  lemma SettlePayloads(db: Tables, r: ExecuteRequest, id: Uuid, doneAt: int)
    requires KeyRowsComplete(db) && PayloadsDistinct(db)
    requires r.quoteId in db.quotes && id !in db.executions && r.key !in db.keys
    ensures PayloadsDistinct(Settle(db, r, id, doneAt))
  {
    hide UpdatedBalance;
    forall k | k in db.keys
      ensures db.keys[k].payload != Some(ResponseOf(db, r, id))
    {
      assert db.keys[k].payload.value.executionId in db.executions;
    }
  }

  /** A committed execution keeps the whole invariant. */
  lemma SettleKeeps(db: Tables, r: ExecuteRequest, id: Uuid, now: int, doneAt: int)
    requires Valid(db) && FreshId(db, id) && Refusal(db, r, now).None?
    ensures Valid(Settle(db, r, id, doneAt))
  {
    ExecutableIff(db, r, now);
    assert ValidQuote(db, db.quotes[r.quoteId]);
    SettleMoves(db, r, id, doneAt);
    SettleExecutions(db, r, id, doneAt);
    SettleEntries(db, r, id, doneAt);
    SettleKeyRows(db, r, id, doneAt);
    SettlePayloads(db, r, id, doneAt);
  }

  // ---------------------------------------------------------------- the other transactions

  /** What holds of quotes, executions and keys is not touched by other tables. */
  lemma TermsFrame(db: Tables, db': Tables)
    requires QuotesValid(db) && ExecutionsValid(db) && KeysComplete(db)
    requires db.customers <= db'.customers
    requires db'.quotes == db.quotes && db'.executions == db.executions && db'.keys == db.keys
    ensures QuotesValid(db') && ExecutionsValid(db') && KeysComplete(db')
  {
  }

  lemma CreditEntries(db: Tables, db': Tables, adj: Adjustment, id: Uuid)
    requires ExecutionsValid(db) && ExecutionsValid(db') && LedgerSettles(db)
    requires id !in db.adjustments && adj.amount > 0
    requires db'.adjustments == db.adjustments[id := adj]
    requires db'.quotes == db.quotes && db'.executions == db.executions
    requires db'.ledger == db.ledger + [AdjustmentEntry(adj.customer, adj.currency, adj.amount, id)]
    ensures LedgerSettles(db')
  {
    hide EntriesFor;
    forall ref
      ensures EntriesFor(db'.ledger, ref) == SettlementOf(db', ref)
    {
      EntriesAppend(db.ledger, AdjustmentEntry(adj.customer, adj.currency, adj.amount, id), ref);
      assert EntriesFor(db.ledger, ref) == SettlementOf(db, ref);
    }
  }

  lemma CreditKeeps(db: Tables, customer: Uuid, currency: Currency, amount: Dec, id: Uuid)
    requires Valid(db) && FreshId(db, id)
    ensures Valid(CreditBalance(db, customer, currency, amount, id).0)
  {
    hide EntriesFor, UpdatedBalance, Net, RoundMoney, KeysComplete, QuotesValid, LedgerSettles, Solvent;
    if CreditRefusal(db, customer, currency, amount).None? {
      var adj := Adjustment(customer, currency, RoundMoney(amount));
      var e := AdjustmentEntry(customer, currency, adj.amount, id);
      var inserted := db.(adjustments := db.adjustments[id := adj]);
      assert (customer, currency) in db.balances;
      UpdateExact(db.balances[(customer, currency)], e);
      UpdateExact(db.balances[(customer, currency)], AdjustmentEntry(customer, currency, adj.amount, 0));
      PostKeeps(inserted, e);
      TermsFrame(db, Post(inserted, e));
      CreditEntries(db, Post(inserted, e), adj, id);
    }
  }

  /**
    A credit goes through exactly for an existing customer and an amount that is positive and
    storable once rounded; it adds that amount to the balance and to the ledger, and nothing else.
   */
  lemma CreditEffect(db: Tables, customer: Uuid, currency: Currency, amount: Dec, id: Uuid)
    requires Valid(db)
    ensures var a, rounded := (customer, currency), RoundMoney(amount);
            var (db', outcome) := CreditBalance(db, customer, currency, amount, id);
            && (outcome.Credited? <==>
                  customer in db.customers && 0 < rounded && BalanceOf(db, a) + rounded < NUMERIC_LIMIT)
            && (!outcome.Credited? ==> db' == db)
            && (outcome.Credited? ==>
                  && outcome.balance == BalanceOf(db, a) + rounded
                  && db' == db.(
                       balances := db.balances[a := BalanceOf(db, a) + rounded],
                       adjustments := db.adjustments[id := Adjustment(customer, currency, rounded)],
                       ledger := db.ledger + [LedgerEntry(customer, currency, rounded, Credit, AdjustmentRef(id))]))
  {
    hide RoundMoney, Solvent, LedgerSettles, KeysComplete, QuotesValid, ExecutionsValid, Net;
    var a, rounded := (customer, currency), RoundMoney(amount);
    UpdateExact(BalanceOf(db, a), AdjustmentEntry(customer, currency, rounded, id));
    UpdateExact(BalanceOf(db, a), AdjustmentEntry(customer, currency, rounded, 0));
    assert customer in db.customers ==> a in db.balances;
  }

  /** A new customer owns all four balances, at zero, from the commit that makes it visible. */
  lemma CreateCustomerRows(db: Tables, id: Uuid)
    requires RowsComplete(db) && id !in db.customers
    ensures CreateCustomer(db, id)
         == db.(customers := db.customers + {id},
                balances := db.balances[(id, USD) := 0][(id, EUR) := 0][(id, KES) := 0][(id, NGN) := 0])
  {
    var db0 := db.(customers := db.customers + {id});
    assert CURRENCIES[..3] == [USD, EUR, KES];
    assert [USD, EUR, KES][..2] == [USD, EUR] && [USD, EUR][..1] == [USD] && [USD][..0] == [];
    assert EnsureBalances(db0, id, []) == db0;
    assert EnsureBalances(db0, id, [USD]) == db0.(balances := db.balances[(id, USD) := 0]);
    assert EnsureBalances(db0, id, [USD, EUR]) == db0.(balances := db.balances[(id, USD) := 0][(id, EUR) := 0]);
    assert EnsureBalances(db0, id, [USD, EUR, KES])
        == db0.(balances := db.balances[(id, USD) := 0][(id, EUR) := 0][(id, KES) := 0]);
  }

  lemma NoEntriesNoNet(ledger: seq<LedgerEntry>, a: Account)
    requires forall e <- ledger :: AccountOf(e) != a
    ensures Net(ledger, a) == 0
  {
  }

  lemma CreateCustomerKeeps(db: Tables, id: Uuid)
    requires Valid(db) && FreshId(db, id)
    ensures Valid(CreateCustomer(db, id))
  {
    hide EntriesFor, Net, KeysComplete, QuotesValid;
    CreateCustomerRows(db, id);
    var db' := CreateCustomer(db, id);
    TermsFrame(db, db');
    forall a | a in db'.balances
      ensures db'.balances[a] == Net(db'.ledger, a) && 0 <= db'.balances[a] < NUMERIC_LIMIT
    {
      if a !in db.balances {
        NoEntriesNoNet(db.ledger, a);
      }
    }
    forall c, cur | c in db'.customers
      ensures (c, cur) in db'.balances
    {
      match cur case USD => case EUR => case KES => case NGN =>
    }
    forall ref
      ensures EntriesFor(db'.ledger, ref) == SettlementOf(db', ref)
    {
      assert EntriesFor(db.ledger, ref) == SettlementOf(db, ref);
    }
  }

  lemma StoreQuoteKeeps(db: Tables, id: Uuid, q: Quote, legs: seq<Pricing.LegPricing>)
    requires Valid(db) && id !in db.quotes && ValidQuote(db, q)
    ensures Valid(StoreQuote(db, id, q, legs))
  {
    hide EntriesFor, Net;
    var db' := StoreQuote(db, id, q, legs);
    forall ref
      ensures EntriesFor(db'.ledger, ref) == SettlementOf(db', ref)
    {
      assert EntriesFor(db.ledger, ref) == SettlementOf(db, ref);
    }
  }

  // ---------------------------------------------------------------- conservation

  /** What the listed customers hold of a currency according to the ledger. */
  ghost function HeldIn(ledger: seq<LedgerEntry>, customers: seq<Uuid>, currency: Currency): int {
    if customers == [] then 0
    else
      var n := |customers| - 1;
      HeldIn(ledger, customers[..n], currency) + Net(ledger, (customers[n], currency))
  }

  /** What the listed customers hold of a currency according to the balance rows. */
  ghost function TotalBalance(db: Tables, customers: seq<Uuid>, currency: Currency): int {
    if customers == [] then 0
    else
      var n := |customers| - 1;
      TotalBalance(db, customers[..n], currency) + BalanceOf(db, (customers[n], currency))
  }

  /** Adjustments plus execution credits minus execution debits, of one currency. */
  ghost function Issued(ledger: seq<LedgerEntry>, currency: Currency): int {
    if ledger == [] then 0
    else
      var n := |ledger| - 1;
      var e := ledger[n];
      Issued(ledger[..n], currency)
      + if e.currency != currency then 0
        else if e.reference.AdjustmentRef? || e.direction == Credit then e.amount
        else -e.amount
  }

  ghost predicate Distinct(customers: seq<Uuid>) {
    forall i, j :: 0 <= i < j < |customers| ==> customers[i] != customers[j]
  }

  lemma {:induction false} HeldAppend(
      ledger: seq<LedgerEntry>, e: LedgerEntry, customers: seq<Uuid>, currency: Currency)
    requires Distinct(customers)
    ensures HeldIn(ledger + [e], customers, currency) == HeldIn(ledger, customers, currency)
         + if e.currency == currency && e.customer in customers then Signed(e) else 0
  {
    if customers != [] {
      var n := |customers| - 1;
      HeldAppend(ledger, e, customers[..n], currency);
      NetAppend(ledger, e, (customers[n], currency));
      assert customers == customers[..n] + [customers[n]];
    }
  }

  lemma {:induction false} HeldIsIssued(ledger: seq<LedgerEntry>, customers: seq<Uuid>, currency: Currency)
    requires Distinct(customers)
    requires forall e <- ledger :: e.customer in customers && (e.reference.AdjustmentRef? ==> e.direction == Credit)
    ensures HeldIn(ledger, customers, currency) == Issued(ledger, currency)
  {
    if ledger == [] {
      NothingHeld(customers, currency);
    } else {
      var n := |ledger| - 1;
      HeldIsIssued(ledger[..n], customers, currency);
      HeldAppend(ledger[..n], ledger[n], customers, currency);
      assert ledger[..n] + [ledger[n]] == ledger;
    }
  }

  lemma NothingHeld(customers: seq<Uuid>, currency: Currency)
    ensures HeldIn([], customers, currency) == 0
  {
  }

  lemma {:induction false} BalancesAreHeld(db: Tables, customers: seq<Uuid>, currency: Currency)
    requires RowsComplete(db) && CacheMatches(db) && forall c <- customers :: c in db.customers
    ensures TotalBalance(db, customers, currency) == HeldIn(db.ledger, customers, currency)
  {
    if customers != [] {
      var n := |customers| - 1;
      BalancesAreHeld(db, customers[..n], currency);
      assert (customers[n], currency) in db.balances;
    }
  }

  /** An entry is one of its event's entries. */
  lemma {:induction false} EntryListed(ledger: seq<LedgerEntry>, e: LedgerEntry)
    requires e in ledger
    ensures e in EntriesFor(ledger, e.reference)
  {
    var n := |ledger| - 1;
    if ledger[n] != e {
      assert e in ledger[..n];
      EntryListed(ledger[..n], e);
    }
  }

  /**
    Conservation: whatever order the customers are listed in, the balances of a currency add up
    to the adjustments plus the execution credits minus the execution debits.
   */
  lemma Conservation(db: Tables, customers: seq<Uuid>, currency: Currency)
    requires Valid(db) && Distinct(customers) && forall c :: c in customers <==> c in db.customers
    ensures TotalBalance(db, customers, currency) == Issued(db.ledger, currency)
  {
    hide EntriesFor, Net;
    forall e | e in db.ledger
      ensures e.customer in customers && (e.reference.AdjustmentRef? ==> e.direction == Credit)
    {
      assert AccountOf(e) in db.balances;
      EntryListed(db.ledger, e);
      assert EntriesFor(db.ledger, e.reference) == SettlementOf(db, e.reference);
    }
    BalancesAreHeld(db, customers, currency);
    HeldIsIssued(db.ledger, customers, currency);
  }
}
