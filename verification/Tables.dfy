/**
  The committed tables, and what one money-moving transaction does to them when it runs alone.
 */
module Tables {
  import opened Money
  import Pricing

  // Identifiers are fresh values; uuid4 never repeats one.
  type Uuid = nat
  type Account = (Uuid, Currency)

  datatype Direction = Debit | Credit

  datatype Reference = ExecutionRef(id: Uuid) | AdjustmentRef(id: Uuid)

  datatype LedgerEntry = LedgerEntry(
    customer: Uuid, currency: Currency, amount: int, direction: Direction, reference: Reference)

  datatype Quote = Quote(
    customer: Uuid, source: Currency, destination: Currency, sourceAmount: int, destinationAmount: int,
    rate: int, route: seq<Currency>, spreadBps: nat, createdAt: int, expiresAt: int)

  datatype Execution = Execution(quoteId: Uuid, customer: Uuid)

  datatype Adjustment = Adjustment(customer: Uuid, currency: Currency, amount: int)

  // SHA-256 of the canonical JSON is taken to be injective, so the hash is the request itself.
  datatype RequestHash = RequestHash(verb: string, path: string, quoteId: Uuid)

  /** The stored response: both legs and the two balances after the execution. */
  datatype Payload = Payload(
    executionId: Uuid, quoteId: Uuid,
    debitCurrency: Currency, debitAmount: int, creditCurrency: Currency, creditAmount: int,
    sourceBalance: int, destinationBalance: int)

  datatype KeyRow = KeyRow(hash: RequestHash, payload: Option<Payload>, completedAt: Option<int>)

  datatype Tables = Tables(
    customers: set<Uuid>,
    balances: map<Account, int>,
    quotes: map<Uuid, Quote>,
    quoteLegs: map<Uuid, seq<Pricing.LegPricing>>,
    executions: map<Uuid, Execution>,
    ledger: seq<LedgerEntry>,
    adjustments: map<Uuid, Adjustment>,
    keys: map<string, KeyRow>)

  const EMPTY: Tables := Tables({}, map[], map[], map[], map[], [], map[], map[])

  datatype Error =
    | KeyMissing | IdempotencyConflict | QuoteNotFound | QuoteAlreadyExecuted | QuoteExpired
    | InsufficientFunds | CustomerNotFound | NonPositiveAmount | NumericOverflow | Fault

  datatype Outcome =
    | Completed(payload: Payload)
    | Replayed(payload: Payload)
    | Credited(balance: int)
    | Created
    | Rejected(error: Error)

  // ---------------------------------------------------------------- rows and accounts

  const CURRENCIES: seq<Currency> := [USD, EUR, KES, NGN]

  /** The rank of a currency's code in alphabetical order: EUR, KES, NGN, USD. */
  function CodeRank(c: Currency): nat {
    match c
    case EUR => 0
    case KES => 1
    case NGN => 2
    case USD => 3
  }

  /** The two currencies of a quote in the order their balance rows are locked. */
  function LockOrder(q: Quote): (order: seq<Currency>)
    ensures |order| == 2
  {
    if CodeRank(q.source) <= CodeRank(q.destination) then [q.source, q.destination]
    else [q.destination, q.source]
  }

  function AccountOf(e: LedgerEntry): Account {
    (e.customer, e.currency)
  }

  function BalanceOf(db: Tables, a: Account): int {
    if a in db.balances then db.balances[a] else 0
  }

  predicate IsExecuted(db: Tables, quoteId: Uuid) {
    exists e :: e in db.executions && db.executions[e].quoteId == quoteId
  }

  // ---------------------------------------------------------------- the ledger

  function Signed(e: LedgerEntry): int {
    if e.direction == Credit then e.amount else -e.amount
  }

  /** Credits minus debits of one account. */
  function Net(ledger: seq<LedgerEntry>, a: Account): int {
    if ledger == [] then 0
    else
      var n := |ledger| - 1;
      Net(ledger[..n], a) + if AccountOf(ledger[n]) == a then Signed(ledger[n]) else 0
  }

  function SumOf(ledger: seq<LedgerEntry>, a: Account, direction: Direction): int {
    if ledger == [] then 0
    else
      var n := |ledger| - 1;
      SumOf(ledger[..n], a, direction)
      + if AccountOf(ledger[n]) == a && ledger[n].direction == direction then ledger[n].amount else 0
  }

  /** The reconciliation query: two sums, their difference rounded to cents. */
  function ComputeBalance(ledger: seq<LedgerEntry>, a: Account): int {
    RoundMoney(Dec(SumOf(ledger, a, Credit) - SumOf(ledger, a, Debit), MONEY_PLACES))
  }

  /** The entries that reference one business event, in ledger order. */
  function EntriesFor(ledger: seq<LedgerEntry>, ref: Reference): seq<LedgerEntry> {
    if ledger == [] then []
    else
      var n := |ledger| - 1;
      EntriesFor(ledger[..n], ref) + if ledger[n].reference == ref then [ledger[n]] else []
  }

  function UpdatedBalance(balance: int, e: LedgerEntry): int {
    RoundMoney(Dec(balance + Signed(e), MONEY_PLACES))
  }

  /** Append an entry and update the cached balance of its account. */
  function Post(db: Tables, e: LedgerEntry): Tables {
    db.(ledger := db.ledger + [e],
        balances := db.balances[AccountOf(e) := UpdatedBalance(BalanceOf(db, AccountOf(e)), e)])
  }

  // ---------------------------------------------------------------- execute_quote

  datatype ExecuteRequest = ExecuteRequest(quoteId: Uuid, key: string, hash: RequestHash)

  function DebitEntry(q: Quote, executionId: Uuid): LedgerEntry {
    LedgerEntry(q.customer, q.source, q.sourceAmount, Debit, ExecutionRef(executionId))
  }

  function CreditEntry(q: Quote, executionId: Uuid): LedgerEntry {
    LedgerEntry(q.customer, q.destination, q.destinationAmount, Credit, ExecutionRef(executionId))
  }

  /** The first check that stops an execution, in the order the checks are made. */
  function Refusal(db: Tables, r: ExecuteRequest, now: int): Option<Outcome> {
    if r.key == "" then Some(Rejected(KeyMissing))
    else if r.key in db.keys then
      var row := db.keys[r.key];
      if row.hash != r.hash then Some(Rejected(IdempotencyConflict))
      else if row.completedAt.Some? && row.payload.Some? then Some(Replayed(row.payload.value))
      else Some(Rejected(IdempotencyConflict))
    else if r.quoteId !in db.quotes then Some(Rejected(QuoteNotFound))
    else if IsExecuted(db, r.quoteId) then Some(Rejected(QuoteAlreadyExecuted))
    else
      var q := db.quotes[r.quoteId];
      if now >= q.expiresAt then Some(Rejected(QuoteExpired))
      else if BalanceOf(db, (q.customer, q.source)) < q.sourceAmount then Some(Rejected(InsufficientFunds))
      else if q.sourceAmount <= 0 || q.destinationAmount <= 0 then Some(Rejected(NonPositiveAmount))
      else if !FitsNumeric(UpdatedBalance(BalanceOf(db, (q.customer, q.destination)), CreditEntry(q, 0)))
      then Some(Rejected(NumericOverflow))
      else None
  }

  function ResponseOf(db: Tables, r: ExecuteRequest, executionId: Uuid): Payload
    requires r.quoteId in db.quotes
  {
    var q := db.quotes[r.quoteId];
    Payload(executionId, r.quoteId, q.source, q.sourceAmount, q.destination, q.destinationAmount,
            UpdatedBalance(BalanceOf(db, (q.customer, q.source)), DebitEntry(q, executionId)),
            UpdatedBalance(BalanceOf(db, (q.customer, q.destination)), CreditEntry(q, executionId)))
  }

  /** What a committed execution leaves behind. */
  function Settle(db: Tables, r: ExecuteRequest, executionId: Uuid, doneAt: int): Tables
    requires r.quoteId in db.quotes
  {
    var q := db.quotes[r.quoteId];
    var inserted := db.(executions := db.executions[executionId := Execution(r.quoteId, q.customer)]);
    var moved := Post(Post(inserted, DebitEntry(q, executionId)), CreditEntry(q, executionId));
    moved.(keys := moved.keys[r.key := KeyRow(r.hash, Some(ResponseOf(db, r, executionId)), Some(doneAt))])
  }

  function ExecuteQuote(db: Tables, r: ExecuteRequest, executionId: Uuid, now: int, doneAt: int): (Tables, Outcome) {
    match Refusal(db, r, now)
    case Some(outcome) => (db, outcome)
    case None => (Settle(db, r, executionId, doneAt), Completed(ResponseOf(db, r, executionId)))
  }

  // ---------------------------------------------------------------- customers

  function AdjustmentEntry(customer: Uuid, currency: Currency, amount: int, id: Uuid): LedgerEntry {
    LedgerEntry(customer, currency, amount, Credit, AdjustmentRef(id))
  }

  function CreditRefusal(db: Tables, customer: Uuid, currency: Currency, amount: Dec): Option<Error> {
    var rounded := RoundMoney(amount);
    if customer !in db.customers then Some(CustomerNotFound)
    else if !FitsNumeric(rounded) then Some(NumericOverflow)
    else if rounded <= 0 then Some(NonPositiveAmount)
    else if !FitsNumeric(UpdatedBalance(BalanceOf(db, (customer, currency)),
                                        AdjustmentEntry(customer, currency, rounded, 0)))
    then Some(NumericOverflow)
    else None
  }

  function CreditBalance(db: Tables, customer: Uuid, currency: Currency, amount: Dec, id: Uuid): (Tables, Outcome) {
    match CreditRefusal(db, customer, currency, amount)
    case Some(error) => (db, Rejected(error))
    case None =>
      var rounded := RoundMoney(amount);
      var inserted := db.(adjustments := db.adjustments[id := Adjustment(customer, currency, rounded)]);
      var db' := Post(inserted, AdjustmentEntry(customer, currency, rounded, id));
      (db', Credited(db'.balances[(customer, currency)]))
  }

  /** INSERT ... ON CONFLICT DO NOTHING of a zero balance. */
  function EnsureBalance(db: Tables, a: Account): Tables {
    if a in db.balances then db else db.(balances := db.balances[a := 0])
  }

  function EnsureBalances(db: Tables, customer: Uuid, currencies: seq<Currency>): Tables {
    if currencies == [] then db
    else
      var n := |currencies| - 1;
      EnsureBalance(EnsureBalances(db, customer, currencies[..n]), (customer, currencies[n]))
  }

  function CreateCustomer(db: Tables, id: Uuid): Tables {
    EnsureBalances(db.(customers := db.customers + {id}), id, CURRENCIES)
  }

  // ---------------------------------------------------------------- quotes

  const QUOTE_TTL: int := 60_000_000 // microseconds

  /** What create_quote guarantees of every row it stores, whatever the rates were. */
  ghost predicate ValidQuote(db: Tables, q: Quote) {
    && q.customer in db.customers
    && q.source != q.destination
    && FitsNumeric(q.sourceAmount) && FitsNumeric(q.destinationAmount)
    && q.expiresAt == q.createdAt + QUOTE_TTL
  }

  function StoreQuote(db: Tables, id: Uuid, q: Quote, legs: seq<Pricing.LegPricing>): Tables {
    db.(quotes := db.quotes[id := q], quoteLegs := db.quoteLegs[id := legs])
  }
}
