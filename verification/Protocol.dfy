/**
  Any number of execute_quote, credit_balance and create_customer transactions, cut into their
  SQL statements and interleaved at will.

  The database runs at READ COMMITTED: a statement sees the latest commit and its own writes. An
  insert whose unique key another transaction has written and not committed waits for that
  transaction; FOR UPDATE waits for the row lock and then reads the row as it is when the lock is granted.
 */
module Protocol {
  import opened Money
  import opened Tables
  import Pricing

  datatype Request =
    | ExecuteReq(r: ExecuteRequest)
    | CreditReq(customer: Uuid, currency: Currency, amount: Dec)
    | CustomerReq

  /** The statement a transaction is about to issue. */
  datatype Pc =
    | ReadKey | ClaimKey | LockQuote | CheckExecuted | CheckExpiry
    | EnsureQuoteRow(i: nat) | LockQuoteRow(i: nat)
    | CheckFunds | InsertExecution | AppendDebit | AppendCredit | CommitExecution
    | FindCustomer | EnsureRow | LockRow | InsertAdjustment | AppendAdjustment | CommitCredit
    | InsertCustomer | OpenRow(i: nat) | CommitCustomer
    | Done

  /** What a transaction has written and not committed. */
  datatype Writes = Writes(
    customers: set<Uuid>, balances: map<Account, int>, executions: map<Uuid, Execution>,
    ledger: seq<LedgerEntry>, adjustments: map<Uuid, Adjustment>, keys: map<string, KeyRow>)

  const NO_WRITES: Writes := Writes({}, map[], map[], [], map[], map[])
  const NO_QUOTE: Quote := Quote(0, USD, USD, 0, 0, 0, [], 0, 0, 0)

  /** A transaction: its private writes, the locks it holds, and its local variables. */
  datatype Txn = Txn(
    req: Request, pc: Pc, w: Writes, quoteLock: Option<Uuid>, rowLocks: set<Account>,
    quote: Quote, rows: map<Currency, int>, checkedAt: int, outcome: Option<Outcome>)

  /** The history of commits; a quote commits in a transaction of its own. */
  datatype LogEntry =
    | TxnEntry(id: Uuid, req: Request, checkedAt: int, doneAt: int, outcome: Outcome)
    | QuoteEntry(id: Uuid, quote: Quote, legs: seq<Pricing.LegPricing>)

  datatype State = State(db: Tables, txns: map<Uuid, Txn>, now: int, log: seq<LogEntry>)

  /** The latest commit overlaid with a transaction's own writes; also what committing them leaves. */
  function View(db: Tables, w: Writes): Tables {
    Tables(db.customers + w.customers, db.balances + w.balances, db.quotes, db.quoteLegs,
           db.executions + w.executions, db.ledger + w.ledger, db.adjustments + w.adjustments,
           db.keys + w.keys)
  }

  // ---------------------------------------------------------------- waiting

  predicate KeyPending(s: State, t: Uuid, key: string) {
    exists u :: u in s.txns && u != t && key in s.txns[u].w.keys
  }

  predicate QuoteLocked(s: State, t: Uuid, quoteId: Uuid) {
    exists u :: u in s.txns && u != t && s.txns[u].quoteLock == Some(quoteId)
  }

  predicate RowLocked(s: State, t: Uuid, a: Account) {
    exists u :: u in s.txns && u != t && a in s.txns[u].rowLocks
  }

  predicate RowPending(s: State, t: Uuid, a: Account) {
    exists u :: u in s.txns && u != t && a in s.txns[u].w.balances
  }

  predicate ExecutionPending(s: State, t: Uuid, quoteId: Uuid) {
    exists u :: u in s.txns && u != t && IsExecuted(View(EMPTY, s.txns[u].w), quoteId)
  }

  // ---------------------------------------------------------------- one statement

  function Put(s: State, t: Uuid, x: Txn): State {
    s.(txns := s.txns[t := x])
  }

  /** The end of a transaction: writes are discarded, locks released. */
  function Ended(x: Txn, outcome: Outcome): Txn {
    x.(pc := Done, w := NO_WRITES, quoteLock := None, rowLocks := {}, outcome := Some(outcome))
  }

  function Abort(s: State, t: Uuid, x: Txn, error: Error): State {
    Put(s, t, Ended(x, Rejected(error)))
  }

  function Commit(s: State, t: Uuid, x: Txn, outcome: Outcome): State {
    State(View(s.db, x.w), s.txns[t := Ended(x, outcome)], s.now,
          s.log + [TxnEntry(t, x.req, x.checkedAt, s.now, outcome)])
  }

  /**
    INSERT INTO balances ... ON CONFLICT DO NOTHING. It waits for another transaction's uncommitted
    insert of the row, and for an uncommitted update of it; a row that is only locked conflicts at once.
   */
  function EnsureStep(s: State, t: Uuid, x: Txn, a: Account, next: Pc): Option<State> {
    if RowPending(s, t, a) then None
    else if a in View(s.db, x.w).balances then Some(Put(s, t, x.(pc := next)))
    else Some(Put(s, t, x.(pc := next, w := x.w.(balances := x.w.balances[a := 0]))))
  }

  /** SELECT ... FROM balances ... FOR UPDATE. */
  function LockStep(s: State, t: Uuid, x: Txn, a: Account, next: Pc): Option<State> {
    if RowLocked(s, t, a) then None
    else if a !in View(s.db, x.w).balances then Some(Abort(s, t, x, Fault))
    else Some(Put(s, t, x.(pc := next, rowLocks := x.rowLocks + {a},
                           rows := x.rows[a.1 := View(s.db, x.w).balances[a]])))
  }

  function RowRead(x: Txn, c: Currency): int {
    if c in x.rows then x.rows[c] else 0
  }

  /** Add a ledger entry and assign the new balance to the locked row. */
  function PostStep(x: Txn, e: LedgerEntry, next: Pc): Txn {
    x.(pc := next,
       w := x.w.(ledger := x.w.ledger + [e],
                 balances := x.w.balances[AccountOf(e) := UpdatedBalance(RowRead(x, e.currency), e)]))
  }

  function NewBalance(x: Txn, a: Account): int {
    if a in x.w.balances then x.w.balances[a] else 0
  }

  function PayloadOf(t: Uuid, x: Txn, quoteId: Uuid): Payload {
    var q := x.quote;
    Payload(t, quoteId, q.source, q.sourceAmount, q.destination, q.destinationAmount,
            NewBalance(x, (q.customer, q.source)), NewBalance(x, (q.customer, q.destination)))
  }

  /** execute_quote, one statement; None while it waits. */
  function ExecuteStep(s: State, t: Uuid, x: Txn, r: ExecuteRequest): Option<State> {
    var q := x.quote;
    match x.pc
    case ReadKey =>
      if r.key == "" then Some(Abort(s, t, x, KeyMissing))
      else if r.key in s.db.keys then
        var row := s.db.keys[r.key];
        if row.hash != r.hash then Some(Abort(s, t, x, IdempotencyConflict))
        else if row.completedAt.Some? && row.payload.Some? then
          Some(Put(s, t, Ended(x, Replayed(row.payload.value))))
        else Some(Put(s, t, x.(pc := ClaimKey)))
      else Some(Put(s, t, x.(pc := ClaimKey)))
    case ClaimKey =>
      if KeyPending(s, t, r.key) then None
      else if r.key in s.db.keys then Some(Abort(s, t, x, IdempotencyConflict))
      else Some(Put(s, t, x.(pc := LockQuote, w := x.w.(keys := x.w.keys[r.key := KeyRow(r.hash, None, None)]))))
    case LockQuote =>
      if r.quoteId !in s.db.quotes then Some(Abort(s, t, x, QuoteNotFound))
      else if QuoteLocked(s, t, r.quoteId) then None
      else Some(Put(s, t, x.(pc := CheckExecuted, quoteLock := Some(r.quoteId), quote := s.db.quotes[r.quoteId])))
    case CheckExecuted =>
      if IsExecuted(View(s.db, x.w), r.quoteId) then Some(Abort(s, t, x, QuoteAlreadyExecuted))
      else Some(Put(s, t, x.(pc := CheckExpiry)))
    case CheckExpiry =>
      if s.now >= q.expiresAt then Some(Abort(s, t, x, QuoteExpired))
      else Some(Put(s, t, x.(pc := EnsureQuoteRow(0), checkedAt := s.now)))
    case EnsureQuoteRow(i) =>
      if i < 2 then
        EnsureStep(s, t, x, (q.customer, LockOrder(q)[i]), if i == 0 then EnsureQuoteRow(1) else LockQuoteRow(0))
      else None
    case LockQuoteRow(i) =>
      if i < 2 then
        LockStep(s, t, x, (q.customer, LockOrder(q)[i]), if i == 0 then LockQuoteRow(1) else CheckFunds)
      else None
    case CheckFunds =>
      if RowRead(x, q.source) < q.sourceAmount then Some(Abort(s, t, x, InsufficientFunds))
      else Some(Put(s, t, x.(pc := InsertExecution)))
    case InsertExecution =>
      if ExecutionPending(s, t, r.quoteId) then None
      else if IsExecuted(View(s.db, x.w), r.quoteId) then Some(Abort(s, t, x, Fault))
      else
        Some(Put(s, t, x.(pc := AppendDebit,
                          w := x.w.(executions := x.w.executions[t := Execution(r.quoteId, q.customer)]))))
    case AppendDebit =>
      if q.sourceAmount <= 0 then Some(Abort(s, t, x, NonPositiveAmount))
      else Some(Put(s, t, PostStep(x, DebitEntry(q, t), AppendCredit)))
    case AppendCredit =>
      if q.destinationAmount <= 0 then Some(Abort(s, t, x, NonPositiveAmount))
      else Some(Put(s, t, PostStep(x, CreditEntry(q, t), CommitExecution)))
    case CommitExecution =>
      if !FitsNumeric(NewBalance(x, (q.customer, q.destination))) then Some(Abort(s, t, x, NumericOverflow))
      else
        var payload := PayloadOf(t, x, r.quoteId);
        var completed := x.(w := x.w.(keys := x.w.keys[r.key := KeyRow(r.hash, Some(payload), Some(s.now))]));
        Some(Commit(s, t, completed, Completed(payload)))
    case _ => None
  }

  /** credit_balance, one statement. */
  function CreditStep(s: State, t: Uuid, x: Txn, a: Account, amount: Dec): Option<State> {
    var rounded := RoundMoney(amount);
    match x.pc
    case FindCustomer =>
      if a.0 !in s.db.customers then Some(Abort(s, t, x, CustomerNotFound))
      else Some(Put(s, t, x.(pc := EnsureRow)))
    case EnsureRow => EnsureStep(s, t, x, a, LockRow)
    case LockRow => LockStep(s, t, x, a, InsertAdjustment)
    case InsertAdjustment =>
      if !FitsNumeric(rounded) then Some(Abort(s, t, x, NumericOverflow))
      else
        Some(Put(s, t, x.(pc := AppendAdjustment,
                          w := x.w.(adjustments := x.w.adjustments[t := Adjustment(a.0, a.1, rounded)]))))
    case AppendAdjustment =>
      if rounded <= 0 then Some(Abort(s, t, x, NonPositiveAmount))
      else Some(Put(s, t, PostStep(x, AdjustmentEntry(a.0, a.1, rounded, t), CommitCredit)))
    case CommitCredit =>
      if !FitsNumeric(NewBalance(x, a)) then Some(Abort(s, t, x, NumericOverflow))
      else Some(Commit(s, t, x, Credited(NewBalance(x, a))))
    case _ => None
  }

  /** create_customer, one statement. */
  function CustomerStep(s: State, t: Uuid, x: Txn): Option<State> {
    match x.pc
    case InsertCustomer =>
      Some(Put(s, t, x.(pc := OpenRow(0), w := x.w.(customers := x.w.customers + {t}))))
    case OpenRow(i) =>
      if i < |CURRENCIES| then
        EnsureStep(s, t, x, (t, CURRENCIES[i]), if i + 1 < |CURRENCIES| then OpenRow(i + 1) else CommitCustomer)
      else None
    case CommitCustomer => Some(Commit(s, t, x, Created))
    case _ => None
  }

  /** The next statement of a transaction. */
  function Step(s: State, t: Uuid): Option<State>
    requires t in s.txns
  {
    var x := s.txns[t];
    match x.req
    case ExecuteReq(r) => ExecuteStep(s, t, x, r)
    case CreditReq(customer, currency, amount) => CreditStep(s, t, x, (customer, currency), amount)
    case CustomerReq => CustomerStep(s, t, x)
  }

  // ---------------------------------------------------------------- runs

  function StartPc(req: Request): Pc {
    match req
    case ExecuteReq(_) => ReadKey
    case CreditReq(_, _, _) => FindCustomer
    case CustomerReq => InsertCustomer
  }

  function NewTxn(req: Request): Txn {
    Txn(req, StartPc(req), NO_WRITES, None, {}, NO_QUOTE, map[], 0, None)
  }

  datatype Action =
    | Begin(t: Uuid, req: Request)
    | Advance(t: Uuid)
    | Fail(t: Uuid)
    | Tick(now: int)
    | CommitQuote(id: Uuid, quote: Quote, legs: seq<Pricing.LegPricing>)

  ghost predicate Enabled(s: State, a: Action) {
    match a
    case Begin(t, _) => t !in s.txns && t !in s.db.customers && t !in s.db.executions && t !in s.db.adjustments
    case Advance(t) => t in s.txns && s.txns[t].pc != Done && Step(s, t).Some?
    case Fail(t) => t in s.txns && s.txns[t].pc != Done
    case Tick(now) => s.now <= now
    case CommitQuote(id, q, _) => id !in s.db.quotes && ValidQuote(s.db, q)
  }

  /** One step of the system. An exception may strike a transaction before any of its statements. */
  ghost function Apply(s: State, a: Action): State
    requires Enabled(s, a)
  {
    match a
    case Begin(t, req) => Put(s, t, NewTxn(req))
    case Advance(t) => Step(s, t).value
    case Fail(t) => Abort(s, t, s.txns[t], Fault)
    case Tick(now) => s.(now := now)
    case CommitQuote(id, q, legs) => s.(db := StoreQuote(s.db, id, q, legs), log := s.log + [QuoteEntry(id, q, legs)])
  }

  /** The state after a schedule; an action that is not enabled does nothing. */
  ghost function RunAll(s: State, schedule: seq<Action>): State {
    if schedule == [] then s
    else
      var before := RunAll(s, schedule[..|schedule| - 1]);
      var a := schedule[|schedule| - 1];
      if Enabled(before, a) then Apply(before, a) else before
  }

  // ---------------------------------------------------------------- the serial meaning of a log

  /** What a committed transaction does, and answers, when it runs alone. */
  function Serial(db: Tables, e: LogEntry): (Tables, Outcome) {
    match e
    case QuoteEntry(id, q, legs) => (StoreQuote(db, id, q, legs), Created)
    case TxnEntry(id, req, checkedAt, doneAt, _) =>
      match req
      case ExecuteReq(r) => ExecuteQuote(db, r, id, checkedAt, doneAt)
      case CreditReq(customer, currency, amount) => CreditBalance(db, customer, currency, amount, id)
      case CustomerReq => (CreateCustomer(db, id), Created)
  }

  function SerialRun(db: Tables, log: seq<LogEntry>): Tables {
    if log == [] then db
    else Serial(SerialRun(db, log[..|log| - 1]), log[|log| - 1]).0
  }
}
