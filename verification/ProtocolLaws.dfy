/**
  Every schedule of interleaved transactions is equivalent to running the committed ones alone,
  in commit order.
 */
module ProtocolLaws {
  import opened Money
  import opened Tables
  import opened TablesLaws
  import opened Protocol
  import Pricing

  // ---------------------------------------------------------------- what a transaction knows

  /** How far execute_quote has come. */
  ghost function Progress(pc: Pc): int {
    match pc
    case ReadKey => 0
    case ClaimKey => 1
    case LockQuote => 2
    case CheckExecuted => 3
    case CheckExpiry => 4
    case EnsureQuoteRow(i) => 5 + i
    case LockQuoteRow(i) => 7 + i
    case CheckFunds => 9
    case InsertExecution => 10
    case AppendDebit => 11
    case AppendCredit => 12
    case CommitExecution => 13
    case _ => -1
  }

  ghost predicate ExecutePc(pc: Pc) {
    Progress(pc) >= 0 && (pc.EnsureQuoteRow? ==> pc.i < 2) && (pc.LockQuoteRow? ==> pc.i < 2)
  }

  /** The private writes of an execution at each statement. */
  ghost function ExecuteWrites(t: Uuid, x: Txn, r: ExecuteRequest): Writes {
    var n, q := Progress(x.pc), x.quote;
    var debit, credit := DebitEntry(q, t), CreditEntry(q, t);
    if n < 2 then NO_WRITES
    else
      NO_WRITES.(
        keys := map[r.key := KeyRow(r.hash, None, None)],
        executions := if n < 11 then map[] else map[t := Execution(r.quoteId, q.customer)],
        ledger := if n < 12 then [] else if n < 13 then [debit] else [debit, credit],
        balances :=
          if n < 12 then map[]
          else if n < 13 then map[AccountOf(debit) := UpdatedBalance(RowRead(x, q.source), debit)]
          else map[AccountOf(debit) := UpdatedBalance(RowRead(x, q.source), debit)]
                  [AccountOf(credit) := UpdatedBalance(RowRead(x, q.destination), credit)])
  }

  /** The rows an execution has locked, in lock order. */
  ghost function LockedRows(pc: Pc, q: Quote): set<Account> {
    var n := Progress(pc);
    if n < 8 then {}
    else if n < 9 then {(q.customer, LockOrder(q)[0])}
    else {(q.customer, q.source), (q.customer, q.destination)}
  }

  /** A row read under its lock is still the committed row. */
  ghost predicate RowsCurrent(db: Tables, x: Txn, customer: Uuid) {
    forall c :: (customer, c) in x.rowLocks ==>
      (customer, c) in db.balances && RowRead(x, c) == db.balances[(customer, c)]
  }

  ghost predicate ExecuteInv(db: Tables, t: Uuid, x: Txn, r: ExecuteRequest) {
    var n, q := Progress(x.pc), x.quote;
    && ExecutePc(x.pc)
    && x.w == ExecuteWrites(t, x, r)
    && (n >= 1 ==> r.key != "")
    && (n >= 2 ==> r.key !in db.keys)
    && x.quoteLock == (if n < 3 then None else Some(r.quoteId))
    && (n >= 3 ==> r.quoteId in db.quotes && q == db.quotes[r.quoteId])
    && (n >= 4 ==> !IsExecuted(db, r.quoteId))
    && (n >= 5 ==> x.checkedAt < q.expiresAt)
    && x.rowLocks == (if n < 3 then {} else LockedRows(x.pc, q))
    && (n >= 3 ==> RowsCurrent(db, x, q.customer))
    && (n >= 10 ==> q.sourceAmount <= RowRead(x, q.source))
    && (n >= 12 ==> q.sourceAmount > 0)
    && (n >= 13 ==> q.destinationAmount > 0)
  }

  ghost function CreditProgress(pc: Pc): int {
    match pc
    case FindCustomer => 0
    case EnsureRow => 1
    case LockRow => 2
    case InsertAdjustment => 3
    case AppendAdjustment => 4
    case CommitCredit => 5
    case _ => -1
  }

  ghost predicate CreditInv(db: Tables, t: Uuid, x: Txn, a: Account, amount: Dec) {
    var n, rounded := CreditProgress(x.pc), RoundMoney(amount);
    var e := AdjustmentEntry(a.0, a.1, rounded, t);
    && n >= 0
    && x.quoteLock == None
    && (n >= 1 ==> a.0 in db.customers)
    && x.rowLocks == (if n < 3 then {} else {a})
    && RowsCurrent(db, x, a.0)
    && (n >= 4 ==> FitsNumeric(rounded))
    && (n >= 5 ==> rounded > 0)
    && x.w == NO_WRITES.(
         adjustments := if n < 4 then map[] else map[t := Adjustment(a.0, a.1, rounded)],
         ledger := if n < 5 then [] else [e],
         balances := if n < 5 then map[] else map[a := UpdatedBalance(RowRead(x, a.1), e)])
  }

  /** The zero rows a new customer has inserted so far. */
  ghost function OpenedRows(t: Uuid, n: nat): map<Account, int> {
    var m0: map<Account, int> := map[];
    var m1 := m0[(t, USD) := 0];
    var m2 := m1[(t, EUR) := 0];
    var m3 := m2[(t, KES) := 0];
    if n == 0 then m0 else if n == 1 then m1 else if n == 2 then m2 else if n == 3 then m3 else m3[(t, NGN) := 0]
  }

  ghost predicate CustomerInv(db: Tables, t: Uuid, x: Txn) {
    && x.quoteLock == None && x.rowLocks == {}
    && match x.pc
       case InsertCustomer => x.w == NO_WRITES
       case OpenRow(i) => i < 4 && x.w == NO_WRITES.(customers := {t}, balances := OpenedRows(t, i))
       case CommitCustomer => x.w == NO_WRITES.(customers := {t}, balances := OpenedRows(t, 4))
       case _ => false
  }

  predicate Committed(o: Outcome) {
    o.Completed? || o.Credited? || o.Created?
  }

  /** A finished transaction holds nothing; a successful execution left its payload under its key. */
  ghost predicate DoneInv(db: Tables, x: Txn) {
    && x.w == NO_WRITES && x.quoteLock == None && x.rowLocks == {}
    && x.outcome.Some?
    && (x.outcome.value.Completed? || x.outcome.value.Replayed? ==>
          && x.req.ExecuteReq?
          && x.req.r.key in db.keys
          && db.keys[x.req.r.key].hash == x.req.r.hash
          && db.keys[x.req.r.key].payload == Some(x.outcome.value.payload))
  }

  ghost predicate TxnInv(db: Tables, t: Uuid, x: Txn) {
    if x.pc == Done then
      && DoneInv(db, x)
      && (!Committed(x.outcome.value) ==> FreshId(db, t))
    else
      && x.outcome == None
      && FreshId(db, t)
      && match x.req
         case ExecuteReq(r) => ExecuteInv(db, t, x, r)
         case CreditReq(customer, currency, amount) => CreditInv(db, t, x, (customer, currency), amount)
         case CustomerReq => CustomerInv(db, t, x)
  }

  /** No two transactions hold the same claim or lock. */
  ghost predicate Disjoint(x: Txn, y: Txn) {
    && x.w.keys.Keys !! y.w.keys.Keys
    && (x.quoteLock.Some? && y.quoteLock.Some? ==> x.quoteLock != y.quoteLock)
    && x.rowLocks !! y.rowLocks
  }

  ghost predicate Exclusive(txns: map<Uuid, Txn>) {
    forall t, u :: t in txns && u in txns && t != u ==> Disjoint(txns[t], txns[u])
  }

  // ---------------------------------------------------------------- commits do not disturb others

  /** What a transaction may write: under its own identifier, claims and locks. */
  ghost predicate Owns(db: Tables, t: Uuid, x: Txn) {
    && x.w.customers <= {t} && x.w.executions.Keys <= {t} && x.w.adjustments.Keys <= {t}
    && x.w.keys.Keys !! db.keys.Keys
    && (forall e :: e in x.w.executions ==> x.quoteLock == Some(x.w.executions[e].quoteId))
    && (forall a :: a in x.w.balances ==> a in x.rowLocks || (a.0 == t && t !in db.customers))
  }

  lemma ExecutedStable(db: Tables, w: Writes, quoteId: Uuid)
    requires !IsExecuted(db, quoteId)
    requires forall e :: e in w.executions ==> w.executions[e].quoteId != quoteId
    ensures !IsExecuted(View(db, w), quoteId)
  {
  }

  /** A commit leaves everything another transaction knows as it was. */
  lemma CommitStable(db: Tables, t: Uuid, x: Txn, u: Uuid, y: Txn)
    requires RowsComplete(db)
    requires Owns(db, t, x) && t != u && Disjoint(x, y) && TxnInv(db, u, y)
    ensures TxnInv(View(db, x.w), u, y)
  {
    var db' := View(db, x.w);
    if y.pc != Done {
      match y.req
      case ExecuteReq(r) =>
        if Progress(y.pc) >= 2 {
          assert r.key in y.w.keys;
        }
        if Progress(y.pc) >= 4 {
          ExecutedStable(db, x.w, r.quoteId);
        }
      case CreditReq(customer, currency, amount) =>
      case CustomerReq =>
    }
  }

  // ---------------------------------------------------------------- one statement keeps the invariant

  ghost predicate DisjointFromOthers(s: State, t: Uuid, x: Txn) {
    forall u :: u in s.txns && u != t ==> Disjoint(x, s.txns[u])
  }

  /** A statement that commits nothing. */
  ghost predicate GoodPut(s: State, t: Uuid, x: Txn) {
    && TxnInv(s.db, t, x) && DisjointFromOthers(s, t, x)
    && (x.pc == Done ==> !Committed(x.outcome.value))
    && t in s.txns && x.req == s.txns[t].req
  }

  /** A commit that does, and answers, what the transaction would running alone. */
  ghost predicate GoodCommit(s: State, t: Uuid, x: Txn, o: Outcome) {
    && Owns(s.db, t, x) && DisjointFromOthers(s, t, x)
    && Committed(o)
    && (View(s.db, x.w), o) == Serial(s.db, TxnEntry(t, x.req, x.checkedAt, s.now, o))
    && Valid(View(s.db, x.w))
    && TxnInv(View(s.db, x.w), t, Ended(x, o))
    && t in s.txns && x.req == s.txns[t].req
  }

  ghost predicate Good(s: State, t: Uuid, s': State, x: Txn, o: Outcome) {
    || (s' == Put(s, t, x) && GoodPut(s, t, x))
    || (s' == Commit(s, t, x, o) && GoodCommit(s, t, x, o))
  }

  ghost predicate Running(s: State, t: Uuid) {
    && Valid(s.db) && t in s.txns && s.txns[t].pc != Done
    && TxnInv(s.db, t, s.txns[t]) && DisjointFromOthers(s, t, s.txns[t])
  }

  /** A transaction after its next statement. */
  ghost function After(s: State, t: Uuid): Txn
    requires t in s.txns
  {
    match Step(s, t)
    case Some(s') => if t in s'.txns then s'.txns[t] else s.txns[t]
    case None => s.txns[t]
  }

  /** Rolling back is always safe. */
  lemma AbortGood(s: State, t: Uuid, o: Outcome)
    requires Running(s, t) && !Committed(o)
    requires o.Replayed? ==> DoneInv(s.db, Ended(s.txns[t], o))
    ensures GoodPut(s, t, Ended(s.txns[t], o))
  {
  }

  /** A local step that changes neither claims nor locks stays disjoint from the others. */
  lemma SameHoldings(s: State, t: Uuid, x: Txn)
    requires Running(s, t)
    requires x.w.keys.Keys == s.txns[t].w.keys.Keys && x.quoteLock == s.txns[t].quoteLock
    requires x.rowLocks == s.txns[t].rowLocks
    ensures DisjointFromOthers(s, t, x)
  {
  }

  lemma ClaimedKey(s: State, t: Uuid, x: Txn, key: string)
    requires Running(s, t) && !KeyPending(s, t, key)
    requires x.w.keys.Keys <= s.txns[t].w.keys.Keys + {key} && x.quoteLock == s.txns[t].quoteLock
    requires x.rowLocks == s.txns[t].rowLocks
    ensures DisjointFromOthers(s, t, x)
  {
    forall u | u in s.txns && u != t
      ensures Disjoint(x, s.txns[u])
    {
      assert key !in s.txns[u].w.keys;
    }
  }

  lemma LockedQuote(s: State, t: Uuid, x: Txn, quoteId: Uuid)
    requires Running(s, t) && !QuoteLocked(s, t, quoteId)
    requires x.w.keys.Keys == s.txns[t].w.keys.Keys && x.quoteLock == Some(quoteId)
    requires x.rowLocks == s.txns[t].rowLocks
    ensures DisjointFromOthers(s, t, x)
  {
    forall u | u in s.txns && u != t
      ensures Disjoint(x, s.txns[u])
    {
      assert s.txns[u].quoteLock != Some(quoteId);
    }
  }

  lemma LockedRow(s: State, t: Uuid, x: Txn, a: Account)
    requires Running(s, t) && !RowLocked(s, t, a)
    requires x.w.keys.Keys == s.txns[t].w.keys.Keys && x.quoteLock == s.txns[t].quoteLock
    requires x.rowLocks == s.txns[t].rowLocks + {a}
    ensures DisjointFromOthers(s, t, x)
  {
    forall u | u in s.txns && u != t
      ensures Disjoint(x, s.txns[u])
    {
      assert a !in s.txns[u].rowLocks;
    }
  }

  /** The statements of an execution before it writes money, one by one. */
  lemma AfterReadKey(db: Tables, t: Uuid, x: Txn, r: ExecuteRequest)
    requires ExecuteInv(db, t, x, r) && x.pc == ReadKey && r.key != ""
    ensures ExecuteInv(db, t, x.(pc := ClaimKey), r)
  {
  }

  lemma AfterClaimKey(db: Tables, t: Uuid, x: Txn, r: ExecuteRequest)
    requires ExecuteInv(db, t, x, r) && x.pc == ClaimKey && r.key !in db.keys
    ensures ExecuteInv(db, t, x.(pc := LockQuote, w := x.w.(keys := x.w.keys[r.key := KeyRow(r.hash, None, None)])), r)
  {
  }

  lemma AfterLockQuote(db: Tables, t: Uuid, x: Txn, r: ExecuteRequest)
    requires ExecuteInv(db, t, x, r) && x.pc == LockQuote && r.quoteId in db.quotes
    ensures ExecuteInv(db, t, x.(pc := CheckExecuted, quoteLock := Some(r.quoteId), quote := db.quotes[r.quoteId]), r)
  {
  }

  lemma OwnExecutions(db: Tables, w: Writes, quoteId: Uuid)
    requires w.executions == map[]
    ensures IsExecuted(View(db, w), quoteId) == IsExecuted(db, quoteId)
  {
    assert View(db, w).executions == db.executions;
  }

  lemma AfterCheckExecuted(db: Tables, t: Uuid, x: Txn, r: ExecuteRequest)
    requires ExecuteInv(db, t, x, r) && x.pc == CheckExecuted && !IsExecuted(View(db, x.w), r.quoteId)
    ensures ExecuteInv(db, t, x.(pc := CheckExpiry), r)
  {
    OwnExecutions(db, x.w, r.quoteId);
  }

  lemma AfterCheckExpiry(db: Tables, t: Uuid, x: Txn, r: ExecuteRequest, now: int)
    requires ExecuteInv(db, t, x, r) && x.pc == CheckExpiry && now < x.quote.expiresAt
    ensures ExecuteInv(db, t, x.(pc := EnsureQuoteRow(0), checkedAt := now), r)
  {
  }

  lemma AfterEnsureQuoteRow(db: Tables, t: Uuid, x: Txn, r: ExecuteRequest)
    requires ExecuteInv(db, t, x, r) && x.pc.EnsureQuoteRow?
    ensures ExecuteInv(db, t, x.(pc := if x.pc.i == 0 then EnsureQuoteRow(1) else LockQuoteRow(0)), r)
  {
  }

  lemma LockOrderIsBoth(q: Quote)
    ensures {(q.customer, LockOrder(q)[0]), (q.customer, LockOrder(q)[1])}
             == {(q.customer, q.source), (q.customer, q.destination)}
    ensures q.source != q.destination ==> LockOrder(q)[0] != LockOrder(q)[1]
    ensures q.source != q.destination ==> CodeRank(LockOrder(q)[0]) < CodeRank(LockOrder(q)[1])
  {
  }

  /** A currency's code. */
  function Code(c: Currency): (code: string)
    ensures |code| == 3
  {
    match c
    case USD => "USD"
    case EUR => "EUR"
    case KES => "KES"
    case NGN => "NGN"
  }

  /** Rows are locked in the alphabetical order of the codes, which their first letters decide. */
  lemma LockOrderIsAlphabetical(q: Quote)
    requires q.source != q.destination
    ensures Code(LockOrder(q)[0])[0] < Code(LockOrder(q)[1])[0]
    ensures forall a, b :: CodeRank(a) < CodeRank(b) <==> Code(a)[0] < Code(b)[0]
  {
  }

  /** Both rows of a stored quote are committed, so the read under the lock finds them. */
  lemma QuoteRowsExist(db: Tables, q: Quote, i: nat)
    requires RowsComplete(db) && ValidQuote(db, q) && i < 2
    ensures (q.customer, LockOrder(q)[i]) in db.balances
  {
  }

  lemma AfterLockQuoteRow(db: Tables, t: Uuid, x: Txn, r: ExecuteRequest)
    requires ExecuteInv(db, t, x, r) && x.pc.LockQuoteRow? && x.quote.source != x.quote.destination
    requires (x.quote.customer, LockOrder(x.quote)[x.pc.i]) in db.balances
    ensures var a := (x.quote.customer, LockOrder(x.quote)[x.pc.i]);
            ExecuteInv(db, t, x.(pc := if x.pc.i == 0 then LockQuoteRow(1) else CheckFunds,
                                 rowLocks := x.rowLocks + {a}, rows := x.rows[a.1 := db.balances[a]]), r)
  {
    LockOrderIsBoth(x.quote);
  }

  lemma AfterCheckFunds(db: Tables, t: Uuid, x: Txn, r: ExecuteRequest)
    requires ExecuteInv(db, t, x, r) && x.pc == CheckFunds && x.quote.sourceAmount <= RowRead(x, x.quote.source)
    ensures ExecuteInv(db, t, x.(pc := InsertExecution), r)
  {
  }

  lemma AfterInsertExecution(db: Tables, t: Uuid, x: Txn, r: ExecuteRequest)
    requires ExecuteInv(db, t, x, r) && x.pc == InsertExecution
    ensures ExecuteInv(db, t, x.(pc := AppendDebit,
                                 w := x.w.(executions :=
                                             x.w.executions[t := Execution(r.quoteId, x.quote.customer)])), r)
  {
  }

  lemma AfterAppendDebit(db: Tables, t: Uuid, x: Txn, r: ExecuteRequest)
    requires ExecuteInv(db, t, x, r) && x.pc == AppendDebit && x.quote.sourceAmount > 0
    ensures ExecuteInv(db, t, PostStep(x, DebitEntry(x.quote, t), AppendCredit), r)
  {
    hide UpdatedBalance;
  }

  lemma AfterAppendCredit(db: Tables, t: Uuid, x: Txn, r: ExecuteRequest)
    requires ExecuteInv(db, t, x, r) && x.pc == AppendCredit && x.quote.destinationAmount > 0
    ensures ExecuteInv(db, t, PostStep(x, CreditEntry(x.quote, t), CommitExecution), r)
  {
    hide UpdatedBalance;
  }

  /** The rows an execution writes at commit are the rows of the serial execution. */
  lemma CommitRows(db: Tables, t: Uuid, x: Txn, r: ExecuteRequest)
    requires ExecuteInv(db, t, x, r) && x.pc == CommitExecution && x.quote.source != x.quote.destination
    ensures AccountsPresent(db, x.quote)
    ensures var q := x.quote;
            && RowRead(x, q.source) == db.balances[(q.customer, q.source)]
            && RowRead(x, q.destination) == db.balances[(q.customer, q.destination)]
            && NewBalance(x, (q.customer, q.source))
                == UpdatedBalance(db.balances[(q.customer, q.source)], DebitEntry(q, t))
            && NewBalance(x, (q.customer, q.destination))
                == UpdatedBalance(db.balances[(q.customer, q.destination)], CreditEntry(q, t))
  {
    hide UpdatedBalance;
    var q := x.quote;
    assert (q.customer, q.source) in x.rowLocks && (q.customer, q.destination) in x.rowLocks;
  }

  /** No check of the serial execution would refuse what reaches the commit. */
  lemma CommitNotRefused(db: Tables, t: Uuid, x: Txn, r: ExecuteRequest)
    requires Valid(db) && ExecuteInv(db, t, x, r) && x.pc == CommitExecution
    requires FitsNumeric(NewBalance(x, (x.quote.customer, x.quote.destination)))
    ensures Refusal(db, r, x.checkedAt).None?
  {
    hide UpdatedBalance;
    var q := x.quote;
    assert ValidQuote(db, q);
    CommitRows(db, t, x, r);
    UpdateExact(db.balances[(q.customer, q.destination)], CreditEntry(q, t));
    UpdateExact(db.balances[(q.customer, q.destination)], CreditEntry(q, 0));
  }

  ghost function CompletedTxn(t: Uuid, x: Txn, r: ExecuteRequest, now: int): Txn {
    x.(w := x.w.(keys := x.w.keys[r.key := KeyRow(r.hash, Some(PayloadOf(t, x, r.quoteId)), Some(now))]))
  }

  lemma CommitResponse(db: Tables, t: Uuid, x: Txn, r: ExecuteRequest)
    requires ExecuteInv(db, t, x, r) && x.pc == CommitExecution && x.quote.source != x.quote.destination
    ensures PayloadOf(t, x, r.quoteId) == ResponseOf(db, r, t)
  {
    hide UpdatedBalance, ExecuteWrites, NewBalance;
    CommitRows(db, t, x, r);
  }

  lemma FinalWrites(db: Tables, t: Uuid, x: Txn, r: ExecuteRequest, now: int)
    requires ExecuteInv(db, t, x, r) && x.pc == CommitExecution && x.quote.source != x.quote.destination
    ensures AccountsPresent(db, x.quote)
    ensures var debit, credit := DebitEntry(x.quote, t), CreditEntry(x.quote, t);
            CompletedTxn(t, x, r, now).w
            == NO_WRITES.(
                 executions := map[t := Execution(r.quoteId, x.quote.customer)],
                 ledger := [debit, credit],
                 balances := map[AccountOf(debit) := UpdatedBalance(db.balances[AccountOf(debit)], debit)]
                                [AccountOf(credit) := UpdatedBalance(db.balances[AccountOf(credit)], credit)],
                 keys := map[r.key := KeyRow(r.hash, Some(ResponseOf(db, r, t)), Some(now))])
  {
    hide UpdatedBalance, ResponseOf, PayloadOf, NewBalance;
    CommitRows(db, t, x, r);
    CommitResponse(db, t, x, r);
  }

  lemma OverlayOne<K, V>(m: map<K, V>, k: K, v: V)
    ensures m + map[k := v] == m[k := v]
  {
  }

  lemma Overlay<K, V>(m: map<K, V>, k: K, v: V, l: K, u: V)
    ensures m + map[k := v][l := u] == m[k := v][l := u]
  {
  }

  /** Committing the private writes leaves exactly the tables of the serial execution. */
  lemma CommitIsSettle(db: Tables, t: Uuid, x: Txn, r: ExecuteRequest, now: int)
    requires r.quoteId in db.quotes
    requires Valid(db) && ExecuteInv(db, t, x, r) && x.pc == CommitExecution
    ensures View(db, CompletedTxn(t, x, r, now).w) == Settle(db, r, t, now)
    ensures PayloadOf(t, x, r.quoteId) == ResponseOf(db, r, t)
  {
    hide UpdatedBalance, Settle, ResponseOf, PayloadOf, Valid, CompletedTxn, ExecuteWrites, RowsCurrent;
    QuoteDistinct(db, r.quoteId);
    FinalWrites(db, t, x, r, now);
    CommitResponse(db, t, x, r);
    SettleTables(db, r, t, now);
    var debit, credit := DebitEntry(x.quote, t), CreditEntry(x.quote, t);
    Overlay(db.balances, AccountOf(debit), UpdatedBalance(db.balances[AccountOf(debit)], debit),
            AccountOf(credit), UpdatedBalance(db.balances[AccountOf(credit)], credit));
    OverlayOne(db.executions, t, Execution(r.quoteId, x.quote.customer));
    OverlayOne(db.keys, r.key, KeyRow(r.hash, Some(ResponseOf(db, r, t)), Some(now)));
    var w := CompletedTxn(t, x, r, now).w;
    assert db.customers + w.customers == db.customers && db.adjustments + w.adjustments == db.adjustments;
  }

  lemma QuoteDistinct(db: Tables, quoteId: Uuid)
    requires Valid(db) && quoteId in db.quotes
    ensures db.quotes[quoteId].source != db.quotes[quoteId].destination
  {
    assert ValidQuote(db, db.quotes[quoteId]);
  }

  lemma ExecuteOwns(db: Tables, t: Uuid, x: Txn, r: ExecuteRequest, now: int)
    requires ExecuteInv(db, t, x, r) && x.pc == CommitExecution
    ensures Owns(db, t, CompletedTxn(t, x, r, now))
  {
    hide UpdatedBalance;
  }

  lemma PutGood(s: State, t: Uuid, x: Txn, r: ExecuteRequest)
    requires Running(s, t) && s.txns[t].req == ExecuteReq(r)
    requires x.req == ExecuteReq(r) && x.outcome == None && ExecuteInv(s.db, t, x, r) && DisjointFromOthers(s, t, x)
    ensures GoodPut(s, t, x)
  {
    hide ExecuteWrites, FreshId, DoneInv, Disjoint, Valid;
  }

  lemma CommitGood(s: State, t: Uuid, r: ExecuteRequest)
    requires Running(s, t) && s.txns[t].req == ExecuteReq(r) && s.txns[t].pc == CommitExecution
    requires FitsNumeric(NewBalance(s.txns[t], (s.txns[t].quote.customer, s.txns[t].quote.destination)))
    ensures GoodCommit(s, t, CompletedTxn(t, s.txns[t], r, s.now), Completed(PayloadOf(t, s.txns[t], r.quoteId)))
  {
    hide ExecuteWrites, Disjoint, Valid, UpdatedBalance, Settle, ResponseOf, Refusal, Owns;
    var x := s.txns[t];
    var x', db' := CompletedTxn(t, x, r, s.now), Settle(s.db, r, t, s.now);
    CommitNotRefused(s.db, t, x, r);
    CommitIsSettle(s.db, t, x, r, s.now);
    SettleKeeps(s.db, r, t, x.checkedAt, s.now);
    ExecuteOwns(s.db, t, x, r, s.now);
    ExecuteKeys(s.db, t, x, r);
    SameHoldings(s, t, x');
    assert View(s.db, x'.w).keys[r.key] == x'.w.keys[r.key];
  }

  lemma ExecuteKeys(db: Tables, t: Uuid, x: Txn, r: ExecuteRequest)
    requires ExecuteInv(db, t, x, r) && Progress(x.pc) >= 2
    ensures x.w.keys.Keys == {r.key}
  {
  }

  // ---------------------------------------------------------------- every statement is good

  lemma RunningExecute(s: State, t: Uuid, r: ExecuteRequest)
    requires Running(s, t) && s.txns[t].req == ExecuteReq(r)
    ensures s.txns[t].outcome == None && ExecuteInv(s.db, t, s.txns[t], r)
  {
  }

  lemma EnsureGood(s: State, t: Uuid, r: ExecuteRequest)
    requires Running(s, t) && s.txns[t].req == ExecuteReq(r) && s.txns[t].pc.EnsureQuoteRow?
    ensures s.txns[t].pc.i < 2
    ensures var q := s.txns[t].quote;
            Step(s, t).None? <==> RowPending(s, t, (q.customer, LockOrder(q)[s.txns[t].pc.i]))
    ensures Step(s, t).Some? ==>
            var x := After(s, t);
            && Step(s, t).value == Put(s, t, x) && GoodPut(s, t, x)
            && x.w == s.txns[t].w
  {
    hide DisjointFromOthers, Disjoint, CreditStep, CustomerStep, ExecuteWrites, Valid, ExecuteInv, GoodPut, LockOrder,
         TxnInv, RowPending;
    var x := s.txns[t];
    RunningExecute(s, t, r);
    ExecuteRowsCommitted(s.db, t, x, r);
    if Step(s, t).Some? {
      AfterEnsureQuoteRow(s.db, t, x, r);
      var x' := After(s, t);
      SameHoldings(s, t, x');
      PutGood(s, t, x', r);
    }
  }

  /** The quote's rows are committed, so no statement inserts them. */
  lemma ExecuteRowsCommitted(db: Tables, t: Uuid, x: Txn, r: ExecuteRequest)
    requires Valid(db) && ExecuteInv(db, t, x, r) && Progress(x.pc) >= 3
    ensures x.quote.source != x.quote.destination
    ensures (x.quote.customer, LockOrder(x.quote)[0]) in db.balances
    ensures (x.quote.customer, LockOrder(x.quote)[1]) in db.balances
    ensures Progress(x.pc) < 9 ==> x.w.balances == map[]
    ensures x.pc.EnsureQuoteRow? || x.pc.LockQuoteRow? ==> x.pc.i < 2
  {
    assert ValidQuote(db, x.quote);
    QuoteRowsExist(db, x.quote, 0);
    QuoteRowsExist(db, x.quote, 1);
  }

  lemma LockRowGood(s: State, t: Uuid, r: ExecuteRequest)
    requires Running(s, t) && s.txns[t].req == ExecuteReq(r) && s.txns[t].pc.LockQuoteRow?
    ensures s.txns[t].pc.i < 2
    ensures var q := s.txns[t].quote;
            Step(s, t).None? <==> RowLocked(s, t, (q.customer, LockOrder(q)[s.txns[t].pc.i]))
    ensures Step(s, t).Some? ==>
            var x := After(s, t);
            Step(s, t).value == Put(s, t, x) && GoodPut(s, t, x)
  {
    hide DisjointFromOthers, Disjoint, CreditStep, CustomerStep, ExecuteWrites, Valid, ExecuteInv, GoodPut,
         LockOrder, TxnInv;
    var x := s.txns[t];
    RunningExecute(s, t, r);
    ExecuteRowsCommitted(s.db, t, x, r);
    var a := (x.quote.customer, LockOrder(x.quote)[x.pc.i]);
    assert View(s.db, x.w).balances[a] == s.db.balances[a];
    if !RowLocked(s, t, a) {
      AfterLockQuoteRow(s.db, t, x, r);
      var x' := After(s, t);
      LockedRow(s, t, x', a);
      PutGood(s, t, x', r);
    }
  }

  lemma ClaimGood(s: State, t: Uuid, r: ExecuteRequest)
    requires Running(s, t) && s.txns[t].req == ExecuteReq(r) && s.txns[t].pc in {ReadKey, ClaimKey}
    ensures Step(s, t).None? <==> s.txns[t].pc == ClaimKey && KeyPending(s, t, r.key)
    ensures Step(s, t).Some? ==>
            var x := After(s, t);
            Step(s, t).value == Put(s, t, x) && GoodPut(s, t, x)
  {
    hide DisjointFromOthers, Disjoint, CreditStep, CustomerStep, ExecuteWrites, Valid, ExecuteInv, GoodPut, TxnInv;
    var x := s.txns[t];
    RunningExecute(s, t, r);
    if Step(s, t).Some? {
      var x' := After(s, t);
      if x'.pc == Done {
        AbortGood(s, t, x'.outcome.value);
      } else if x.pc == ReadKey {
        AfterReadKey(s.db, t, x, r);
        SameHoldings(s, t, x');
        PutGood(s, t, x', r);
      } else {
        AfterClaimKey(s.db, t, x, r);
        ClaimedKey(s, t, x', r.key);
        PutGood(s, t, x', r);
      }
    }
  }

  lemma LockQuoteGood(s: State, t: Uuid, r: ExecuteRequest)
    requires Running(s, t) && s.txns[t].req == ExecuteReq(r) && s.txns[t].pc == LockQuote
    ensures Step(s, t).None? <==> r.quoteId in s.db.quotes && QuoteLocked(s, t, r.quoteId)
    ensures Step(s, t).Some? ==>
            var x := After(s, t);
            Step(s, t).value == Put(s, t, x) && GoodPut(s, t, x)
  {
    hide DisjointFromOthers, Disjoint, CreditStep, CustomerStep, ExecuteWrites, Valid, ExecuteInv, GoodPut, TxnInv;
    var x := s.txns[t];
    RunningExecute(s, t, r);
    if Step(s, t).Some? {
      var x' := After(s, t);
      if x'.pc == Done {
        AbortGood(s, t, x'.outcome.value);
      } else {
        AfterLockQuote(s.db, t, x, r);
        LockedQuote(s, t, x', r.quoteId);
        PutGood(s, t, x', r);
      }
    }
  }

  lemma CheckGood(s: State, t: Uuid, r: ExecuteRequest)
    requires Running(s, t) && s.txns[t].req == ExecuteReq(r) && s.txns[t].pc in {CheckExecuted, CheckExpiry, CheckFunds}
    ensures Step(s, t).Some?
    ensures var x := After(s, t);
            Step(s, t).value == Put(s, t, x) && GoodPut(s, t, x)
  {
    hide DisjointFromOthers, Disjoint, CreditStep, CustomerStep, ExecuteWrites, Valid, ExecuteInv, GoodPut,
         IsExecuted, TxnInv;
    var x := s.txns[t];
    RunningExecute(s, t, r);
    var x' := After(s, t);
    if x'.pc == Done {
      AbortGood(s, t, x'.outcome.value);
    } else {
      SameHoldings(s, t, x');
      if x.pc == CheckExecuted {
        AfterCheckExecuted(s.db, t, x, r);
      } else if x.pc == CheckExpiry {
        AfterCheckExpiry(s.db, t, x, r, s.now);
      } else {
        AfterCheckFunds(s.db, t, x, r);
      }
      PutGood(s, t, x', r);
    }
  }

  /** Holding the quote lock, nobody else can have an execution of the quote pending. */
  lemma NoExecutionPending(s: State, t: Uuid, r: ExecuteRequest)
    requires Running(s, t) && s.txns[t].req == ExecuteReq(r) && s.txns[t].pc == InsertExecution
    requires forall u :: u in s.txns ==> TxnInv(s.db, u, s.txns[u])
    ensures !ExecutionPending(s, t, r.quoteId)
  {
    hide Valid, TxnInv, ExecuteWrites, RowsCurrent;
    RunningExecute(s, t, r);
    forall u | u in s.txns && u != t
      ensures !IsExecuted(View(EMPTY, s.txns[u].w), r.quoteId)
    {
      var y := s.txns[u];
      assert s.txns[t].quoteLock == Some(r.quoteId);
      assert Disjoint(s.txns[t], y);
      ExecutionsUnderLock(s.db, u, y);
    }
  }

  lemma ExecutionsUnderLock(db: Tables, u: Uuid, y: Txn)
    requires TxnInv(db, u, y)
    ensures forall e :: e in y.w.executions ==> y.quoteLock == Some(y.w.executions[e].quoteId)
  {
  }

  lemma PostStepHolds(x: Txn, e: LedgerEntry, next: Pc)
    ensures var x' := PostStep(x, e, next);
            x'.pc == next && x'.req == x.req && x'.outcome == x.outcome && x'.w.keys == x.w.keys
            && x'.quoteLock == x.quoteLock && x'.rowLocks == x.rowLocks
  {
  }

  lemma WriteGood(s: State, t: Uuid, r: ExecuteRequest)
    requires Running(s, t) && s.txns[t].req == ExecuteReq(r)
             && s.txns[t].pc in {InsertExecution, AppendDebit, AppendCredit}
    requires forall u :: u in s.txns ==> TxnInv(s.db, u, s.txns[u])
    ensures Step(s, t).Some?
    ensures var x := After(s, t);
            Step(s, t).value == Put(s, t, x) && GoodPut(s, t, x)
  {
    hide DisjointFromOthers, Disjoint, PostStep, UpdatedBalance, View, CreditStep, CustomerStep, ExecuteWrites,
         Valid, ExecuteInv, GoodPut, IsExecuted, TxnInv, ExecutionPending;
    var x := s.txns[t];
    RunningExecute(s, t, r);
    PostStepHolds(x, DebitEntry(x.quote, t), AppendCredit);
    PostStepHolds(x, CreditEntry(x.quote, t), CommitExecution);
    if x.pc == InsertExecution {
      NoExecutionPending(s, t, r);
    }
    var x' := After(s, t);
    if x'.pc == Done {
      AbortGood(s, t, x'.outcome.value);
    } else {
      SameHoldings(s, t, x');
      if x.pc == InsertExecution {
        AfterInsertExecution(s.db, t, x, r);
      } else if x.pc == AppendDebit {
        AfterAppendDebit(s.db, t, x, r);
      } else {
        AfterAppendCredit(s.db, t, x, r);
      }
      PutGood(s, t, x', r);
    }
  }

  // ---------------------------------------------------------------- credit_balance

  lemma RunningCredit(s: State, t: Uuid, a: Account, amount: Dec)
    requires Running(s, t) && s.txns[t].req == CreditReq(a.0, a.1, amount)
    ensures s.txns[t].outcome == None && CreditInv(s.db, t, s.txns[t], a, amount)
  {
  }

  lemma PutCredit(s: State, t: Uuid, x: Txn, a: Account, amount: Dec)
    requires Running(s, t) && s.txns[t].req == CreditReq(a.0, a.1, amount)
    requires x.req == s.txns[t].req && x.outcome == None && CreditInv(s.db, t, x, a, amount)
             && DisjointFromOthers(s, t, x)
    ensures GoodPut(s, t, x)
  {
    hide FreshId, DoneInv, Disjoint, Valid;
  }

  lemma AfterFindCustomer(db: Tables, t: Uuid, x: Txn, a: Account, amount: Dec)
    requires CreditInv(db, t, x, a, amount) && x.pc == FindCustomer && a.0 in db.customers
    ensures CreditInv(db, t, x.(pc := EnsureRow), a, amount)
  {
  }

  lemma AfterEnsureRow(db: Tables, t: Uuid, x: Txn, a: Account, amount: Dec)
    requires CreditInv(db, t, x, a, amount) && x.pc == EnsureRow
    ensures CreditInv(db, t, x.(pc := LockRow), a, amount)
  {
  }

  lemma AfterLockRow(db: Tables, t: Uuid, x: Txn, a: Account, amount: Dec)
    requires CreditInv(db, t, x, a, amount) && x.pc == LockRow && a in db.balances
    ensures CreditInv(db, t, x.(pc := InsertAdjustment, rowLocks := x.rowLocks + {a},
                                rows := x.rows[a.1 := db.balances[a]]), a, amount)
  {
  }

  lemma AfterInsertAdjustment(db: Tables, t: Uuid, x: Txn, a: Account, amount: Dec)
    requires CreditInv(db, t, x, a, amount) && x.pc == InsertAdjustment && FitsNumeric(RoundMoney(amount))
    ensures CreditInv(db, t, x.(pc := AppendAdjustment,
                                w := x.w.(adjustments :=
                                            x.w.adjustments[t := Adjustment(a.0, a.1, RoundMoney(amount))])), a, amount)
  {
    hide RoundMoney;
  }

  lemma AfterAppendAdjustment(db: Tables, t: Uuid, x: Txn, a: Account, amount: Dec)
    requires CreditInv(db, t, x, a, amount) && x.pc == AppendAdjustment && RoundMoney(amount) > 0
    ensures CreditInv(db, t, PostStep(x, AdjustmentEntry(a.0, a.1, RoundMoney(amount), t), CommitCredit), a, amount)
  {
    hide RoundMoney, UpdatedBalance;
  }

  lemma CreditRowCommitted(db: Tables, t: Uuid, x: Txn, a: Account, amount: Dec)
    requires RowsComplete(db) && CreditInv(db, t, x, a, amount)
    ensures CreditProgress(x.pc) >= 1 ==> a in db.balances
    ensures CreditProgress(x.pc) < 5 ==> x.w.balances == map[]
    ensures CreditProgress(x.pc) >= 0
  {
  }

  lemma CreditGood(s: State, t: Uuid, a: Account, amount: Dec)
    requires Running(s, t) && s.txns[t].req == CreditReq(a.0, a.1, amount) && s.txns[t].pc != CommitCredit
    ensures Step(s, t).None?
       <==> (s.txns[t].pc == LockRow && RowLocked(s, t, a)) || (s.txns[t].pc == EnsureRow && RowPending(s, t, a))
    ensures Step(s, t).Some? ==>
            var x := After(s, t);
            Step(s, t).value == Put(s, t, x) && GoodPut(s, t, x)
  {
    hide DisjointFromOthers, Disjoint, ExecuteStep, CustomerStep, UpdatedBalance, RoundMoney, TxnInv, GoodPut,
         RowLocked,
         RowPending, CreditInv, Valid;
    RunningCredit(s, t, a, amount);
    ValidRows(s.db);
    var x := s.txns[t];
    CreditRowCommitted(s.db, t, x, a, amount);
    assert x.pc in {FindCustomer, EnsureRow, LockRow, InsertAdjustment, AppendAdjustment};
    if Step(s, t).Some? {
      var x' := After(s, t);
      if x'.pc == Done {
        AbortGood(s, t, x'.outcome.value);
      } else {
        if x.pc == LockRow {
          LockedRow(s, t, x', a);
          AfterLockRow(s.db, t, x, a, amount);
        } else {
          SameHoldings(s, t, x');
          if x.pc == FindCustomer {
            AfterFindCustomer(s.db, t, x, a, amount);
          } else if x.pc == EnsureRow {
            AfterEnsureRow(s.db, t, x, a, amount);
          } else if x.pc == InsertAdjustment {
            AfterInsertAdjustment(s.db, t, x, a, amount);
          } else {
            AfterAppendAdjustment(s.db, t, x, a, amount);
          }
        }
        PutCredit(s, t, x', a, amount);
      }
    }
  }

  lemma CreditNotRefused(db: Tables, t: Uuid, x: Txn, a: Account, amount: Dec)
    requires RowsComplete(db) && CreditInv(db, t, x, a, amount) && x.pc == CommitCredit && FitsNumeric(NewBalance(x, a))
    ensures a in db.balances && RowRead(x, a.1) == db.balances[a]
    ensures CreditRefusal(db, a.0, a.1, amount).None?
  {
    hide UpdatedBalance, RoundMoney;
    assert a in x.rowLocks;
    UpdateExact(db.balances[a], AdjustmentEntry(a.0, a.1, RoundMoney(amount), t));
    UpdateExact(db.balances[a], AdjustmentEntry(a.0, a.1, RoundMoney(amount), 0));
  }

  /** Committing a credit is the serial credit. */
  lemma CommitIsCredit(db: Tables, t: Uuid, x: Txn, a: Account, amount: Dec)
    requires RowsComplete(db) && CreditInv(db, t, x, a, amount) && x.pc == CommitCredit && FitsNumeric(NewBalance(x, a))
    ensures (View(db, x.w), Credited(NewBalance(x, a))) == CreditBalance(db, a.0, a.1, amount, t)
    ensures Owns(db, t, x)
  {
    hide UpdatedBalance, RoundMoney, CreditRefusal, RowsComplete, RowsCurrent;
    CreditNotRefused(db, t, x, a, amount);
    var db' := CreditBalance(db, a.0, a.1, amount, t).0;
    assert View(db, x.w).balances == db'.balances;
    assert View(db, x.w).adjustments == db'.adjustments;
    assert View(db, x.w).executions == db'.executions && View(db, x.w).keys == db'.keys;
    assert View(db, x.w) == db';
  }

  lemma CommitCreditGood(s: State, t: Uuid, a: Account, amount: Dec)
    requires Running(s, t) && s.txns[t].req == CreditReq(a.0, a.1, amount) && s.txns[t].pc == CommitCredit
    requires FitsNumeric(NewBalance(s.txns[t], a))
    ensures GoodCommit(s, t, s.txns[t], Credited(NewBalance(s.txns[t], a)))
  {
    hide Disjoint, UpdatedBalance, RoundMoney, Valid, CreditBalance, Owns, NewBalance;
    RunningCredit(s, t, a, amount);
    CommitIsCredit(s.db, t, s.txns[t], a, amount) by { ValidRows(s.db); }
    CreditKeeps(s.db, a.0, a.1, amount, t);
  }

  lemma ValidRows(db: Tables)
    requires Valid(db)
    ensures RowsComplete(db)
  {
  }

  // ---------------------------------------------------------------- create_customer

  lemma OpenedNext(t: Uuid, i: nat)
    requires i < 4
    ensures (t, CURRENCIES[i]) !in OpenedRows(t, i)
    ensures OpenedRows(t, i)[(t, CURRENCIES[i]) := 0] == OpenedRows(t, i + 1)
  {
  }

  lemma CustomerStepInv(s: State, t: Uuid)
    requires RowsComplete(s.db) && t in s.txns && s.txns[t].req == CustomerReq
    requires CustomerInv(s.db, t, s.txns[t]) && s.txns[t].pc != CommitCustomer && t !in s.db.customers
    requires forall u, a :: u in s.txns && u != t && a in s.txns[u].w.balances ==> a.0 != t
    ensures Step(s, t).Some?
    ensures var x := After(s, t);
            && Step(s, t).value == Put(s, t, x)
            && x.req == CustomerReq && x.outcome == s.txns[t].outcome
            && CustomerInv(s.db, t, x)
            && x.w.keys == map[]
  {
    hide OpenedRows;
    var x := s.txns[t];
    if x.pc.OpenRow? {
      OpenedNext(t, x.pc.i);
      assert (t, CURRENCIES[x.pc.i]) !in s.db.balances;
      assert !RowPending(s, t, (t, CURRENCIES[x.pc.i]));
    } else {
      NoneOpened(t);
    }
  }

  lemma NoneOpened(t: Uuid)
    ensures OpenedRows(t, 0) == map[]
  {
  }

  lemma AllOpened(balances: map<Account, int>, t: Uuid)
    ensures balances + OpenedRows(t, 4) == balances[(t, USD) := 0][(t, EUR) := 0][(t, KES) := 0][(t, NGN) := 0]
  {
  }

  lemma OpenedRowsOwn(t: Uuid, n: nat)
    ensures forall a :: a in OpenedRows(t, n) ==> a.0 == t
  {
  }

  /** Rows under a fresh identifier are written by no other transaction. */
  lemma RowsUnderOwnIds(db: Tables, u: Uuid, y: Txn, t: Uuid)
    requires RowsComplete(db) && TxnInv(db, u, y) && t != u && t !in db.customers
    ensures forall a :: a in y.w.balances ==> a.0 != t
  {
  }

  lemma CustomerGood(s: State, t: Uuid)
    requires Running(s, t) && s.txns[t].req == CustomerReq && s.txns[t].pc != CommitCustomer
    requires forall u :: u in s.txns ==> TxnInv(s.db, u, s.txns[u])
    ensures Step(s, t).Some?
    ensures var x := After(s, t);
            Step(s, t).value == Put(s, t, x) && GoodPut(s, t, x)
  {
    hide Valid, TxnInv, CustomerInv, GoodPut;
    ValidRows(s.db);
    RunningCustomer(s, t);
    forall u, a | u in s.txns && u != t && a in s.txns[u].w.balances
      ensures a.0 != t
    {
      RowsUnderOwnIds(s.db, u, s.txns[u], t);
    }
    CustomerStepInv(s, t);
    SameHoldings(s, t, After(s, t));
    PutCustomer(s, t, After(s, t));
  }

  lemma RunningCustomer(s: State, t: Uuid)
    requires Running(s, t) && s.txns[t].req == CustomerReq
    ensures s.txns[t].outcome == None && CustomerInv(s.db, t, s.txns[t]) && FreshId(s.db, t)
    ensures s.txns[t].w.keys == map[] && s.txns[t].quoteLock == None && s.txns[t].rowLocks == {}
  {
  }

  lemma PutCustomer(s: State, t: Uuid, x: Txn)
    requires Running(s, t) && s.txns[t].req == CustomerReq
    requires x.req == CustomerReq && x.outcome == None && CustomerInv(s.db, t, x) && DisjointFromOthers(s, t, x)
    ensures GoodPut(s, t, x)
  {
    hide FreshId, DoneInv, Disjoint, Valid;
  }

  lemma CommitIsCreate(db: Tables, t: Uuid, x: Txn)
    requires RowsComplete(db) && t !in db.customers && CustomerInv(db, t, x) && x.pc == CommitCustomer
    ensures View(db, x.w) == CreateCustomer(db, t)
    ensures Owns(db, t, x)
  {
    hide OpenedRows, CreateCustomer;
    CreateCustomerRows(db, t);
    AllOpened(db.balances, t);
    OpenedRowsOwn(t, 4);
    assert View(db, x.w).executions == db.executions && View(db, x.w).keys == db.keys;
    assert View(db, x.w).adjustments == db.adjustments && View(db, x.w).ledger == db.ledger;
  }

  lemma CommitCustomerGood(s: State, t: Uuid)
    requires Running(s, t) && s.txns[t].req == CustomerReq && s.txns[t].pc == CommitCustomer
    ensures GoodCommit(s, t, s.txns[t], Created)
  {
    hide Valid, CreateCustomer, CustomerInv, Owns;
    ValidRows(s.db);
    RunningCustomer(s, t);
    CommitIsCreate(s.db, t, s.txns[t]);
    CreateCustomerKeeps(s.db, t);
  }
}
