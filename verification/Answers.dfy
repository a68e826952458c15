/**
  Every answer of every schedule, refusals included, is the answer the transaction would get
  running alone on the tables committed at the moment it ended; and the times the protocol
  records are clock readings of the statements that take them.
 */
module Answers {
  import opened Money
  import opened Tables
  import opened TablesLaws
  import opened Protocol
  import opened ProtocolLaws
  import opened Serializability
  import opened SerialAnswers

  // ---------------------------------------------------------------- one statement

  /** When an execution's expiry check is made: at the clock it has recorded, or now. */
  ghost function CheckTime(s: State, t: Uuid): int
    requires t in s.txns
  {
    if Progress(s.txns[t].pc) >= 5 then s.txns[t].checkedAt else s.now
  }

  /** Another request has committed the key between this one's look and its claim. */
  ghost predicate LostKey(s: State, t: Uuid)
    requires t in s.txns
  {
    && s.txns[t].req.ExecuteReq? && s.txns[t].pc == ClaimKey
    && s.txns[t].req.r.key in s.db.keys
  }

  /** The answer on the tables committed now; a key lost to another request is a conflict. */
  ghost function AnswerNow(s: State, t: Uuid): Outcome
    requires t in s.txns
  {
    if LostKey(s, t) then Rejected(IdempotencyConflict)
    else Serial(s.db, TxnEntry(t, s.txns[t].req, CheckTime(s, t), s.now, Created)).1
  }

  /** The statement ends the transaction with the answer of this moment. */
  ghost predicate EndsInAnswer(s: State, t: Uuid)
    requires t in s.txns
  {
    After(s, t).pc == Done ==> After(s, t).outcome == Some(AnswerNow(s, t))
  }

  lemma ReadsAnswer(s: State, t: Uuid, r: ExecuteRequest)
    requires Running(s, t) && s.txns[t].req == ExecuteReq(r) && Step(s, t).Some?
    requires s.txns[t].pc in {ReadKey, ClaimKey, LockQuote, CheckExecuted, CheckExpiry}
    ensures EndsInAnswer(s, t)
  {
    hide CreditStep, CustomerStep, TxnInv, Valid, RowsCurrent, ExecuteWrites, View, IsExecuted, UpdatedBalance,
         KeyPending, QuoteLocked, Settle, ResponseOf, DisjointFromOthers;
    RunningExecute(s, t, r);
    QuoteTimes(s.db, r.quoteId);
    var x := s.txns[t];
    if x.pc == CheckExecuted {
      NoExecutionYet(s.db, t, x, r);
      OwnExecutions(s.db, x.w, r.quoteId);
    }
  }

  lemma QuoteTimes(db: Tables, quoteId: Uuid)
    requires Valid(db)
    ensures quoteId in db.quotes ==> db.quotes[quoteId].expiresAt == db.quotes[quoteId].createdAt + 60_000_000
  {
    if quoteId in db.quotes {
      assert ValidQuote(db, db.quotes[quoteId]);
    }
  }

  lemma NoExecutionYet(db: Tables, t: Uuid, x: Txn, r: ExecuteRequest)
    requires ExecuteInv(db, t, x, r) && Progress(x.pc) < 11
    ensures x.w.executions == map[]
  {
  }

  lemma RowsAnswer(s: State, t: Uuid, r: ExecuteRequest)
    requires Running(s, t) && s.txns[t].req == ExecuteReq(r) && Step(s, t).Some?
    requires s.txns[t].pc.EnsureQuoteRow? || s.txns[t].pc.LockQuoteRow?
    ensures After(s, t).pc != Done
  {
    hide CreditStep, CustomerStep, TxnInv, Valid, RowsCurrent, ExecuteWrites, IsExecuted, LockOrder, RowPending,
         RowLocked, DisjointFromOthers, ExecuteInv;
    RunningExecute(s, t, r);
    ExecuteRowsCommitted(s.db, t, s.txns[t], r);
  }

  /** From the funds check on, what stops an execution stops the serial one on the same tables. */
  lemma WritesAnswer(s: State, t: Uuid, r: ExecuteRequest)
    requires Running(s, t) && s.txns[t].req == ExecuteReq(r) && Step(s, t).Some?
    requires s.txns[t].pc in {CheckFunds, AppendDebit, AppendCredit}
    ensures EndsInAnswer(s, t)
  {
    hide CreditStep, CustomerStep, TxnInv, Valid, ExecuteWrites, View, IsExecuted, UpdatedBalance, RowRead, BalanceOf,
         PostStep, Settle, ResponseOf, DisjointFromOthers, LockOrder, RowsCurrent, LockedRows;
    RunningExecute(s, t, r);
    var x := s.txns[t];
    QuoteDistinct(s.db, r.quoteId);
    LockedBalances(s.db, t, x, r);
    PostStepHolds(x, DebitEntry(x.quote, t), AppendCredit);
    PostStepHolds(x, CreditEntry(x.quote, t), CommitExecution);
  }

  lemma LockedBalances(db: Tables, t: Uuid, x: Txn, r: ExecuteRequest)
    requires ExecuteInv(db, t, x, r) && Progress(x.pc) >= 9
    ensures BalanceOf(db, (x.quote.customer, x.quote.source)) == RowRead(x, x.quote.source)
    ensures BalanceOf(db, (x.quote.customer, x.quote.destination)) == RowRead(x, x.quote.destination)
  {
    assert (x.quote.customer, x.quote.source) in x.rowLocks && (x.quote.customer, x.quote.destination) in x.rowLocks;
  }

  lemma InsertAnswer(s: State, t: Uuid, r: ExecuteRequest)
    requires Running(s, t) && AllTxns(s) && s.txns[t].req == ExecuteReq(r) && s.txns[t].pc == InsertExecution
    ensures After(s, t).pc != Done
  {
    hide CreditStep, CustomerStep, TxnInv, Valid, ExecuteWrites, RowsCurrent, IsExecuted, DisjointFromOthers,
         ExecutionPending;
    RunningExecute(s, t, r);
    NoExecutionPending(s, t, r);
    NoExecutionYet(s.db, t, s.txns[t], r);
    OwnExecutions(s.db, s.txns[t].w, r.quoteId);
  }

  lemma CommitAnswer(s: State, t: Uuid, r: ExecuteRequest)
    requires Running(s, t) && s.txns[t].req == ExecuteReq(r) && s.txns[t].pc == CommitExecution
    ensures EndsInAnswer(s, t)
  {
    hide CreditStep, CustomerStep, TxnInv, Valid, ExecuteInv, View, Settle, ResponseOf, PayloadOf, NewBalance,
         UpdatedBalance, DisjointFromOthers, Refusal;
    RunningExecute(s, t, r);
    var x := s.txns[t];
    CommitTerms(s.db, t, x, r);
    CommitIsSettle(s.db, t, x, r, s.now);
    if FitsNumeric(NewBalance(x, (x.quote.customer, x.quote.destination))) {
      CommitNotRefused(s.db, t, x, r);
    } else {
      CommitOverflows(s.db, t, x, r);
    }
  }

  lemma CommitTerms(db: Tables, t: Uuid, x: Txn, r: ExecuteRequest)
    requires ExecuteInv(db, t, x, r) && x.pc == CommitExecution
    ensures r.quoteId in db.quotes && x.quote == db.quotes[r.quoteId]
  {
  }

  lemma CommitOverflows(db: Tables, t: Uuid, x: Txn, r: ExecuteRequest)
    requires Valid(db) && ExecuteInv(db, t, x, r) && x.pc == CommitExecution
    requires !FitsNumeric(NewBalance(x, (x.quote.customer, x.quote.destination)))
    ensures Refusal(db, r, x.checkedAt) == Some(Rejected(NumericOverflow))
  {
    hide UpdatedBalance, Valid, ExecuteWrites, IsExecuted, NewBalance;
    var q := x.quote;
    QuoteDistinct(db, r.quoteId);
    LockedBalances(db, t, x, r);
    CommitRows(db, t, x, r);
    UpdateExact(db.balances[(q.customer, q.destination)], CreditEntry(q, t));
    UpdateExact(db.balances[(q.customer, q.destination)], CreditEntry(q, 0));
  }

  lemma CreditAnswer(s: State, t: Uuid, a: Account, amount: Dec)
    requires Running(s, t) && s.txns[t].req == CreditReq(a.0, a.1, amount) && Step(s, t).Some?
    ensures EndsInAnswer(s, t)
  {
    hide ExecuteStep, CustomerStep, TxnInv, Valid, RoundMoney, UpdatedBalance, NewBalance, View, RowsComplete,
         RowsCurrent, DisjointFromOthers, RowPending, RowLocked, FitsNumeric, PostStep;
    RunningCredit(s, t, a, amount);
    ValidRows(s.db);
    var x := s.txns[t];
    CreditRowCommitted(s.db, t, x, a, amount);
    PostStepHolds(x, AdjustmentEntry(a.0, a.1, RoundMoney(amount), t), CommitCredit);
    if x.pc == CommitCredit {
      if FitsNumeric(NewBalance(x, a)) {
        CommitIsCredit(s.db, t, x, a, amount);
      } else {
        CreditOverflows(s.db, t, x, a, amount);
      }
    } else if x.pc == LockRow {
      InOwnView(s.db, x.w, a);
    }
  }

  lemma InOwnView(db: Tables, w: Writes, a: Account)
    requires a in db.balances
    ensures a in View(db, w).balances
  {
  }

  lemma CreditOverflows(db: Tables, t: Uuid, x: Txn, a: Account, amount: Dec)
    requires RowsComplete(db) && CreditInv(db, t, x, a, amount) && x.pc == CommitCredit
    requires !FitsNumeric(NewBalance(x, a))
    ensures CreditRefusal(db, a.0, a.1, amount) == Some(NumericOverflow)
  {
    hide UpdatedBalance, RoundMoney;
    assert a in x.rowLocks;
    UpdateExact(db.balances[a], AdjustmentEntry(a.0, a.1, RoundMoney(amount), t));
    UpdateExact(db.balances[a], AdjustmentEntry(a.0, a.1, RoundMoney(amount), 0));
  }

  lemma CustomerAnswer(s: State, t: Uuid)
    requires Running(s, t) && AllTxns(s) && s.txns[t].req == CustomerReq
    ensures EndsInAnswer(s, t)
  {
    hide ExecuteStep, CreditStep, TxnInv, Valid, CustomerInv, View, CreateCustomer;
    RunningCustomer(s, t);
  }

  /** Whatever statement ends a transaction, it ends it with the serial answer of that moment. */
  lemma StepAnswers(s: State, t: Uuid)
    requires Running(s, t) && AllTxns(s) && Step(s, t).Some?
    ensures EndsInAnswer(s, t)
  {
    hide Valid, TxnInv, Step, EndsInAnswer, ExecuteWrites, RowsCurrent;
    match s.txns[t].req
    case ExecuteReq(r) =>
      RunningExecute(s, t, r);
      match s.txns[t].pc {
        case EnsureQuoteRow(_) => RowsAnswer(s, t, r); NotYetEnded(s, t);
        case LockQuoteRow(_) => RowsAnswer(s, t, r); NotYetEnded(s, t);
        case CheckFunds => WritesAnswer(s, t, r);
        case AppendDebit => WritesAnswer(s, t, r);
        case AppendCredit => WritesAnswer(s, t, r);
        case InsertExecution => InsertAnswer(s, t, r); NotYetEnded(s, t);
        case CommitExecution => CommitAnswer(s, t, r);
        case _ => ReadsAnswer(s, t, r);
      }
    case CreditReq(customer, currency, amount) => CreditAnswer(s, t, (customer, currency), amount);
    case CustomerReq => CustomerAnswer(s, t);
  }

  lemma NotYetEnded(s: State, t: Uuid)
    requires t in s.txns && After(s, t).pc != Done
    ensures EndsInAnswer(s, t)
  {
  }

  // ---------------------------------------------------------------- what happened in a run

  /** The state before action n. */
  ghost function Before(s: State, schedule: seq<Action>, n: nat): State
    requires n <= |schedule|
  {
    RunAll(s, schedule[..n])
  }

  /** Action n was transaction t's statement pc. */
  ghost predicate Took(s: State, schedule: seq<Action>, n: nat, t: Uuid, pc: Pc) {
    && n < |schedule| && schedule[n] == Advance(t)
    && Enabled(Before(s, schedule, n), Advance(t))
    && Before(s, schedule, n).txns[t].pc == pc
  }

  /** Action n was a fault of transaction t. */
  ghost predicate Struck(s: State, schedule: seq<Action>, n: nat, t: Uuid) {
    n < |schedule| && schedule[n] == Fail(t) && Enabled(Before(s, schedule, n), Fail(t))
  }

  ghost predicate Unharmed(s: State, schedule: seq<Action>, t: Uuid) {
    forall n :: !Struck(s, schedule, n, t)
  }

  /** What holds of a prefix of a schedule holds of the schedule. */
  lemma Earlier(s: State, schedule: seq<Action>, m: nat, n: nat)
    requires m <= |schedule| && n <= m
    ensures Before(s, schedule[..m], n) == Before(s, schedule, n)
    ensures forall t, pc :: Took(s, schedule[..m], n, t, pc) ==> Took(s, schedule, n, t, pc)
    ensures forall t :: Struck(s, schedule[..m], n, t) ==> Struck(s, schedule, n, t)
  {
    hide Enabled, RunAll;
    assert schedule[..m][..n] == schedule[..n];
  }

  /** What the last action of a schedule did to transaction t. */
  lemma LastAction(s: State, schedule: seq<Action>, t: Uuid)
    requires schedule != [] && t in RunAll(s, schedule).txns
    ensures var n := |schedule| - 1;
            var was, x := Before(s, schedule, n), RunAll(s, schedule).txns[t];
            || (t in was.txns && x == was.txns[t])
            || (t !in was.txns && schedule[n].Begin? && x == NewTxn(schedule[n].req))
            || (Struck(s, schedule, n, t) && x == Ended(was.txns[t], Rejected(Fault)))
            || (schedule[n] == Advance(t) && Enabled(was, Advance(t)) && x == After(was, t))
  {
    hide Step, NewTxn;
    var n := |schedule| - 1;
    var was, a := Before(s, schedule, n), schedule[n];
    if Enabled(was, a) && a.Advance? && a.t != t {
      OthersUntouched(was, a.t, t);
    }
  }

  lemma OthersUntouched(s: State, u: Uuid, t: Uuid)
    requires u in s.txns && Step(s, u).Some? && t != u && t in Step(s, u).value.txns
    ensures t in s.txns && Step(s, u).value.txns[t] == s.txns[t]
  {
    hide View, UpdatedBalance, RoundMoney, IsExecuted, PayloadOf, NewBalance, PostStep, LockOrder,
         KeyPending, QuoteLocked, RowLocked, RowPending, ExecutionPending;
  }

  lemma Kept(s: State, a: Action, t: Uuid)
    requires Enabled(s, a) && t in s.txns
    ensures t in Apply(s, a).txns
  {
    hide Step;
    if a.Advance? {
      KeepsTxn(s, a.t, t);
    }
  }

  lemma KeepsTxn(s: State, u: Uuid, t: Uuid)
    requires u in s.txns && t in s.txns && Step(s, u).Some?
    ensures t in Step(s, u).value.txns
  {
    hide View, UpdatedBalance, RoundMoney, IsExecuted, PayloadOf, NewBalance, PostStep, LockOrder,
         KeyPending, QuoteLocked, RowLocked, RowPending, ExecutionPending;
  }

  /** A transaction once begun is never forgotten, and once ended never changes. */
  lemma {:induction false} EndedStays(s: State, schedule: seq<Action>, m: nat, t: Uuid)
    requires m <= |schedule| && t in Before(s, schedule, m).txns
    ensures t in RunAll(s, schedule).txns
    ensures Before(s, schedule, m).txns[t].pc == Done ==> RunAll(s, schedule).txns[t] == Before(s, schedule, m).txns[t]
  {
    hide Apply, After;
    if m == |schedule| {
      assert schedule[..m] == schedule;
    } else {
      var n := |schedule| - 1;
      Earlier(s, schedule, n, m);
      EndedStays(s, schedule[..n], m, t);
      var was := Before(s, schedule, n);
      if Enabled(was, schedule[n]) {
        Kept(was, schedule[n], t);
      }
      LastAction(s, schedule, t);
    }
  }

  /** The invariant at any point of a run. */
  lemma RunningAt(s: State, schedule: seq<Action>, n: nat, t: Uuid)
    requires Initial(s) && n <= |schedule|
    ensures Inv(s.db, Before(s, schedule, n))
    ensures t in Before(s, schedule, n).txns && Before(s, schedule, n).txns[t].pc != Done
            ==> Running(Before(s, schedule, n), t) && AllTxns(Before(s, schedule, n))
  {
    hide Inv, Running;
    RunKeeps(s, schedule[..n]);
    var was := Before(s, schedule, n);
    if t in was.txns && was.txns[t].pc != Done {
      InvRunning(s.db, was, t);
      InvTxns(s.db, was);
    }
  }

  lemma InvTxns(d0: Tables, s: State)
    requires Inv(d0, s)
    ensures AllTxns(s) && Valid(s.db)
  {
  }

  /** Transaction t ended at action n, with the serial answer of that moment. */
  ghost predicate AnsweredAt(s: State, schedule: seq<Action>, n: nat, t: Uuid, o: Outcome) {
    && n < |schedule| && schedule[n] == Advance(t) && Enabled(Before(s, schedule, n), Advance(t))
    && After(Before(s, schedule, n), t).pc == Done
    && o == AnswerNow(Before(s, schedule, n), t)
  }

  /**
    Every answer is accounted for. In any schedule, a transaction that has ended was either struck
    by a fault, or ended at a statement of its own with the answer it would get running alone on
    the tables committed at that moment.
   */
  lemma {:induction false} EveryAnswerIsSerial(s: State, schedule: seq<Action>, t: Uuid)
    requires Initial(s) && t in RunAll(s, schedule).txns && RunAll(s, schedule).txns[t].pc == Done
    ensures var o := RunAll(s, schedule).txns[t].outcome;
            || (o == Some(Rejected(Fault)) && exists n :: Struck(s, schedule, n, t))
            || (o.Some? && exists n :: AnsweredAt(s, schedule, n, t, o.value))
  {
    hide Initial, Apply, After, NewTxn, AnswerNow;
    if schedule == [] {
      NothingBegun(s);
    } else {
      var n := |schedule| - 1;
      LastAction(s, schedule, t);
      var was := Before(s, schedule, n);
      var x := RunAll(s, schedule).txns[t];
      if t in was.txns && x == was.txns[t] {
        EveryAnswerIsSerial(s, schedule[..n], t);
        CarryAnswer(s, schedule, n, t, x.outcome);
      } else if schedule[n] == Advance(t) && Enabled(was, Advance(t)) && x == After(was, t) {
        RunningAt(s, schedule, n, t);
        StepAnswers(was, t);
        assert AnsweredAt(s, schedule, n, t, x.outcome.value);
      } else if schedule[n].Begin? {
        NotDoneAtFirst(schedule[n].req);
      }
    }
  }

  lemma NothingBegun(s: State)
    requires Initial(s)
    ensures RunAll(s, []).txns == map[] && RunAll(s, []).log == []
  {
  }

  lemma NotDoneAtFirst(req: Request)
    ensures NewTxn(req).pc == StartPc(req) != Done && NewTxn(req).req == req
  {
  }

  lemma CarryAnswer(s: State, schedule: seq<Action>, m: nat, t: Uuid, o: Option<Outcome>)
    requires m <= |schedule|
    requires || (o == Some(Rejected(Fault)) && exists n :: Struck(s, schedule[..m], n, t))
             || (o.Some? && exists n :: AnsweredAt(s, schedule[..m], n, t, o.value))
    ensures || (o == Some(Rejected(Fault)) && exists n :: Struck(s, schedule, n, t))
            || (o.Some? && exists n :: AnsweredAt(s, schedule, n, t, o.value))
  {
    hide AnswerNow, Enabled, RunAll, After;
    if n :| Struck(s, schedule[..m], n, t) {
      Earlier(s, schedule, m, n);
    }
    if o.Some? {
      if n :| AnsweredAt(s, schedule[..m], n, t, o.value) {
        Earlier(s, schedule, m, n);
        assert AnsweredAt(s, schedule, n, t, o.value);
      }
    }
  }

  lemma NoSerialFault(s: State, t: Uuid)
    requires t in s.txns
    ensures AnswerNow(s, t) != Rejected(Fault)
    ensures s.txns[t].req.CustomerReq? ==> AnswerNow(s, t) == Created
  {
    hide RoundMoney, IsExecuted, UpdatedBalance, FitsNumeric, ResponseOf, Settle;
  }

  /** A transaction fails exactly when a fault strikes it; a new customer is never refused. */
  lemma OnlyFaultsFail(s: State, schedule: seq<Action>, t: Uuid)
    requires Initial(s) && t in RunAll(s, schedule).txns && RunAll(s, schedule).txns[t].pc == Done
    ensures RunAll(s, schedule).txns[t].outcome == Some(Rejected(Fault)) <==> exists n :: Struck(s, schedule, n, t)
    ensures RunAll(s, schedule).txns[t].req == CustomerReq && Unharmed(s, schedule, t)
            ==> RunAll(s, schedule).txns[t].outcome == Some(Created)
  {
    hide Initial, RunAll, AnswerNow, After, Struck;
    EveryAnswerIsSerial(s, schedule, t);
    var o := RunAll(s, schedule).txns[t].outcome;
    if n :| Struck(s, schedule, n, t) {
      FaultEnds(s, schedule, n, t);
    } else {
      var n: nat :| AnsweredAt(s, schedule, n, t, o.value);
      EnabledRuns(Before(s, schedule, n), t);
      NoSerialFault(Before(s, schedule, n), t);
      SameRequestLater(s, schedule, n, t);
    }
  }

  lemma FaultEnds(s: State, schedule: seq<Action>, n: nat, t: Uuid)
    requires Struck(s, schedule, n, t)
    ensures t in RunAll(s, schedule).txns && RunAll(s, schedule).txns[t].outcome == Some(Rejected(Fault))
  {
    assert schedule[..n + 1][..n] == schedule[..n];
    EndedStays(s, schedule, n + 1, t);
  }

  // ---------------------------------------------------------------- the clock of the expiry check

  /** Action m was t's expiry check, the clock then is what t recorded, and the quote had not expired. */
  ghost predicate CheckedAt(s: State, schedule: seq<Action>, m: nat, t: Uuid, quoteId: Uuid, at: int) {
    && Took(s, schedule, m, t, CheckExpiry)
    && var was := Before(s, schedule, m);
       && was.now == at
       && quoteId in was.db.quotes && at < was.db.quotes[quoteId].createdAt + 60_000_000
  }

  lemma CheckedEarlier(s: State, schedule: seq<Action>, n: nat, m: nat, t: Uuid, quoteId: Uuid, at: int)
    requires n <= |schedule| && CheckedAt(s, schedule[..n], m, t, quoteId, at)
    ensures CheckedAt(s, schedule, m, t, quoteId, at)
  {
    hide Enabled, RunAll;
    Earlier(s, schedule, n, m);
  }

  /** The check itself: before the expiry it records the clock, from the expiry on it refuses. */
  lemma ExpiryStep(s: State, t: Uuid, r: ExecuteRequest)
    requires Running(s, t) && s.txns[t].req == ExecuteReq(r) && s.txns[t].pc == CheckExpiry
    ensures Step(s, t).Some? && r.quoteId in s.db.quotes
    ensures var x := After(s, t);
            if s.now < s.db.quotes[r.quoteId].createdAt + 60_000_000
            then x.pc == EnsureQuoteRow(0) && x.checkedAt == s.now && x.req == s.txns[t].req
            else x.pc == Done && x.outcome == Some(Rejected(QuoteExpired))
  {
    hide TxnInv, Valid, ExecuteWrites, RowsCurrent, DisjointFromOthers;
    RunningExecute(s, t, r);
    QuoteTimes(s.db, r.quoteId);
  }

  /** No later statement touches the recorded time, and only the check leads past the check. */
  lemma PastTheCheck(s: State, t: Uuid, r: ExecuteRequest)
    requires Running(s, t) && AllTxns(s) && s.txns[t].req == ExecuteReq(r) && Step(s, t).Some?
    requires Progress(After(s, t).pc) >= 5 && s.txns[t].pc != CheckExpiry
    ensures Progress(s.txns[t].pc) >= 5 && After(s, t).checkedAt == s.txns[t].checkedAt
  {
    hide CreditStep, CustomerStep, TxnInv, Valid, ExecuteWrites, View, IsExecuted, UpdatedBalance, LockOrder,
         PayloadOf, NewBalance, KeyPending, QuoteLocked, RowLocked, RowPending, ExecutionPending, RowsCurrent,
         DisjointFromOthers, AllTxns;
    RunningExecute(s, t, r);
  }

  lemma SameRequest(s: State, t: Uuid)
    requires Running(s, t) && AllTxns(s) && Step(s, t).Some?
    ensures After(s, t).req == s.txns[t].req
  {
    hide Valid, TxnInv, Step, AllTxns, Serial, View;
    var x, o := StepGood(s, t);
  }

  /** Every execution past its expiry check made it, at the clock it recorded. */
  lemma {:induction false} ChecksAreReal(s: State, schedule: seq<Action>, t: Uuid, r: ExecuteRequest)
    requires Initial(s) && t in RunAll(s, schedule).txns
    requires RunAll(s, schedule).txns[t].req == ExecuteReq(r) && Progress(RunAll(s, schedule).txns[t].pc) >= 5
    ensures exists m :: CheckedAt(s, schedule, m, t, r.quoteId, RunAll(s, schedule).txns[t].checkedAt)
    decreases |schedule|, 1
  {
    hide Initial, Apply, After, NewTxn, CheckedAt;
    if schedule == [] {
      NothingBegun(s);
    } else {
      var n := |schedule| - 1;
      LastAction(s, schedule, t);
      var was, x := Before(s, schedule, n), RunAll(s, schedule).txns[t];
      if t in was.txns && x == was.txns[t] {
        ChecksAreReal(s, schedule[..n], t, r);
        var m :| CheckedAt(s, schedule[..n], m, t, r.quoteId, x.checkedAt);
        CheckedEarlier(s, schedule, n, m, t, r.quoteId, x.checkedAt);
      } else if schedule[n].Begin? && x == NewTxn(schedule[n].req) {
        NotDoneAtFirst(schedule[n].req);
      } else if schedule[n] == Advance(t) {
        CheckStep(s, schedule, t, r);
      }
    }
  }

  lemma {:induction false} CheckStep(s: State, schedule: seq<Action>, t: Uuid, r: ExecuteRequest)
    requires schedule != [] && schedule[|schedule| - 1] == Advance(t)
    requires Initial(s) && t in RunAll(s, schedule).txns
    requires RunAll(s, schedule).txns[t].req == ExecuteReq(r) && Progress(RunAll(s, schedule).txns[t].pc) >= 5
    requires Enabled(Before(s, schedule, |schedule| - 1), Advance(t))
    requires RunAll(s, schedule).txns[t] == After(Before(s, schedule, |schedule| - 1), t)
    ensures exists m :: CheckedAt(s, schedule, m, t, r.quoteId, RunAll(s, schedule).txns[t].checkedAt)
    decreases |schedule|, 0
  {
    hide Initial, Apply, After, Step, CheckedAt, RunAll, Running, AllTxns, Inv, Progress;
    var n := |schedule| - 1;
    var was, at := Before(s, schedule, n), RunAll(s, schedule).txns[t].checkedAt;
    RunningAt(s, schedule, n, t);
    SameRequest(was, t);
    if was.txns[t].pc == CheckExpiry {
      PastIsNotDone(RunAll(s, schedule).txns[t].pc);
      FreshCheck(s, schedule, t, r);
    } else {
      PastTheCheck(was, t, r);
      ChecksAreReal(s, schedule[..n], t, r);
      var m :| CheckedAt(s, schedule[..n], m, t, r.quoteId, at);
      CheckedEarlier(s, schedule, n, m, t, r.quoteId, at);
    }
  }

  lemma PastIsNotDone(pc: Pc)
    requires Progress(pc) >= 5
    ensures pc != Done
  {
  }

  lemma FreshCheck(s: State, schedule: seq<Action>, t: Uuid, r: ExecuteRequest)
    requires schedule != [] && schedule[|schedule| - 1] == Advance(t)
    requires Enabled(Before(s, schedule, |schedule| - 1), Advance(t))
    requires var was := Before(s, schedule, |schedule| - 1);
             && Running(was, t) && was.txns[t].req == ExecuteReq(r) && was.txns[t].pc == CheckExpiry
             && After(was, t).pc != Done
    ensures var n := |schedule| - 1;
            CheckedAt(s, schedule, n, t, r.quoteId, After(Before(s, schedule, n), t).checkedAt)
  {
    hide After, Step, Running;
    ExpiryStep(Before(s, schedule, |schedule| - 1), t, r);
  }

  /** An execution that comes to its expiry check sixty seconds after the quote, or later, ends there. */
  lemma ExpiredAtTheCheck(s: State, schedule: seq<Action>, m: nat, t: Uuid)
    requires Initial(s) && Took(s, schedule, m, t, CheckExpiry)
    ensures var was := Before(s, schedule, m);
            && was.txns[t].req.ExecuteReq? && was.txns[t].req.r.quoteId in was.db.quotes
            && (was.now >= was.db.quotes[was.txns[t].req.r.quoteId].createdAt + 60_000_000 ==>
                  && t in RunAll(s, schedule).txns
                  && RunAll(s, schedule).txns[t].pc == Done
                  && RunAll(s, schedule).txns[t].outcome == Some(Rejected(QuoteExpired)))
  {
    hide Initial, Apply, After, Step;
    var was := Before(s, schedule, m);
    RunningAt(s, schedule, m, t);
    var r := OnlyExecutionsCheck(was, t);
    ExpiryStep(was, t, r);
    if was.now >= was.db.quotes[r.quoteId].createdAt + 60_000_000 {
      EndsThere(s, schedule, m, t);
    }
  }

  lemma OnlyExecutionsCheck(s: State, t: Uuid) returns (r: ExecuteRequest)
    requires Running(s, t) && ExecutePc(s.txns[t].pc)
    ensures s.txns[t].req == ExecuteReq(r)
  {
    hide Valid, ExecuteWrites, RowsCurrent, RoundMoney, DisjointFromOthers;
    assert s.txns[t].req.ExecuteReq?;
    r := s.txns[t].req.r;
  }

  /** What ends at action m has ended so for good. */
  lemma EndsThere(s: State, schedule: seq<Action>, m: nat, t: Uuid)
    requires m < |schedule| && schedule[m] == Advance(t) && Enabled(Before(s, schedule, m), Advance(t))
    requires After(Before(s, schedule, m), t).pc == Done
    ensures t in RunAll(s, schedule).txns
    ensures RunAll(s, schedule).txns[t] == After(Before(s, schedule, m), t)
  {
    hide Step;
    assert schedule[..m + 1][..m] == schedule[..m];
    KeepsTxn(Before(s, schedule, m), t, t);
    EndedStays(s, schedule, m + 1, t);
  }

  // ---------------------------------------------------------------- the log and the clock

  /** The statement that commits a request of this kind. */
  ghost function CommitPc(req: Request): Pc {
    match req
    case ExecuteReq(_) => CommitExecution
    case CreditReq(_, _, _) => CommitCredit
    case CustomerReq => CommitCustomer
  }

  /** A statement logs nothing, or it is a commit and logs its own transaction at the clock of now. */
  lemma StepLogs(s: State, t: Uuid)
    requires t in s.txns && Step(s, t).Some?
    ensures var s', x := Step(s, t).value, s.txns[t];
            || s'.log == s.log
            || (&& x.pc == CommitPc(x.req) && |s'.log| == |s.log| + 1 && s'.log[..|s.log|] == s.log
                && s'.log[|s.log|].TxnEntry?
                && var e := s'.log[|s.log|];
                   e.id == t && e.req == x.req && e.checkedAt == x.checkedAt && e.doneAt == s.now)
  {
    hide View, UpdatedBalance, RoundMoney, IsExecuted, PayloadOf, NewBalance, PostStep, LockOrder,
         KeyPending, QuoteLocked, RowLocked, RowPending, ExecutionPending;
  }

  /** Action n was the commit that made log entry i. */
  ghost predicate LoggedAt(s: State, schedule: seq<Action>, n: nat, i: nat, e: LogEntry)
    requires e.TxnEntry?
  {
    && Took(s, schedule, n, e.id, CommitPc(e.req))
    && var was := Before(s, schedule, n);
       && |was.log| == i && was.now == e.doneAt
       && was.txns[e.id].req == e.req && was.txns[e.id].checkedAt == e.checkedAt
  }

  /** The log only grows. */
  lemma {:induction false} LogGrows(s: State, schedule: seq<Action>, n: nat)
    requires n <= |schedule|
    ensures Before(s, schedule, n).log <= RunAll(s, schedule).log
  {
    hide Apply;
    if n == |schedule| {
      assert schedule[..n] == schedule;
    } else {
      var m := |schedule| - 1;
      Earlier(s, schedule, m, n);
      LogGrows(s, schedule[..m], n);
      ActionLogs(s, schedule);
    }
  }

  lemma ActionLogs(s: State, schedule: seq<Action>)
    requires schedule != []
    ensures var n := |schedule| - 1;
            var was, log := Before(s, schedule, n), RunAll(s, schedule).log;
            || log == was.log
            || (&& |log| == |was.log| + 1 && log[..|was.log|] == was.log
                && (log[|was.log|].TxnEntry? ==> LoggedAt(s, schedule, n, |was.log|, log[|was.log|])))
  {
    hide Step;
    var was, a := Before(s, schedule, |schedule| - 1), schedule[|schedule| - 1];
    if Enabled(was, a) && a.Advance? {
      StepLogs(was, a.t);
    }
  }

  /** Every log entry was written by the commit of its transaction, at the clock it carries. */
  lemma {:induction false} CommitsAreReal(s: State, schedule: seq<Action>, i: nat)
    requires Initial(s) && i < |RunAll(s, schedule).log| && RunAll(s, schedule).log[i].TxnEntry?
    ensures exists n :: LoggedAt(s, schedule, n, i, RunAll(s, schedule).log[i])
  {
    hide Initial, Apply, LoggedAt;
    if schedule == [] {
      NothingBegun(s);
    } else {
      var n := |schedule| - 1;
      var log := RunAll(s, schedule).log;
      ActionLogs(s, schedule);
      if i < |Before(s, schedule, n).log| {
        assert log[i] == Before(s, schedule, n).log[i];
        CommitsAreReal(s, schedule[..n], i);
        var m :| LoggedAt(s, schedule[..n], m, i, log[i]);
        LoggedEarlier(s, schedule, n, m, i, log[i]);
      }
    }
  }

  lemma LoggedEarlier(s: State, schedule: seq<Action>, n: nat, m: nat, i: nat, e: LogEntry)
    requires n <= |schedule| && e.TxnEntry? && LoggedAt(s, schedule[..n], m, i, e)
    ensures LoggedAt(s, schedule, m, i, e)
  {
    hide Enabled, RunAll;
    Earlier(s, schedule, n, m);
  }

  /**
    Committed executions were checked strictly before sixty seconds after the quote, by the clock:
    one action of the schedule was the check, at the time the log records, and a later one the
    commit, which found the quote still unexecuted.
   */
  lemma ExecutedInTime(s: State, schedule: seq<Action>, i: nat) returns (m: nat, n: nat)
    requires Initial(s) && i < |RunAll(s, schedule).log|
    requires var e := RunAll(s, schedule).log[i]; e.TxnEntry? && e.req.ExecuteReq?
    ensures var e := RunAll(s, schedule).log[i];
            var before := SerialRun(s.db, RunAll(s, schedule).log[..i]);
            && m < n
            && CheckedAt(s, schedule, m, e.id, e.req.r.quoteId, e.checkedAt)
            && LoggedAt(s, schedule, n, i, e)
            && e.req.r.quoteId in before.quotes
            && !IsExecuted(before, e.req.r.quoteId)
            && e.checkedAt < before.quotes[e.req.r.quoteId].createdAt + 60_000_000
            && e.outcome == Completed(ResponseOf(before, e.req.r, e.id))
  {
    hide Initial, CheckedAt, SerialRun, IsExecuted;
    var e := RunAll(s, schedule).log[i];
    CommitsAreReal(s, schedule, i);
    n :| LoggedAt(s, schedule, n, i, e);
    ChecksAreReal(s, schedule[..n], e.id, e.req.r);
    m :| CheckedAt(s, schedule[..n], m, e.id, e.req.r.quoteId, e.checkedAt);
    assert m < n by { CheckedWithin(s, schedule[..n], m, e.id, e.req.r.quoteId, e.checkedAt); }
    CheckedEarlier(s, schedule, n, m, e.id, e.req.r.quoteId, e.checkedAt);
    FirstExecution(s, schedule, i);
  }

  lemma CheckedWithin(s: State, schedule: seq<Action>, m: nat, t: Uuid, quoteId: Uuid, at: int)
    requires CheckedAt(s, schedule, m, t, quoteId, at)
    ensures m < |schedule|
  {
  }

  // ---------------------------------------------------------------- credits

  /** Action n was t's lookup of its customer, who was committed then. */
  ghost predicate FoundAt(s: State, schedule: seq<Action>, n: nat, t: Uuid, customer: Uuid) {
    Took(s, schedule, n, t, FindCustomer) && customer in Before(s, schedule, n).db.customers
  }

  /** Action m was t's lock of the row, which held so much then. */
  ghost predicate LockedAt(s: State, schedule: seq<Action>, m: nat, t: Uuid, a: Account, balance: int) {
    && Took(s, schedule, m, t, LockRow)
    && a in Before(s, schedule, m).db.balances && Before(s, schedule, m).db.balances[a] == balance
  }

  /** What a credit under way has behind it. */
  ghost predicate CreditHistory(s: State, schedule: seq<Action>, t: Uuid, x: Txn, a: Account) {
    && (CreditProgress(x.pc) >= 1 ==> exists n :: FoundAt(s, schedule, n, t, a.0))
    && (CreditProgress(x.pc) >= 3 ==> exists m :: LockedAt(s, schedule, m, t, a, RowRead(x, a.1)))
  }

  lemma CreditHistoryLater(s: State, schedule: seq<Action>, k: nat, t: Uuid, x: Txn, a: Account)
    requires k <= |schedule| && CreditHistory(s, schedule[..k], t, x, a)
    ensures CreditHistory(s, schedule, t, x, a)
  {
    hide Enabled, RunAll, RowRead;
    if n :| FoundAt(s, schedule[..k], n, t, a.0) {
      Earlier(s, schedule, k, n);
      assert FoundAt(s, schedule, n, t, a.0);
    }
    if m :| LockedAt(s, schedule[..k], m, t, a, RowRead(x, a.1)) {
      Earlier(s, schedule, k, m);
      assert LockedAt(s, schedule, m, t, a, RowRead(x, a.1));
    }
  }

  /** One statement of a credit that does not end it. */
  lemma CreditProgressStep(s: State, t: Uuid, a: Account, amount: Dec)
    requires Running(s, t) && s.txns[t].req == CreditReq(a.0, a.1, amount) && Step(s, t).Some?
    requires After(s, t).pc != Done
    ensures var x, x' := s.txns[t], After(s, t);
            && CreditProgress(x'.pc) == CreditProgress(x.pc) + 1
            && x'.req == x.req
            && (x.pc == FindCustomer ==> a.0 in s.db.customers)
            && (x.pc == LockRow ==> a in s.db.balances && RowRead(x', a.1) == s.db.balances[a])
            && (CreditProgress(x.pc) >= 3 ==> RowRead(x', a.1) == RowRead(x, a.1))
  {
    hide ExecuteStep, CustomerStep, TxnInv, Valid, RoundMoney, UpdatedBalance, NewBalance, RowsComplete, RowsCurrent,
         DisjointFromOthers, RowPending, RowLocked, FitsNumeric, View, CreditInv;
    RunningCredit(s, t, a, amount);
    ValidRows(s.db);
    CreditRowCommitted(s.db, t, s.txns[t], a, amount);
    OwnView(s.db, s.txns[t].w, a);
  }

  /** A transaction that has written no balance sees the committed ones. */
  lemma OwnView(db: Tables, w: Writes, a: Account)
    ensures w.balances == map[] ==> View(db, w).balances == db.balances
  {
  }

  lemma {:induction false} CreditsAreReal(s: State, schedule: seq<Action>, t: Uuid, a: Account, amount: Dec)
    requires Initial(s) && t in RunAll(s, schedule).txns
    requires RunAll(s, schedule).txns[t].req == CreditReq(a.0, a.1, amount)
    ensures CreditHistory(s, schedule, t, RunAll(s, schedule).txns[t], a)
  {
    hide Initial, Apply, After, NewTxn, CreditHistory;
    if schedule == [] {
      NothingBegun(s);
    } else {
      var n := |schedule| - 1;
      LastAction(s, schedule, t);
      var was, x := Before(s, schedule, n), RunAll(s, schedule).txns[t];
      if t in was.txns && x == was.txns[t] {
        CreditsAreReal(s, schedule[..n], t, a, amount);
        CreditHistoryLater(s, schedule, n, t, x, a);
      } else if schedule[n] == Advance(t) && x.pc != Done {
        RunningAt(s, schedule, n, t);
        SameRequest(was, t);
        CreditsAreReal(s, schedule[..n], t, a, amount);
        CreditHistoryLater(s, schedule, n, t, was.txns[t], a);
        CreditStepHistory(s, schedule, t, a, amount);
      } else {
        if schedule[n].Begin? {
          NotDoneAtFirst(schedule[n].req);
        }
        NoHistoryNeeded(s, schedule, t, x, a);
      }
    }
  }

  lemma NoHistoryNeeded(s: State, schedule: seq<Action>, t: Uuid, x: Txn, a: Account)
    requires CreditProgress(x.pc) <= 0
    ensures CreditHistory(s, schedule, t, x, a)
  {
  }

  lemma CreditStepHistory(s: State, schedule: seq<Action>, t: Uuid, a: Account, amount: Dec)
    requires schedule != [] && schedule[|schedule| - 1] == Advance(t)
    requires Enabled(Before(s, schedule, |schedule| - 1), Advance(t))
    requires var was := Before(s, schedule, |schedule| - 1);
             && Running(was, t) && was.txns[t].req == CreditReq(a.0, a.1, amount)
             && After(was, t).pc != Done
             && CreditHistory(s, schedule, t, was.txns[t], a)
    ensures CreditHistory(s, schedule, t, After(Before(s, schedule, |schedule| - 1), t), a)
  {
    hide After, Step, Running, RunAll, RowRead;
    var n := |schedule| - 1;
    var was := Before(s, schedule, n);
    CreditProgressStep(was, t, a, amount);
    if was.txns[t].pc == FindCustomer {
      assert FoundAt(s, schedule, n, t, a.0);
    }
    if was.txns[t].pc == LockRow {
      assert LockedAt(s, schedule, n, t, a, RowRead(After(was, t), a.1));
    }
  }

  /**
    What a credit is told. In any schedule, a credit that has ended without a fault looked its
    customer up at some action: if the customer was not committed then, that is the answer. If it
    was, the credit locked its row at some action, and the balance committed then decides.
   */
  lemma CreditDecided(s: State, schedule: seq<Action>, t: Uuid, a: Account, amount: Dec)
    requires Initial(s) && t in RunAll(s, schedule).txns && Unharmed(s, schedule, t)
    requires var x := RunAll(s, schedule).txns[t]; x.pc == Done && x.req == CreditReq(a.0, a.1, amount)
    ensures exists n :: Took(s, schedule, n, t, FindCustomer)
              && (RunAll(s, schedule).txns[t].outcome == Some(Rejected(CustomerNotFound))
                  <==> a.0 !in Before(s, schedule, n).db.customers)
    ensures RunAll(s, schedule).txns[t].outcome != Some(Rejected(CustomerNotFound)) ==>
              exists m, balance :: LockedAt(s, schedule, m, t, a, balance)
                && RunAll(s, schedule).txns[t].outcome == Some(CreditVerdict(balance, RoundMoney(amount)))
  {
    hide Initial, RunAll, AnswerNow, RoundMoney, Unharmed, Enabled;
    EveryAnswerIsSerial(s, schedule, t);
    assert !exists n :: Struck(s, schedule, n, t) by { NotStruck(s, schedule, t); }
    var o := RunAll(s, schedule).txns[t].outcome.value;
    var k :| AnsweredAt(s, schedule, k, t, o);
    CreditAnswered(s, schedule, k, t, a, amount, o);
  }

  lemma NotStruck(s: State, schedule: seq<Action>, t: Uuid)
    requires Unharmed(s, schedule, t)
    ensures !exists n :: Struck(s, schedule, n, t)
  {
  }

  /** The last statement of a credit, with what it has behind it. */
  lemma CreditAnswered(s: State, schedule: seq<Action>, k: nat, t: Uuid, a: Account, amount: Dec, o: Outcome)
    requires Initial(s) && AnsweredAt(s, schedule, k, t, o) && t in RunAll(s, schedule).txns
    requires RunAll(s, schedule).txns[t].req == CreditReq(a.0, a.1, amount)
    requires RunAll(s, schedule).txns[t].pc == Done
    ensures exists n :: Took(s, schedule, n, t, FindCustomer)
              && (o == Rejected(CustomerNotFound) <==> a.0 !in Before(s, schedule, n).db.customers)
    ensures o != Rejected(CustomerNotFound) ==>
              exists m, balance ::
                LockedAt(s, schedule, m, t, a, balance) && o == CreditVerdict(balance, RoundMoney(amount))
  {
    hide Initial, Step, After, RunAll, AnswerNow, RoundMoney, CreditHistory, Enabled, CreditVerdict;
    var was := Before(s, schedule, k);
    RunningAt(s, schedule, k, t);
    EnabledRuns(was, t);
    EndsThere(s, schedule, k, t);
    SameRequest(was, t);
    CreditsAreReal(s, schedule[..k], t, a, amount);
    CreditHistoryLater(s, schedule, k, t, was.txns[t], a);
    CreditEnd(was, t, a, amount);
    if was.txns[t].pc == FindCustomer {
      assert Took(s, schedule, k, t, FindCustomer);
    } else {
      HistoryOf(s, schedule, t, was.txns[t], a);
      var n :| FoundAt(s, schedule, n, t, a.0);
      assert Took(s, schedule, n, t, FindCustomer);
    }
  }

  lemma EnabledRuns(s: State, t: Uuid)
    requires Enabled(s, Advance(t))
    ensures t in s.txns && s.txns[t].pc != Done && Step(s, t).Some?
  {
  }

  lemma HistoryOf(s: State, schedule: seq<Action>, t: Uuid, x: Txn, a: Account)
    requires CreditHistory(s, schedule, t, x, a) && CreditProgress(x.pc) >= 3
    ensures exists n :: FoundAt(s, schedule, n, t, a.0)
    ensures exists m :: LockedAt(s, schedule, m, t, a, RowRead(x, a.1))
  {
  }

  /** A credit ends at its lookup, for want of a customer, or under its row lock. */
  lemma CreditEnd(s: State, t: Uuid, a: Account, amount: Dec)
    requires Running(s, t) && s.txns[t].req == CreditReq(a.0, a.1, amount) && Step(s, t).Some?
    requires After(s, t).pc == Done
    ensures var x, o := s.txns[t], AnswerNow(s, t);
            || (x.pc == FindCustomer && a.0 !in s.db.customers && o == Rejected(CustomerNotFound))
            || (&& CreditProgress(x.pc) >= 3 && o != Rejected(CustomerNotFound)
                && o == CreditVerdict(RowRead(x, a.1), RoundMoney(amount)))
  {
    hide ExecuteStep, CustomerStep, TxnInv, Valid, RoundMoney, UpdatedBalance, NewBalance, RowsComplete,
         DisjointFromOthers, RowPending, RowLocked, FitsNumeric, CreditBalance, CreditVerdict, PostStep;
    RunningCredit(s, t, a, amount);
    ValidRows(s.db);
    var x := s.txns[t];
    CreditRowCommitted(s.db, t, x, a, amount);
    if x.pc == LockRow {
      InOwnView(s.db, x.w, a);
    }
    CreditAnswers(s.db, a.0, a.1, amount, t);
    if CreditProgress(x.pc) >= 3 {
      assert a in x.rowLocks;
      HeldIsNet(s.db, a);
    }
  }

  lemma HeldIsNet(db: Tables, a: Account)
    requires Valid(db) && a in db.balances
    ensures db.balances[a] == Net(db.ledger, a)
  {
  }

  // ---------------------------------------------------------------- retries

  /** Every execution under way, or ended by itself, looked its key up first. */
  lemma {:induction false} LooksAreReal(s: State, schedule: seq<Action>, t: Uuid, r: ExecuteRequest)
    requires Initial(s) && t in RunAll(s, schedule).txns && RunAll(s, schedule).txns[t].req == ExecuteReq(r)
    requires RunAll(s, schedule).txns[t].pc != Done && RunAll(s, schedule).txns[t].pc != ReadKey
    ensures exists m :: Took(s, schedule, m, t, ReadKey)
  {
    hide Initial, Apply, After, NewTxn, Took;
    if schedule == [] {
      NothingBegun(s);
    } else {
      var n := |schedule| - 1;
      LastAction(s, schedule, t);
      var was, x := Before(s, schedule, n), RunAll(s, schedule).txns[t];
      if schedule[n].Begin? {
        NotDoneAtFirst(schedule[n].req);
      }
      if t in was.txns && x == was.txns[t] {
        LooksAreReal(s, schedule[..n], t, r);
        var m :| Took(s, schedule[..n], m, t, ReadKey);
        TookEarlier(s, schedule, n, m, t, ReadKey);
      } else if schedule[n] == Advance(t) && Enabled(was, Advance(t)) {
        RunningAt(s, schedule, n, t);
        SameRequest(was, t);
        if was.txns[t].pc == ReadKey {
          TookLast(s, schedule, t, ReadKey);
        } else {
          LooksAreReal(s, schedule[..n], t, r);
          var m :| Took(s, schedule[..n], m, t, ReadKey);
          TookEarlier(s, schedule, n, m, t, ReadKey);
        }
      }
    }
  }

  lemma TookEarlier(s: State, schedule: seq<Action>, n: nat, m: nat, t: Uuid, pc: Pc)
    requires n <= |schedule| && Took(s, schedule[..n], m, t, pc)
    ensures Took(s, schedule, m, t, pc)
  {
    hide Enabled, RunAll;
    Earlier(s, schedule, n, m);
  }

  lemma TookLast(s: State, schedule: seq<Action>, t: Uuid, pc: Pc)
    requires schedule != [] && schedule[|schedule| - 1] == Advance(t)
    requires Enabled(Before(s, schedule, |schedule| - 1), Advance(t))
    requires Before(s, schedule, |schedule| - 1).txns[t].pc == pc
    ensures Took(s, schedule, |schedule| - 1, t, pc)
  {
  }

  /** An execution that finds its key committed ends at once, with the stored answer or a conflict. */
  lemma FoundKeyStep(s: State, t: Uuid, r: ExecuteRequest)
    requires Running(s, t) && s.txns[t].req == ExecuteReq(r) && s.txns[t].pc == ReadKey && r.key in s.db.keys
    ensures Step(s, t).Some? && s.db.keys[r.key].payload.Some?
    ensures After(s, t).pc == Done && After(s, t).outcome == Some(UsedKeyAnswer(s.db.keys[r.key], r.hash))
  {
    hide TxnInv, ExecuteInv, RowsComplete, CacheMatches, Solvent, QuotesValid, ExecutionsValid, LedgerSettles,
         PayloadsDistinct, DisjointFromOthers;
    RunningExecute(s, t, r);
    EmptyKeyUnused(s.db);
  }

  lemma EmptyKeyUnused(db: Tables)
    requires Valid(db)
    ensures "" !in db.keys && forall k :: k in db.keys ==> db.keys[k].payload.Some? && db.keys[k].completedAt.Some?
  {
  }

  /** A success leaves its payload and its hash under its key, at every later point. */
  lemma SuccessIsStored(s: State, schedule: seq<Action>, n: nat, u: Uuid, p: Payload)
    requires Initial(s) && n <= |schedule|
    requires var was := Before(s, schedule, n);
             u in was.txns && was.txns[u].req.ExecuteReq? && Succeeded(was.txns[u], p)
    ensures var was := Before(s, schedule, n);
            var r := was.txns[u].req.r;
            r.key in was.db.keys && was.db.keys[r.key].hash == r.hash && was.db.keys[r.key].payload == Some(p)
  {
    hide Valid, Faithful, LogMatches, Exclusive, RunAll;
    RunningAt(s, schedule, n, u);
    var was := Before(s, schedule, n);
    assert TxnInv(was.db, u, was.txns[u]);
  }

  /**
    A retry, in any schedule. Once a request has succeeded under a key, every execution begun
    later with that key that ends without a fault is told the same: the first payload if it is the
    same request, a conflict if it is another.
   */
  lemma RetriesAreReplayed(s: State, schedule: seq<Action>, k: nat, u: Uuid, p: Payload, t: Uuid)
    requires Initial(s) && k <= |schedule|
    requires var was := Before(s, schedule, k);
             && u in was.txns && was.txns[u].req.ExecuteReq? && Succeeded(was.txns[u], p)
             && t !in was.txns
    requires t in RunAll(s, schedule).txns && Unharmed(s, schedule, t)
    requires var x := RunAll(s, schedule).txns[t];
             x.pc == Done && x.req.ExecuteReq? && x.req.r.key == Before(s, schedule, k).txns[u].req.r.key
    ensures RunAll(s, schedule).txns[t].outcome
         == Some(if RunAll(s, schedule).txns[t].req.r.hash == Before(s, schedule, k).txns[u].req.r.hash
                 then Replayed(p) else Rejected(IdempotencyConflict))
  {
    hide Initial, RunAll, After, Step, Unharmed, Enabled, Succeeded;
    var r, first := RunAll(s, schedule).txns[t].req.r, Before(s, schedule, k).txns[u].req.r;
    var m := LookOf(s, schedule, t, r);
    var was := Before(s, schedule, m);
    EnabledRuns(was, t);
    if m < k {
      StillThere(s, schedule, m, k, t);
    }
    StillThere(s, schedule, k, m, u);
    RunningAt(s, schedule, m, t);
    SucceededStays(Before(s, schedule, k).txns[u], p);
    SuccessIsStored(s, schedule, m, u, p);
    SameRequestLater(s, schedule, m, t);
    FoundKeyStep(was, t, r);
    EndsThere(s, schedule, m, t);
  }

  lemma SucceededStays(x: Txn, p: Payload)
    requires Succeeded(x, p)
    ensures x.pc == Done
  {
  }

  /** Between two points of a run: what has begun is there, what has ended is unchanged. */
  lemma StillThere(s: State, schedule: seq<Action>, m: nat, k: nat, t: Uuid)
    requires k <= |schedule| && m <= |schedule|
    ensures m <= k && t in Before(s, schedule, m).txns ==>
              && t in Before(s, schedule, k).txns
              && (Before(s, schedule, m).txns[t].pc == Done ==>
                    Before(s, schedule, k).txns[t] == Before(s, schedule, m).txns[t])
  {
    hide RunAll;
    if m <= k && t in Before(s, schedule, m).txns {
      Earlier(s, schedule, k, m);
      EndedStays(s, schedule[..k], m, t);
    }
  }

  /** The request of a transaction never changes. */
  lemma {:induction false} SameRequestLater(s: State, schedule: seq<Action>, m: nat, t: Uuid)
    requires Initial(s) && m <= |schedule| && t in Before(s, schedule, m).txns
    ensures t in RunAll(s, schedule).txns && RunAll(s, schedule).txns[t].req == Before(s, schedule, m).txns[t].req
  {
    hide Initial, Apply, After, NewTxn, Inv, Running, AllTxns, Step;
    EndedStays(s, schedule, m, t);
    if m == |schedule| {
      assert schedule[..m] == schedule;
    } else {
      var n := |schedule| - 1;
      Earlier(s, schedule, n, m);
      SameRequestLater(s, schedule[..n], m, t);
      LastAction(s, schedule, t);
      if schedule[n] == Advance(t) && Enabled(Before(s, schedule, n), Advance(t)) {
        RunningAt(s, schedule, n, t);
        EnabledRuns(Before(s, schedule, n), t);
        SameRequest(Before(s, schedule, n), t);
      }
    }
  }

  lemma LookOf(s: State, schedule: seq<Action>, t: Uuid, r: ExecuteRequest) returns (m: nat)
    requires Initial(s) && t in RunAll(s, schedule).txns && Unharmed(s, schedule, t)
    requires RunAll(s, schedule).txns[t].pc == Done && RunAll(s, schedule).txns[t].req == ExecuteReq(r)
    ensures Took(s, schedule, m, t, ReadKey)
  {
    hide Initial, RunAll, AnswerNow, Unharmed, Enabled, After;
    EveryAnswerIsSerial(s, schedule, t);
    NotStruck(s, schedule, t);
    var n: nat :| AnsweredAt(s, schedule, n, t, RunAll(s, schedule).txns[t].outcome.value);
    EnabledRuns(Before(s, schedule, n), t);
    SameRequestLater(s, schedule, n, t);
    if Before(s, schedule, n).txns[t].pc == ReadKey {
      m := n;
    } else {
      LooksAreReal(s, schedule[..n], t, r);
      m :| Took(s, schedule[..n], m, t, ReadKey);
      TookEarlier(s, schedule, n, m, t, ReadKey);
    }
  }
}
