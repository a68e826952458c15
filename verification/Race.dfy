/**
  Any number of concurrent attempts on one executable quote: exactly one wins.
 */
module Race {
  import opened Money
  import opened Tables
  import opened TablesLaws
  import opened Protocol
  import opened ProtocolLaws
  import opened Serializability

  /** Every transaction attempts the quote, each under a key of its own. */
  ghost predicate Contenders(s: State, quoteId: Uuid) {
    && (forall t :: t in s.txns ==>
          s.txns[t].req.ExecuteReq? && s.txns[t].req.r.quoteId == quoteId && s.txns[t].req.r.key != "")
    && (forall t, u :: t in s.txns && u in s.txns && t != u ==> s.txns[t].req.r.key != s.txns[u].req.r.key)
  }

  ghost predicate Funded(db: Tables, quoteId: Uuid) {
    && quoteId in db.quotes
    && var q := db.quotes[quoteId];
       && AccountsPresent(db, q)
       && 0 < q.sourceAmount <= db.balances[(q.customer, q.source)]
       && 0 < q.destinationAmount
       && db.balances[(q.customer, q.destination)] + q.destinationAmount < NUMERIC_LIMIT
  }

  /** Nobody has won yet: the quote is executable, and every attempt is still under way. */
  ghost predicate Open(s: State, quoteId: Uuid) {
    && Contenders(s, quoteId)
    && Funded(s.db, quoteId) && !IsExecuted(s.db, quoteId)
    && forall t :: t in s.txns ==> s.txns[t].pc != Done && s.txns[t].req.r.key !in s.db.keys
  }

  /** One attempt has won; those that ended since were told so. */
  ghost predicate Won(s: State, quoteId: Uuid, winner: Uuid) {
    && Contenders(s, quoteId)
    && IsExecuted(s.db, quoteId)
    && winner in s.txns && s.txns[winner].pc == Done
    && s.txns[winner].outcome.Some? && s.txns[winner].outcome.value.Completed?
    && forall t :: t in s.txns && t != winner ==>
         && s.txns[t].req.r.key !in s.db.keys
         && (s.txns[t].pc == Done ==> s.txns[t].outcome == Some(Rejected(QuoteAlreadyExecuted)))
  }

  // ---------------------------------------------------------------- before anyone wins

  lemma OpenPut(s: State, quoteId: Uuid, t: Uuid, x: Txn)
    requires Open(s, quoteId) && t in s.txns && x.req == s.txns[t].req && x.pc != Done
    ensures Open(Put(s, t, x), quoteId)
  {
  }

  lemma RowsFunded(db: Tables, t: Uuid, x: Txn, r: ExecuteRequest)
    requires ExecuteInv(db, t, x, r) && Funded(db, r.quoteId)
    ensures x.pc == CheckFunds ==> RowRead(x, x.quote.source) >= x.quote.sourceAmount
    ensures Progress(x.pc) >= 3 ==> x.quote == db.quotes[r.quoteId]
  {
    if x.pc == CheckFunds {
      assert (x.quote.customer, x.quote.source) in x.rowLocks;
    }
  }

  /** Up to the commit no check can stop a contender. */
  lemma OpenStep(s: State, quoteId: Uuid, t: Uuid, r: ExecuteRequest)
    requires Open(s, quoteId) && Running(s, t) && AllTxns(s) && s.txns[t].req == ExecuteReq(r)
    requires s.now < s.db.quotes[quoteId].expiresAt
    requires Step(s, t).Some? && s.txns[t].pc != CommitExecution
    ensures Step(s, t).value == Put(s, t, After(s, t))
    ensures After(s, t).req == s.txns[t].req && After(s, t).pc != Done
  {
    hide CreditStep, CustomerStep, Valid, TxnInv, ExecuteWrites, RowsCurrent, View, UpdatedBalance, IsExecuted,
         ExecutionPending, KeyPending, QuoteLocked,
         RowLocked, RowPending, LockOrder, PostStep, DisjointFromOthers, AllTxns, Commit, FitsNumeric;
    RunningExecute(s, t, r);
    var x := s.txns[t];
    RowsFunded(s.db, t, x, r);
    match x.pc
    case CheckExecuted => NotExecuted(s.db, t, x, r);
    case InsertExecution => NotExecuted(s.db, t, x, r);
    case EnsureQuoteRow(i) =>
    case LockQuoteRow(i) =>
      ExecuteRowsCommitted(s.db, t, x, r);
      InView(s.db, x.w, (x.quote.customer, LockOrder(x.quote)[i]));
    case AppendDebit => PostKeepsRequest(x, DebitEntry(x.quote, t), AppendCredit);
    case AppendCredit => PostKeepsRequest(x, CreditEntry(x.quote, t), CommitExecution);
    case _ =>
  }

  lemma NotExecuted(db: Tables, t: Uuid, x: Txn, r: ExecuteRequest)
    requires ExecuteInv(db, t, x, r) && !IsExecuted(db, r.quoteId) && Progress(x.pc) <= 10
    ensures !IsExecuted(View(db, x.w), r.quoteId)
  {
    OwnExecutions(db, x.w, r.quoteId);
  }

  lemma InView(db: Tables, w: Writes, a: Account)
    requires a in db.balances
    ensures a in View(db, w).balances
  {
  }

  lemma PostKeepsRequest(x: Txn, e: LedgerEntry, next: Pc)
    ensures PostStep(x, e, next).req == x.req && PostStep(x, e, next).pc == next
  {
  }

  lemma OpenWon(s: State, quoteId: Uuid, t: Uuid, x: Txn, p: Payload)
    requires Open(s, quoteId) && t in s.txns && x.req == s.txns[t].req
    requires x.w.keys.Keys == {x.req.r.key} && IsExecuted(View(s.db, x.w), quoteId)
    ensures Won(Commit(s, t, x, Completed(p)), quoteId, t)
  {
    hide IsExecuted;
    assert View(s.db, x.w).keys.Keys == s.db.keys.Keys + {x.req.r.key};
  }

  lemma CommitFits(db: Tables, t: Uuid, x: Txn, r: ExecuteRequest)
    requires Valid(db) && ExecuteInv(db, t, x, r) && x.pc == CommitExecution && Funded(db, r.quoteId)
    ensures FitsNumeric(NewBalance(x, (x.quote.customer, x.quote.destination)))
  {
    hide UpdatedBalance, NewBalance, ExecuteWrites, RowsCurrent, Valid;
    QuoteDistinct(db, r.quoteId);
    CommitRows(db, t, x, r);
    UpdateExact(db.balances[(x.quote.customer, x.quote.destination)], CreditEntry(x.quote, t));
    BalanceInRange(db, (x.quote.customer, x.quote.destination));
  }

  lemma BalanceInRange(db: Tables, a: Account)
    requires Valid(db) && a in db.balances
    ensures 0 <= db.balances[a] < NUMERIC_LIMIT
  {
  }

  /** The commit of a contender wins the race. */
  lemma OpenCommit(s: State, quoteId: Uuid, t: Uuid, r: ExecuteRequest)
    requires Open(s, quoteId) && Running(s, t) && AllTxns(s) && s.txns[t].req == ExecuteReq(r)
    requires s.txns[t].pc == CommitExecution
    ensures Step(s, t).Some? && Won(Step(s, t).value, quoteId, t)
  {
    hide CreditStep, CustomerStep, Valid, TxnInv, PayloadOf, NewBalance, ExecuteInv, Funded, Won, View, IsExecuted,
         AllTxns;
    RunningExecute(s, t, r);
    var x := s.txns[t];
    CommitFits(s.db, t, x, r);
    ExecuteKeys(s.db, t, x, r);
    CommittedExecution(s.db, t, x, r, s.now);
    OpenWon(s, quoteId, t, CompletedTxn(t, x, r, s.now), PayloadOf(t, x, r.quoteId));
  }

  lemma CommittedExecution(db: Tables, t: Uuid, x: Txn, r: ExecuteRequest, now: int)
    requires ExecuteInv(db, t, x, r) && x.pc == CommitExecution
    ensures IsExecuted(View(db, CompletedTxn(t, x, r, now).w), r.quoteId)
  {
    assert View(db, CompletedTxn(t, x, r, now).w).executions[t].quoteId == r.quoteId;
  }

  // ---------------------------------------------------------------- after someone has won

  lemma WonPut(s: State, quoteId: Uuid, winner: Uuid, t: Uuid, x: Txn)
    requires Won(s, quoteId, winner) && t in s.txns && t != winner && x.req == s.txns[t].req
    requires x.pc == Done ==> x.outcome == Some(Rejected(QuoteAlreadyExecuted))
    ensures Won(Put(s, t, x), quoteId, winner)
  {
  }

  /** A contender that is still under way finds the execution and is turned away. */
  lemma LateStep(s: State, t: Uuid, r: ExecuteRequest)
    requires Running(s, t) && s.txns[t].req == ExecuteReq(r) && Step(s, t).Some?
    requires IsExecuted(s.db, r.quoteId) && r.quoteId in s.db.quotes && r.key != "" && r.key !in s.db.keys
    ensures var x := After(s, t);
            && Step(s, t).value == Put(s, t, x)
            && x.req == s.txns[t].req
            && (x.pc == Done ==> x.outcome == Some(Rejected(QuoteAlreadyExecuted)))
  {
    hide CreditStep, CustomerStep, Valid, TxnInv, RowsCurrent, IsExecuted, KeyPending, QuoteLocked, View, ExecuteWrites;
    RunningExecute(s, t, r);
    var x := s.txns[t];
    assert Progress(x.pc) <= 3;
    if x.pc == CheckExecuted {
      NoWritesYet(s.db, t, x, r);
      StillExecuted(s.db, x.w, r.quoteId);
    }
  }

  lemma NoWritesYet(db: Tables, t: Uuid, x: Txn, r: ExecuteRequest)
    requires ExecuteInv(db, t, x, r) && Progress(x.pc) <= 3
    ensures x.w.executions == map[]
  {
  }

  lemma WonStep(s: State, quoteId: Uuid, winner: Uuid, t: Uuid, r: ExecuteRequest)
    requires Won(s, quoteId, winner) && Running(s, t) && s.txns[t].req == ExecuteReq(r)
    requires quoteId in s.db.quotes && Step(s, t).Some?
    ensures Won(Step(s, t).value, quoteId, winner)
  {
    hide Valid, TxnInv, IsExecuted, Step;
    LateStep(s, t, r);
    WonPut(s, quoteId, winner, t, After(s, t));
  }

  lemma StillExecuted(db: Tables, w: Writes, quoteId: Uuid)
    requires IsExecuted(db, quoteId) && w.executions == map[]
    ensures IsExecuted(View(db, w), quoteId)
  {
    OwnExecutions(db, w, quoteId);
  }

  // ---------------------------------------------------------------- whole races

  /** No fault, no other transaction, and the clock stays before the quote's expiry. */
  ghost predicate FairSchedule(schedule: seq<Action>, expiresAt: int) {
    forall a <- schedule :: a.Advance? || (a.Tick? && a.now < expiresAt)
  }

  ghost predicate RaceState(d0: Tables, s: State, quoteId: Uuid, expiresAt: int) {
    && Inv(d0, s)
    && s.now < expiresAt
    && quoteId in s.db.quotes && s.db.quotes[quoteId].expiresAt == expiresAt
    && (Open(s, quoteId) || exists w :: Won(s, quoteId, w))
  }

  lemma RaceStep(d0: Tables, s: State, quoteId: Uuid, expiresAt: int, t: Uuid)
    requires RaceState(d0, s, quoteId, expiresAt) && Enabled(s, Advance(t))
    ensures RaceState(d0, Step(s, t).value, quoteId, expiresAt)
    ensures Step(s, t).value.txns.Keys == s.txns.Keys
  {
    hide Valid, TxnInv, Step, Open, Won, Faithful, LogMatches, Exclusive;
    AdvanceKeeps(d0, s, t);
    InvRunning(d0, s, t);
    KeepsQuotes(s, t);
    if Open(s, quoteId) {
      var r := ContenderRequest(s, quoteId, t);
      if s.txns[t].pc == CommitExecution {
        OpenCommit(s, quoteId, t, r);
      } else {
        OpenStep(s, quoteId, t, r);
        OpenPut(s, quoteId, t, After(s, t));
      }
    } else {
      var w :| Won(s, quoteId, w);
      var r := WonRequest(s, quoteId, w, t);
      WonStep(s, quoteId, w, t, r);
    }
  }

  lemma ContenderRequest(s: State, quoteId: Uuid, t: Uuid) returns (r: ExecuteRequest)
    requires Open(s, quoteId) && t in s.txns
    ensures s.txns[t].req == ExecuteReq(r)
  {
    r := s.txns[t].req.r;
  }

  lemma WonRequest(s: State, quoteId: Uuid, w: Uuid, t: Uuid) returns (r: ExecuteRequest)
    requires Won(s, quoteId, w) && t in s.txns
    ensures s.txns[t].req == ExecuteReq(r)
  {
    r := s.txns[t].req.r;
  }

  lemma KeepsQuotes(s: State, t: Uuid)
    requires Running(s, t) && AllTxns(s) && Step(s, t).Some?
    ensures Step(s, t).value.db.quotes == s.db.quotes && Step(s, t).value.now == s.now
    ensures Step(s, t).value.txns.Keys == s.txns.Keys
  {
    hide Valid, TxnInv, Step, GoodPut, GoodCommit;
    var x, o := StepGood(s, t);
  }

  lemma {:induction false} RaceRuns(d0: Tables, s: State, quoteId: Uuid, expiresAt: int, schedule: seq<Action>)
    requires RaceState(d0, s, quoteId, expiresAt) && FairSchedule(schedule, expiresAt)
    ensures RaceState(d0, RunAll(s, schedule), quoteId, expiresAt)
    ensures RunAll(s, schedule).txns.Keys == s.txns.Keys
  {
    hide RaceState, Step;
    if schedule != [] {
      var n := |schedule| - 1;
      RaceRuns(d0, s, quoteId, expiresAt, schedule[..n]);
      var before := RunAll(s, schedule[..n]);
      if Enabled(before, schedule[n]) {
        if schedule[n].Advance? {
          RaceStep(d0, before, quoteId, expiresAt, schedule[n].t);
        } else {
          RaceTick(d0, before, quoteId, expiresAt, schedule[n].now);
        }
      }
    }
  }

  lemma RaceTick(d0: Tables, s: State, quoteId: Uuid, expiresAt: int, now: int)
    requires RaceState(d0, s, quoteId, expiresAt) && now < expiresAt
    ensures RaceState(d0, s.(now := now), quoteId, expiresAt)
  {
    hide Inv;
    TickKeeps(d0, s, now);
    if !Open(s, quoteId) {
      var w :| Won(s, quoteId, w);
      assert Won(s.(now := now), quoteId, w);
    }
  }

  /**
    Exactly one winner. Of any number of concurrent attempts on one executable, funded quote,
    under distinct unused keys, every complete fault-free schedule before the expiry ends with
    one success, and every other attempt is told the quote was already executed.
   */
  lemma ExactlyOneWinner(s0: State, setup: seq<Action>, quoteId: Uuid, schedule: seq<Action>)
    requires Initial(s0)
    requires var s := RunAll(s0, setup);
             && Open(s, quoteId) && s.txns != map[]
             && s.now < s.db.quotes[quoteId].expiresAt && FairSchedule(schedule, s.db.quotes[quoteId].expiresAt)
             && forall t :: t in RunAll(s, schedule).txns ==> RunAll(s, schedule).txns[t].pc == Done
    ensures var s := RunAll(s0, setup);
            var final := RunAll(s, schedule);
            && final.txns.Keys == s.txns.Keys
            && exists w :: w in final.txns && final.txns[w].outcome.Some? && final.txns[w].outcome.value.Completed?
                 && forall t :: t in final.txns && t != w
                      ==> final.txns[t].outcome == Some(Rejected(QuoteAlreadyExecuted))
  {
    hide Inv;
    var s := RunAll(s0, setup);
    RunKeeps(s0, setup);
    RaceRuns(s0.db, s, quoteId, s.db.quotes[quoteId].expiresAt, schedule);
    var final := RunAll(s, schedule);
    var t :| t in s.txns;
    assert t in final.txns;
    var w :| Won(final, quoteId, w);
  }
}
