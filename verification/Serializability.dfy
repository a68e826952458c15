/**
  Commit-order serializability of every schedule, and what follows for the committed tables and
  for the answers given.
 */
module Serializability {
  import opened Money
  import opened Tables
  import opened TablesLaws
  import opened Protocol
  import opened ProtocolLaws
  import Pricing

  // ---------------------------------------------------------------- the global invariant

  function Answer(e: LogEntry): Outcome {
    match e
    case TxnEntry(_, _, _, _, outcome) => outcome
    case QuoteEntry(_, _, _) => Created
  }

  /** The tables, and every answer, are those of the serial run of the log, which is valid throughout. */
  ghost predicate Faithful(d0: Tables, db: Tables, log: seq<LogEntry>) {
    && db == SerialRun(d0, log)
    && (forall i :: 0 <= i <= |log| ==> Valid(SerialRun(d0, log[..i])))
    && (forall i :: 0 <= i < |log| ==> Serial(SerialRun(d0, log[..i]), log[i]).1 == Answer(log[i]))
  }

  /** The log lists each committed transaction once, with its request and its answer. */
  ghost predicate LogMatches(s: State) {
    && (forall i :: 0 <= i < |s.log| && s.log[i].TxnEntry? ==>
          var e := s.log[i];
          && e.id in s.txns && s.txns[e.id].pc == Done && s.txns[e.id].req == e.req
          && s.txns[e.id].outcome == Some(e.outcome) && Committed(e.outcome))
    && (forall i, j :: 0 <= i < j < |s.log| && s.log[i].TxnEntry? && s.log[j].TxnEntry? ==> s.log[i].id != s.log[j].id)
    && (forall t :: t in s.txns && s.txns[t].pc == Done && s.txns[t].outcome.Some?
                    && Committed(s.txns[t].outcome.value) ==>
          exists i :: 0 <= i < |s.log| && s.log[i].TxnEntry? && s.log[i].id == t)
  }

  ghost predicate AllTxns(s: State) {
    forall t :: t in s.txns ==> TxnInv(s.db, t, s.txns[t])
  }

  ghost predicate Inv(d0: Tables, s: State) {
    && Valid(s.db) && AllTxns(s) && Exclusive(s.txns)
    && Faithful(d0, s.db, s.log) && LogMatches(s)
  }

  ghost predicate Initial(s: State) {
    Valid(s.db) && s.txns == map[] && s.log == []
  }

  lemma FaithfulAppend(d0: Tables, db: Tables, log: seq<LogEntry>, e: LogEntry)
    requires Faithful(d0, db, log) && Serial(db, e).1 == Answer(e) && Valid(Serial(db, e).0)
    ensures Faithful(d0, Serial(db, e).0, log + [e])
  {
    hide Serial, Valid;
    var more := log + [e];
    assert more[..|log|] == log;
    assert more[..|more|] == more;
    forall i | 0 <= i <= |more|
      ensures Valid(SerialRun(d0, more[..i]))
    {
      if i <= |log| {
        assert more[..i] == log[..i];
      }
    }
    forall i | 0 <= i < |more|
      ensures Serial(SerialRun(d0, more[..i]), more[i]).1 == Answer(more[i])
    {
      if i < |log| {
        assert more[..i] == log[..i];
      }
    }
  }

  // ---------------------------------------------------------------- each action keeps it

  lemma PutKeeps(d0: Tables, s: State, t: Uuid, x: Txn)
    requires Inv(d0, s) && t in s.txns && s.txns[t].pc != Done && GoodPut(s, t, x)
    ensures Inv(d0, Put(s, t, x))
  {
    hide Valid, TxnInv, Disjoint, Faithful;
    var s' := Put(s, t, x);
    assert forall u :: u in s.txns && u != t ==> Disjoint(s.txns[u], x) by {
      forall u | u in s.txns && u != t
        ensures Disjoint(s.txns[u], x)
      {
        DisjointSymmetric(x, s.txns[u]);
      }
    }
    assert forall i :: 0 <= i < |s.log| && s.log[i].TxnEntry? ==> s.log[i].id != t;
    forall u | u in s'.txns && s'.txns[u].pc == Done && s'.txns[u].outcome.Some? && Committed(s'.txns[u].outcome.value)
      ensures exists i :: 0 <= i < |s'.log| && s'.log[i].TxnEntry? && s'.log[i].id == u
    {
      assert u != t;
    }
  }

  lemma DisjointSymmetric(x: Txn, y: Txn)
    requires Disjoint(x, y)
    ensures Disjoint(y, x)
  {
  }

  lemma EndedDisjoint(x: Txn, o: Outcome, y: Txn)
    ensures Disjoint(Ended(x, o), y) && Disjoint(y, Ended(x, o))
  {
  }

  lemma CommitKeepsTxns(s: State, t: Uuid, x: Txn, o: Outcome)
    requires Valid(s.db) && AllTxns(s) && Exclusive(s.txns) && GoodCommit(s, t, x, o)
    ensures AllTxns(Commit(s, t, x, o)) && Exclusive(Commit(s, t, x, o).txns)
  {
    hide TxnInv, Disjoint, Owns, Valid, View;
    ValidRows(s.db);
    forall u | u in s.txns && u != t
      ensures TxnInv(View(s.db, x.w), u, s.txns[u])
      ensures Disjoint(Ended(x, o), s.txns[u]) && Disjoint(s.txns[u], Ended(x, o))
    {
      CommitStable(s.db, t, x, u, s.txns[u]);
      EndedDisjoint(x, o, s.txns[u]);
    }
  }

  lemma CommitKeepsLog(s: State, t: Uuid, x: Txn, o: Outcome)
    requires LogMatches(s) && t in s.txns && s.txns[t].pc != Done && Committed(o)
    ensures LogMatches(Commit(s, t, x, o))
  {
    var s' := Commit(s, t, x, o);
    var n := |s.log|;
    assert s'.log[n].TxnEntry? && s'.log[n].id == t;
    forall u | u in s'.txns && s'.txns[u].pc == Done && s'.txns[u].outcome.Some? && Committed(s'.txns[u].outcome.value)
      ensures exists i :: 0 <= i < |s'.log| && s'.log[i].TxnEntry? && s'.log[i].id == u
    {
      if u != t {
        var i :| 0 <= i < n && s.log[i].TxnEntry? && s.log[i].id == u;
        assert s'.log[i] == s.log[i];
      }
    }
  }

  lemma CommitKeeps(d0: Tables, s: State, t: Uuid, x: Txn, o: Outcome)
    requires Inv(d0, s) && t in s.txns && s.txns[t].pc != Done && GoodCommit(s, t, x, o)
    ensures Inv(d0, Commit(s, t, x, o))
  {
    hide Valid, TxnInv, Owns, Serial, View, Faithful, LogMatches, AllTxns, Exclusive;
    CommitKeepsTxns(s, t, x, o);
    CommitKeepsLog(s, t, x, o);
    FaithfulAppend(d0, s.db, s.log, TxnEntry(t, x.req, x.checkedAt, s.now, o));
  }

  lemma CommitStepGood(s: State, t: Uuid, r: ExecuteRequest) returns (x: Txn, o: Outcome)
    requires Running(s, t) && s.txns[t].req == ExecuteReq(r) && s.txns[t].pc == CommitExecution
    ensures Step(s, t).Some? && Good(s, t, Step(s, t).value, x, o)
  {
    hide Valid, TxnInv, GoodPut, GoodCommit, DisjointFromOthers, UpdatedBalance;
    if FitsNumeric(NewBalance(s.txns[t], (s.txns[t].quote.customer, s.txns[t].quote.destination))) {
      CommitGood(s, t, r);
      x, o := CompletedTxn(t, s.txns[t], r, s.now), Completed(PayloadOf(t, s.txns[t], r.quoteId));
    } else {
      x, o := After(s, t), Created;
      AbortGood(s, t, x.outcome.value);
    }
  }

  lemma ExecuteGood(s: State, t: Uuid, r: ExecuteRequest) returns (x: Txn, o: Outcome)
    requires Running(s, t) && AllTxns(s) && s.txns[t].req == ExecuteReq(r)
    ensures Step(s, t).Some? ==> Good(s, t, Step(s, t).value, x, o)
  {
    hide Valid, TxnInv, GoodPut, GoodCommit, DisjointFromOthers, Step, ExecuteWrites, RowsCurrent;
    RunningExecute(s, t, r);
    o := Created;
    x := s.txns[t];
    if Step(s, t).Some? {
      StepKeepsTxn(s, t);
      x := After(s, t);
      match s.txns[t].pc
      case ReadKey => ClaimGood(s, t, r);
      case ClaimKey => ClaimGood(s, t, r);
      case LockQuote => LockQuoteGood(s, t, r);
      case CheckExecuted => CheckGood(s, t, r);
      case CheckExpiry => CheckGood(s, t, r);
      case CheckFunds => CheckGood(s, t, r);
      case EnsureQuoteRow(_) => EnsureGood(s, t, r);
      case LockQuoteRow(_) => LockRowGood(s, t, r);
      case InsertExecution => WriteGood(s, t, r);
      case AppendDebit => WriteGood(s, t, r);
      case AppendCredit => WriteGood(s, t, r);
      case CommitExecution => x, o := CommitStepGood(s, t, r);
      case _ => assert false;
    }
  }

  lemma StepKeepsTxn(s: State, t: Uuid)
    requires t in s.txns && Step(s, t).Some?
    ensures t in Step(s, t).value.txns
  {
    hide View, UpdatedBalance, RoundMoney, IsExecuted, PayloadOf, NewBalance, PostStep, LockOrder, Refusal,
         KeyPending, QuoteLocked, RowLocked, RowPending, ExecutionPending;
  }

  lemma CommitCreditStepGood(s: State, t: Uuid, a: Account, amount: Dec) returns (x: Txn, o: Outcome)
    requires Running(s, t) && s.txns[t].req == CreditReq(a.0, a.1, amount) && s.txns[t].pc == CommitCredit
    ensures Step(s, t).Some? && Good(s, t, Step(s, t).value, x, o)
  {
    hide Valid, TxnInv, GoodPut, GoodCommit, DisjointFromOthers, RoundMoney;
    if FitsNumeric(NewBalance(s.txns[t], a)) {
      CommitCreditGood(s, t, a, amount);
      x, o := s.txns[t], Credited(NewBalance(s.txns[t], a));
    } else {
      x, o := After(s, t), Created;
      AbortGood(s, t, x.outcome.value);
    }
  }

  /** Every statement of every transaction is a good one. */
  lemma StepGood(s: State, t: Uuid) returns (x: Txn, o: Outcome)
    requires Running(s, t) && AllTxns(s)
    ensures Step(s, t).Some? ==> Good(s, t, Step(s, t).value, x, o)
  {
    hide Valid, TxnInv, GoodPut, GoodCommit, DisjointFromOthers, Step;
    o := Created;
    x := s.txns[t];
    match s.txns[t].req
    case ExecuteReq(r) =>
      x, o := ExecuteGood(s, t, r);
    case CreditReq(customer, currency, amount) =>
      if s.txns[t].pc == CommitCredit {
        x, o := CommitCreditStepGood(s, t, (customer, currency), amount);
      } else if Step(s, t).Some? {
        CreditGood(s, t, (customer, currency), amount);
        x := After(s, t);
      }
    case CustomerReq =>
      if s.txns[t].pc == CommitCustomer {
        CommitCustomerGood(s, t);
        CommitCustomerStep(s, t);
      } else if Step(s, t).Some? {
        CustomerGood(s, t);
        x := After(s, t);
      }
  }

  lemma CommitCustomerStep(s: State, t: Uuid)
    requires t in s.txns && s.txns[t].req == CustomerReq && s.txns[t].pc == CommitCustomer
    ensures Step(s, t) == Some(Commit(s, t, s.txns[t], Created))
  {
  }

  lemma InvRunning(d0: Tables, s: State, t: Uuid)
    requires Inv(d0, s) && t in s.txns && s.txns[t].pc != Done
    ensures Running(s, t)
  {
  }

  lemma AdvanceKeeps(d0: Tables, s: State, t: Uuid)
    requires Inv(d0, s) && t in s.txns && s.txns[t].pc != Done && Step(s, t).Some?
    ensures Inv(d0, Step(s, t).value)
  {
    hide Valid, TxnInv, GoodPut, GoodCommit, Step, Faithful, LogMatches, Exclusive;
    InvRunning(d0, s, t);
    var x, o := StepGood(s, t);
    if Step(s, t).value == Put(s, t, x) && GoodPut(s, t, x) {
      PutKeeps(d0, s, t, x);
    } else {
      CommitKeeps(d0, s, t, x, o);
    }
  }

  lemma NewTxnInv(db: Tables, t: Uuid, req: Request, y: Txn)
    requires FreshId(db, t)
    ensures TxnInv(db, t, NewTxn(req))
    ensures Disjoint(NewTxn(req), y) && Disjoint(y, NewTxn(req))
  {
  }

  lemma BeginKeepsTxns(s: State, t: Uuid, req: Request)
    requires AllTxns(s) && Exclusive(s.txns) && Enabled(s, Begin(t, req))
    ensures AllTxns(Put(s, t, NewTxn(req))) && Exclusive(Put(s, t, NewTxn(req)).txns)
  {
    hide TxnInv, Disjoint, NewTxn, Step;
    forall u
      ensures TxnInv(s.db, t, NewTxn(req))
      ensures u in s.txns ==> Disjoint(NewTxn(req), s.txns[u]) && Disjoint(s.txns[u], NewTxn(req))
    {
      NewTxnInv(s.db, t, req, if u in s.txns then s.txns[u] else NewTxn(req));
    }
  }

  lemma BeginKeepsLog(s: State, t: Uuid, req: Request)
    requires LogMatches(s) && t !in s.txns
    ensures LogMatches(Put(s, t, NewTxn(req)))
  {
    var s' := Put(s, t, NewTxn(req));
    forall u | u in s'.txns && s'.txns[u].pc == Done && s'.txns[u].outcome.Some? && Committed(s'.txns[u].outcome.value)
      ensures exists i :: 0 <= i < |s'.log| && s'.log[i].TxnEntry? && s'.log[i].id == u
    {
      assert u in s.txns && s.txns[u] == s'.txns[u];
    }
  }

  lemma BeginKeeps(d0: Tables, s: State, t: Uuid, req: Request)
    requires Inv(d0, s) && Enabled(s, Begin(t, req))
    ensures Inv(d0, Put(s, t, NewTxn(req)))
  {
    hide Valid, Faithful, AllTxns, Exclusive, LogMatches, Step, NewTxn;
    BeginKeepsTxns(s, t, req);
    BeginKeepsLog(s, t, req);
  }

  lemma FailKeeps(d0: Tables, s: State, t: Uuid)
    requires Inv(d0, s) && t in s.txns && s.txns[t].pc != Done
    ensures Inv(d0, Abort(s, t, s.txns[t], Fault))
  {
    hide Valid, TxnInv, GoodPut, Faithful, LogMatches, Exclusive;
    InvRunning(d0, s, t);
    AbortGood(s, t, Rejected(Fault));
    PutKeeps(d0, s, t, Ended(s.txns[t], Rejected(Fault)));
  }

  /** A new quote changes nothing a running transaction relies on. */
  lemma QuoteStable(db: Tables, id: Uuid, q: Quote, legs: seq<Pricing.LegPricing>, u: Uuid, y: Txn)
    requires id !in db.quotes && TxnInv(db, u, y)
    ensures TxnInv(StoreQuote(db, id, q, legs), u, y)
  {
    var db' := StoreQuote(db, id, q, legs);
    assert db'.executions == db.executions;
    assert forall quoteId :: IsExecuted(db', quoteId) == IsExecuted(db, quoteId);
  }

  lemma QuoteKeeps(d0: Tables, s: State, id: Uuid, q: Quote, legs: seq<Pricing.LegPricing>)
    requires Inv(d0, s) && Enabled(s, CommitQuote(id, q, legs))
    ensures Inv(d0, Apply(s, CommitQuote(id, q, legs)))
  {
    hide Valid, TxnInv, Disjoint, StoreQuote, Faithful;
    var s' := Apply(s, CommitQuote(id, q, legs));
    StoreQuoteKeeps(s.db, id, q, legs);
    FaithfulAppend(d0, s.db, s.log, QuoteEntry(id, q, legs));
    forall u | u in s.txns
      ensures TxnInv(s'.db, u, s.txns[u])
    {
      QuoteStable(s.db, id, q, legs, u, s.txns[u]);
    }
    forall u | u in s'.txns && s'.txns[u].pc == Done && s'.txns[u].outcome.Some? && Committed(s'.txns[u].outcome.value)
      ensures exists i :: 0 <= i < |s'.log| && s'.log[i].TxnEntry? && s'.log[i].id == u
    {
      var i :| 0 <= i < |s.log| && s.log[i].TxnEntry? && s.log[i].id == u;
      assert s'.log[i] == s.log[i];
    }
  }

  lemma ApplyKeeps(d0: Tables, s: State, a: Action)
    requires Inv(d0, s) && Enabled(s, a)
    ensures Inv(d0, Apply(s, a))
  {
    hide Inv;
    match a
    case Begin(t, req) => BeginKeeps(d0, s, t, req);
    case Advance(t) => AdvanceKeeps(d0, s, t);
    case Fail(t) => FailKeeps(d0, s, t);
    case Tick(now) => TickKeeps(d0, s, now);
    case CommitQuote(id, q, legs) => QuoteKeeps(d0, s, id, q, legs);
  }

  lemma TickKeeps(d0: Tables, s: State, now: int)
    requires Inv(d0, s)
    ensures Inv(d0, s.(now := now))
  {
    hide Valid, TxnInv, Disjoint, Faithful;
  }

  lemma {:induction false} RunKeeps(s: State, schedule: seq<Action>)
    requires Initial(s)
    ensures Inv(s.db, RunAll(s, schedule))
  {
    hide Inv, Enabled, Apply;
    if schedule == [] {
      InitialInv(s);
    } else {
      RunKeeps(s, schedule[..|schedule| - 1]);
      var before := RunAll(s, schedule[..|schedule| - 1]);
      if Enabled(before, schedule[|schedule| - 1]) {
        ApplyKeeps(s.db, before, schedule[|schedule| - 1]);
      }
    }
  }

  lemma InitialInv(s: State)
    requires Initial(s)
    ensures Inv(s.db, s)
  {
  }

  // ---------------------------------------------------------------- the theorems

  /**
    Commit-order serializability. After any schedule of any number of transactions, with faults
    anywhere, the committed tables equal those of running only the committed transactions, one
    at a time, in commit order; each was answered as it would be in that serial run; and the log
    holds every committed transaction exactly once.
   */
  lemma Serializable(s: State, schedule: seq<Action>)
    requires Initial(s)
    ensures var final := RunAll(s, schedule);
            && final.db == SerialRun(s.db, final.log)
            && (forall i :: 0 <= i < |final.log| ==>
                  Serial(SerialRun(s.db, final.log[..i]), final.log[i]).1 == Answer(final.log[i]))
            && LogMatches(final)
  {
    RunKeeps(s, schedule);
  }

  /** Cache equals ledger, solvency of every ledger prefix, settlement: in every state the history went through. */
  lemma AlwaysValid(s: State, schedule: seq<Action>)
    requires Initial(s)
    ensures Valid(RunAll(s, schedule).db)
    ensures forall i :: 0 <= i <= |RunAll(s, schedule).log| ==> Valid(SerialRun(s.db, RunAll(s, schedule).log[..i]))
  {
    RunKeeps(s, schedule);
  }

  ghost predicate Succeeded(x: Txn, p: Payload) {
    x.pc == Done && (x.outcome == Some(Completed(p)) || x.outcome == Some(Replayed(p)))
  }

  /**
    Idempotent answers: all successful responses ever given for a key are one and the same
    payload, however many transactions asked and however balances moved in between; a request
    with another hash never succeeds under the key.
   */
  lemma OneAnswerPerKey(s: State, schedule: seq<Action>, t: Uuid, u: Uuid, p: Payload, q: Payload)
    requires Initial(s)
    requires var txns := RunAll(s, schedule).txns;
             && t in txns && u in txns && Succeeded(txns[t], p) && Succeeded(txns[u], q)
             && txns[t].req.ExecuteReq? && txns[u].req.ExecuteReq? && txns[t].req.r.key == txns[u].req.r.key
    ensures p == q
    ensures RunAll(s, schedule).txns[t].req.r.hash == RunAll(s, schedule).txns[u].req.r.hash
  {
    hide Valid, Faithful;
    RunKeeps(s, schedule);
    var final := RunAll(s, schedule);
    assert TxnInv(final.db, t, final.txns[t]) && TxnInv(final.db, u, final.txns[u]);
  }

  ghost predicate RolledBack(s: State, t: Uuid) {
    t in s.txns && s.txns[t].pc == Done && s.txns[t].outcome.Some? && s.txns[t].outcome.value.Rejected?
  }

  /** A transaction that was rolled back left no row behind, in any table, and holds nothing. */
  lemma RejectedLeavesNothing(s: State, schedule: seq<Action>, t: Uuid)
    requires Initial(s) && RolledBack(RunAll(s, schedule), t)
    ensures var x := RunAll(s, schedule).txns[t];
            x.w == NO_WRITES && x.quoteLock == None && x.rowLocks == {}
    ensures FreshId(RunAll(s, schedule).db, t)
    ensures var keys := RunAll(s, schedule).db.keys;
            forall k :: k in keys ==> keys[k].payload.Some? && keys[k].payload.value.executionId != t
    ensures EntriesFor(RunAll(s, schedule).db.ledger, ExecutionRef(t)) == []
    ensures EntriesFor(RunAll(s, schedule).db.ledger, AdjustmentRef(t)) == []
    ensures forall i :: 0 <= i < |RunAll(s, schedule).log| && RunAll(s, schedule).log[i].TxnEntry? ==>
              RunAll(s, schedule).log[i].id != t
  {
    hide Faithful, EntriesFor;
    RunKeeps(s, schedule);
    var final := RunAll(s, schedule);
    assert TxnInv(final.db, t, final.txns[t]);
    assert EntriesFor(final.db.ledger, ExecutionRef(t)) == SettlementOf(final.db, ExecutionRef(t));
    assert EntriesFor(final.db.ledger, AdjustmentRef(t)) == SettlementOf(final.db, AdjustmentRef(t));
  }

  /**
    The key of a rolled-back execution can be claimed again: the next transaction that asks for it
    gets it, unless somebody else has committed it or is holding it.
   */
  lemma KeyReclaimable(s: State, schedule: seq<Action>, t: Uuid, u: Uuid, key: string)
    requires Initial(s) && RolledBack(RunAll(s, schedule), t)
    requires var final := RunAll(s, schedule);
             && u in final.txns && final.txns[u].pc == ClaimKey
             && final.txns[u].req.ExecuteReq? && final.txns[u].req.r.key == key
             && key !in final.db.keys
             && forall v :: v in final.txns && v != t && v != u ==> key !in final.txns[v].w.keys
    ensures var final := RunAll(s, schedule);
            && Enabled(final, Advance(u))
            && var x := Apply(final, Advance(u)).txns[u];
               x.pc == LockQuote && key in x.w.keys
  {
    hide Inv;
    RejectedLeavesNothing(s, schedule, t);
    assert !KeyPending(RunAll(s, schedule), u, key);
  }

  /** Every committed execution found its quote unexecuted and unexpired, and answered its terms. */
  lemma FirstExecution(s: State, schedule: seq<Action>, i: nat)
    requires Initial(s) && i < |RunAll(s, schedule).log|
    requires var e := RunAll(s, schedule).log[i]; e.TxnEntry? && e.req.ExecuteReq?
    ensures var e := RunAll(s, schedule).log[i];
            var before := SerialRun(s.db, RunAll(s, schedule).log[..i]);
            && e.req.r.quoteId in before.quotes
            && !IsExecuted(before, e.req.r.quoteId)
            && e.checkedAt < before.quotes[e.req.r.quoteId].createdAt + 60_000_000
            && e.outcome == Completed(ResponseOf(before, e.req.r, e.id))
  {
    hide Valid, LogMatches;
    RunKeeps(s, schedule);
    CommittedEntries(s, schedule, i);
    var log := RunAll(s, schedule).log;
    SerialExecution(SerialRun(s.db, log[..i]), log[i]);
    QuoteInTime(SerialRun(s.db, log[..i]), log[i].req.r.quoteId);
  }

  lemma QuoteInTime(db: Tables, quoteId: Uuid)
    requires Valid(db) && quoteId in db.quotes
    ensures db.quotes[quoteId].expiresAt == db.quotes[quoteId].createdAt + QUOTE_TTL
  {
    assert ValidQuote(db, db.quotes[quoteId]);
  }

  lemma CommittedEntries(s: State, schedule: seq<Action>, i: nat)
    requires Initial(s) && i < |RunAll(s, schedule).log| && RunAll(s, schedule).log[i].TxnEntry?
    ensures Committed(RunAll(s, schedule).log[i].outcome)
  {
    hide Valid, Faithful;
    RunKeeps(s, schedule);
  }

  lemma SerialExecution(db: Tables, e: LogEntry)
    requires e.TxnEntry? && e.req.ExecuteReq? && Serial(db, e).1 == e.outcome && Committed(e.outcome)
    ensures e.req.r.quoteId in db.quotes && !IsExecuted(db, e.req.r.quoteId)
    ensures e.checkedAt < db.quotes[e.req.r.quoteId].expiresAt
    ensures e.outcome == Completed(ResponseOf(db, e.req.r, e.id))
  {
    hide IsExecuted;
  }
}
