/**
  Deadlock freedom and termination of the interleaved transactions, and the race for one quote.
 */
module Liveness {
  import opened Money
  import opened Tables
  import opened TablesLaws
  import opened Protocol
  import opened ProtocolLaws
  import opened Serializability

  // ---------------------------------------------------------------- deadlock freedom

  /** Where the resource a transaction is about to wait for stands in the common lock order. */
  ghost function WaitLevel(x: Txn): nat {
    match x.pc
    case ClaimKey => 0
    case LockQuote => 1
    case LockQuoteRow(i) => if i < 2 then 2 + CodeRank(LockOrder(x.quote)[i]) else 0
    case LockRow => if x.req.CreditReq? then 2 + CodeRank(x.req.currency) else 0
    case EnsureQuoteRow(_) => 2
    case EnsureRow => 2
    case _ => 0
  }

  /** The statements that can wait. */
  ghost predicate MayWait(pc: Pc) {
    pc == ClaimKey || pc == LockQuote || pc.EnsureQuoteRow? || pc.LockQuoteRow? || pc == EnsureRow || pc == LockRow
  }

  lemma OthersNeverWait(d0: Tables, s: State, t: Uuid)
    requires Inv(d0, s) && t in s.txns && s.txns[t].pc != Done && !MayWait(s.txns[t].pc)
    ensures Step(s, t).Some?
  {
    hide Valid, TxnInv, Step, Faithful, LogMatches, Exclusive, ExecuteWrites, RowsCurrent, GoodPut, GoodCommit;
    InvRunning(d0, s, t);
    match s.txns[t].req
    case ExecuteReq(r) =>
      RunningExecute(s, t, r);
      match s.txns[t].pc {
        case ReadKey => ClaimGood(s, t, r);
        case CheckExecuted => CheckGood(s, t, r);
        case CheckExpiry => CheckGood(s, t, r);
        case CheckFunds => CheckGood(s, t, r);
        case InsertExecution => WriteGood(s, t, r);
        case AppendDebit => WriteGood(s, t, r);
        case AppendCredit => WriteGood(s, t, r);
        case CommitExecution => var _, _ := CommitStepGood(s, t, r);
        case _ => assert false;
      }
    case CreditReq(customer, currency, amount) =>
      if s.txns[t].pc == CommitCredit {
        var _, _ := CommitCreditStepGood(s, t, (customer, currency), amount);
      } else {
        CreditGood(s, t, (customer, currency), amount);
      }
    case CustomerReq =>
      if s.txns[t].pc == CommitCustomer {
        CommitCustomerStep(s, t);
      } else {
        CustomerGood(s, t);
      }
  }

  /** Whoever holds what t waits for does not wait, or waits for something later in the order. */
  lemma HolderIsAhead(d0: Tables, s: State, t: Uuid) returns (u: Uuid)
    requires Inv(d0, s) && t in s.txns && s.txns[t].pc != Done && Step(s, t).None?
    ensures u in s.txns && s.txns[u].pc != Done
    ensures MayWait(s.txns[u].pc) ==> WaitLevel(s.txns[u]) > WaitLevel(s.txns[t])
  {
    hide Valid, TxnInv, Step, Faithful, LogMatches, Exclusive, ExecuteWrites, RowsCurrent, GoodPut, GoodCommit,
         WaitLevel, Progress;
    InvRunning(d0, s, t);
    if !MayWait(s.txns[t].pc) {
      OthersNeverWait(d0, s, t);
      assert false;
    }
    match s.txns[t].req
    case ExecuteReq(r) =>
      u := ExecuteHolder(s, t, r);
    case CreditReq(customer, currency, amount) =>
      u := CreditHolder(s, t, (customer, currency), amount);
    case CustomerReq =>
      RunningCustomer(s, t);
      assert false;
  }

  lemma ExecuteHolder(s: State, t: Uuid, r: ExecuteRequest) returns (u: Uuid)
    requires Running(s, t) && AllTxns(s) && s.txns[t].req == ExecuteReq(r) && MayWait(s.txns[t].pc) && Step(s, t).None?
    ensures u in s.txns && s.txns[u].pc != Done
    ensures MayWait(s.txns[u].pc) ==> WaitLevel(s.txns[u]) > WaitLevel(s.txns[t])
  {
    hide Valid, TxnInv, Step, ExecuteWrites, RowsCurrent, GoodPut, WaitLevel;
    RunningExecute(s, t, r);
    if s.txns[t].pc == ClaimKey {
      ClaimGood(s, t, r);
      u :| u in s.txns && u != t && r.key in s.txns[u].w.keys;
      KeyHolder(s.db, u, s.txns[u], s.txns[t], r.key);
    } else if s.txns[t].pc == LockQuote {
      LockQuoteGood(s, t, r);
      u :| u in s.txns && u != t && s.txns[u].quoteLock == Some(r.quoteId);
      QuoteHolder(s.db, u, s.txns[u], s.txns[t]);
    } else if s.txns[t].pc.EnsureQuoteRow? {
      EnsureGood(s, t, r);
      var a := (s.txns[t].quote.customer, LockOrder(s.txns[t].quote)[s.txns[t].pc.i]);
      u :| u in s.txns && u != t && a in s.txns[u].w.balances;
      RowWriter(s.db, u, s.txns[u], a);
    } else {
      LockRowGood(s, t, r);
      var x := s.txns[t];
      var a := (x.quote.customer, LockOrder(x.quote)[x.pc.i]);
      u :| u in s.txns && u != t && a in s.txns[u].rowLocks;
      RowHolder(s, u, a);
      WaitingRowLevel(x);
    }
  }

  lemma WaitingRowLevel(x: Txn)
    requires x.pc.LockQuoteRow? && x.pc.i < 2
    ensures WaitLevel(x) == 2 + CodeRank(LockOrder(x.quote)[x.pc.i])
  {
  }

  lemma CreditHolder(s: State, t: Uuid, a: Account, amount: Dec) returns (u: Uuid)
    requires Running(s, t) && AllTxns(s) && s.txns[t].req == CreditReq(a.0, a.1, amount) && MayWait(s.txns[t].pc)
             && Step(s, t).None?
    ensures u in s.txns && s.txns[u].pc != Done
    ensures MayWait(s.txns[u].pc) ==> WaitLevel(s.txns[u]) > WaitLevel(s.txns[t])
  {
    hide Valid, TxnInv, Step, ExecuteWrites, RowsCurrent, GoodPut;
    RunningCredit(s, t, a, amount);
    CreditGood(s, t, a, amount);
    if s.txns[t].pc == EnsureRow {
      u :| u in s.txns && u != t && a in s.txns[u].w.balances;
      RowWriter(s.db, u, s.txns[u], a);
    } else {
      u :| u in s.txns && u != t && a in s.txns[u].rowLocks;
      RowHolder(s, u, a);
    }
  }

  lemma KeyHolder(db: Tables, u: Uuid, y: Txn, x: Txn, key: string)
    requires TxnInv(db, u, y) && key in y.w.keys && x.pc == ClaimKey
    ensures y.pc != Done
    ensures MayWait(y.pc) ==> WaitLevel(y) > WaitLevel(x)
  {
  }

  lemma QuoteHolder(db: Tables, u: Uuid, y: Txn, x: Txn)
    requires TxnInv(db, u, y) && y.quoteLock.Some? && x.pc == LockQuote
    ensures y.pc != Done
    ensures MayWait(y.pc) ==> WaitLevel(y) > WaitLevel(x)
  {
  }

  /** Who has written a balance row has every lock it needs, and waits for nobody. */
  lemma RowWriter(db: Tables, u: Uuid, y: Txn, a: Account)
    requires TxnInv(db, u, y) && a in y.w.balances
    ensures y.pc != Done && !MayWait(y.pc)
  {
    hide UpdatedBalance, RoundMoney, RowsCurrent, IsExecuted;
  }

  /** Row locks are taken in the order of the currency codes. */
  lemma RowHolder(s: State, u: Uuid, a: Account)
    requires Valid(s.db) && u in s.txns && TxnInv(s.db, u, s.txns[u]) && a in s.txns[u].rowLocks
    ensures s.txns[u].pc != Done
    ensures MayWait(s.txns[u].pc) ==> WaitLevel(s.txns[u]) > 2 + CodeRank(a.1)
  {
    hide Valid, ExecuteWrites, RowsCurrent;
    var y := s.txns[u];
    if y.req.ExecuteReq? && MayWait(y.pc) {
      QuoteDistinct(s.db, y.req.r.quoteId);
      LockOrderIsBoth(y.quote);
    }
  }

  /** Following the holders leads to a transaction that can take its next statement. */
  lemma SomeoneCanStep(d0: Tables, s: State, t: Uuid) returns (u: Uuid)
    requires Inv(d0, s) && t in s.txns && s.txns[t].pc != Done
    ensures u in s.txns && s.txns[u].pc != Done && Step(s, u).Some?
    decreases MayWait(s.txns[t].pc), 6 - WaitLevel(s.txns[t])
  {
    hide Inv, Step;
    if Step(s, t).Some? {
      u := t;
    } else {
      u := HolderIsAhead(d0, s, t);
      if Step(s, u).None? {
        if !MayWait(s.txns[t].pc) {
          OthersNeverWait(d0, s, t);
        }
        u := SomeoneCanStep(d0, s, u);
      }
    }
  }

  /**
    Deadlock freedom: in every state any schedule reaches, if a transaction is unfinished then
    some unfinished transaction can take its next statement.
   */
  lemma DeadlockFree(s: State, schedule: seq<Action>, t: Uuid)
    requires Initial(s)
    requires t in RunAll(s, schedule).txns && RunAll(s, schedule).txns[t].pc != Done
    ensures exists u :: Enabled(RunAll(s, schedule), Advance(u))
  {
    hide Inv, Step;
    RunKeeps(s, schedule);
    var u := SomeoneCanStep(s.db, RunAll(s, schedule), t);
    assert Enabled(RunAll(s, schedule), Advance(u));
  }

  // ---------------------------------------------------------------- termination

  /** How many statements a transaction has left, at most. */
  ghost function Remaining(x: Txn): nat {
    if x.pc == Done then 0
    else if ExecutePc(x.pc) then 14 - Progress(x.pc)
    else if CreditProgress(x.pc) >= 0 then 6 - CreditProgress(x.pc)
    else match x.pc
         case InsertCustomer => 6
         case OpenRow(i) => if i < 4 then 5 - i else 1
         case _ => 1
  }

  ghost predicate Progresses(s: State, t: Uuid, s': State)
    requires t in s.txns
  {
    && s'.txns.Keys == s.txns.Keys
    && Remaining(s'.txns[t]) < Remaining(s.txns[t])
    && forall u :: u in s.txns && u != t ==> s'.txns[u] == s.txns[u]
  }

  lemma PutProgresses(s: State, t: Uuid, x: Txn)
    requires t in s.txns && Remaining(x) < Remaining(s.txns[t])
    ensures Progresses(s, t, Put(s, t, x))
  {
  }

  lemma ReadsProgress(s: State, t: Uuid, r: ExecuteRequest)
    requires t in s.txns && s.txns[t].pc in {ReadKey, ClaimKey, LockQuote, CheckExecuted, CheckExpiry, CheckFunds}
    requires ExecuteStep(s, t, s.txns[t], r).Some?
    ensures Progresses(s, t, ExecuteStep(s, t, s.txns[t], r).value)
  {
    hide View, IsExecuted, Progresses, KeyPending, QuoteLocked;
    PutProgresses(s, t, ExecuteStep(s, t, s.txns[t], r).value.txns[t]);
  }

  lemma RowsProgress(s: State, t: Uuid, r: ExecuteRequest)
    requires t in s.txns && (s.txns[t].pc.EnsureQuoteRow? || s.txns[t].pc.LockQuoteRow?)
    requires ExecuteStep(s, t, s.txns[t], r).Some?
    ensures Progresses(s, t, ExecuteStep(s, t, s.txns[t], r).value)
  {
    hide View, LockOrder, Progresses, RowPending, RowLocked;
    PutProgresses(s, t, ExecuteStep(s, t, s.txns[t], r).value.txns[t]);
  }

  lemma WritesProgress(s: State, t: Uuid, r: ExecuteRequest)
    requires t in s.txns && s.txns[t].pc in {InsertExecution, AppendDebit, AppendCredit, CommitExecution}
    requires ExecuteStep(s, t, s.txns[t], r).Some?
    ensures Progresses(s, t, ExecuteStep(s, t, s.txns[t], r).value)
  {
    hide View, PayloadOf, UpdatedBalance, IsExecuted, Progresses, ExecutionPending;
    var s' := ExecuteStep(s, t, s.txns[t], r).value;
    if s.txns[t].pc == CommitExecution {
      CommitProgresses(s, s', t);
    } else {
      PutProgresses(s, t, s'.txns[t]);
    }
  }

  lemma ExecuteProgresses(s: State, t: Uuid, r: ExecuteRequest)
    requires t in s.txns && ExecuteStep(s, t, s.txns[t], r).Some?
    ensures Progresses(s, t, ExecuteStep(s, t, s.txns[t], r).value)
  {
    hide Progresses, View, EnsureStep, LockStep;
    if s.txns[t].pc in {ReadKey, ClaimKey, LockQuote, CheckExecuted, CheckExpiry, CheckFunds} {
      ReadsProgress(s, t, r);
    } else if s.txns[t].pc.EnsureQuoteRow? || s.txns[t].pc.LockQuoteRow? {
      RowsProgress(s, t, r);
    } else {
      WritesProgress(s, t, r);
    }
  }

  lemma CommitProgresses(s: State, s': State, t: Uuid)
    requires t in s.txns && s.txns[t].pc in {CommitExecution, CommitCredit, CommitCustomer}
    requires t in s'.txns && s'.txns == s.txns[t := s'.txns[t]] && s'.txns[t].pc == Done
    ensures Progresses(s, t, s')
  {
  }

  lemma CreditProgresses(s: State, t: Uuid, a: Account, amount: Dec)
    requires t in s.txns && CreditStep(s, t, s.txns[t], a, amount).Some?
    ensures Progresses(s, t, CreditStep(s, t, s.txns[t], a, amount).value)
  {
    hide View, UpdatedBalance, RoundMoney, Progresses;
    var x := s.txns[t];
    var s' := CreditStep(s, t, x, a, amount).value;
    if x.pc != CommitCredit {
      PutProgresses(s, t, s'.txns[t]);
    } else {
      CommitProgresses(s, s', t);
    }
  }

  lemma CustomerProgresses(s: State, t: Uuid)
    requires t in s.txns && CustomerStep(s, t, s.txns[t]).Some?
    ensures Progresses(s, t, CustomerStep(s, t, s.txns[t]).value)
  {
    hide View, Progresses;
    var x := s.txns[t];
    var s' := CustomerStep(s, t, x).value;
    if x.pc != CommitCustomer {
      PutProgresses(s, t, s'.txns[t]);
    } else {
      CommitProgresses(s, s', t);
    }
  }

  /** A statement moves its own transaction forward and no other. */
  lemma StepProgress(s: State, t: Uuid)
    requires t in s.txns && s.txns[t].pc != Done && Step(s, t).Some?
    ensures Progresses(s, t, Step(s, t).value)
  {
    hide Progresses, ExecuteStep, CreditStep, CustomerStep;
    match s.txns[t].req
    case ExecuteReq(r) => ExecuteProgresses(s, t, r);
    case CreditReq(customer, currency, amount) => CreditProgresses(s, t, (customer, currency), amount);
    case CustomerReq => CustomerProgresses(s, t);
  }

  /** The statements all transactions have left. */
  ghost function Work(txns: map<Uuid, Txn>): nat {
    if txns == map[] then 0
    else
      var t :| t in txns;
      Remaining(txns[t]) + Work(txns - {t})
  }

  lemma {:induction false} WorkSplit(txns: map<Uuid, Txn>, t: Uuid)
    requires t in txns
    ensures Work(txns) == Remaining(txns[t]) + Work(txns - {t})
    decreases |txns|
  {
    hide Remaining;
    var u :| u in txns && Work(txns) == Remaining(txns[u]) + Work(txns - {u});
    if u != t {
      WorkSplit(txns - {u}, t);
      WorkSplit(txns - {t}, u);
      assert txns - {u} - {t} == txns - {t} - {u};
    }
  }

  /** Every statement taken, and every fault, leaves less work. */
  lemma WorkDecreases(s: State, a: Action)
    requires Enabled(s, a) && (a.Advance? || a.Fail?)
    ensures Work(Apply(s, a).txns) < Work(s.txns)
  {
    hide Remaining, Step;
    var t, s' := a.t, Apply(s, a);
    if a.Advance? {
      StepProgress(s, t);
    } else {
      FailProgress(s, t);
    }
    WorkSplit(s.txns, t);
    WorkSplit(s'.txns, t);
    assert s'.txns - {t} == s.txns - {t};
  }

  lemma FailProgress(s: State, t: Uuid)
    requires t in s.txns && s.txns[t].pc != Done
    ensures Progresses(s, t, Abort(s, t, s.txns[t], Fault))
  {
  }

  /** A schedule that only lets transactions run, or fail, each action being possible. */
  ghost predicate OnlyRuns(s: State, schedule: seq<Action>) {
    forall i :: 0 <= i < |schedule| ==>
      (schedule[i].Advance? || schedule[i].Fail?) && Enabled(RunAll(s, schedule[..i]), schedule[i])
  }

  /** Termination: no schedule runs longer than the work there was. */
  lemma {:induction false} SchedulesAreFinite(s: State, schedule: seq<Action>)
    requires OnlyRuns(s, schedule)
    ensures |schedule| + Work(RunAll(s, schedule).txns) <= Work(s.txns)
  {
    hide Enabled, Apply, Work;
    if schedule != [] {
      var n := |schedule| - 1;
      OnlyRunsPrefix(s, schedule, n);
      SchedulesAreFinite(s, schedule[..n]);
      WorkDecreases(RunAll(s, schedule[..n]), schedule[n]);
    }
  }

  lemma OnlyRunsPrefix(s: State, schedule: seq<Action>, n: nat)
    requires OnlyRuns(s, schedule) && n <= |schedule|
    ensures OnlyRuns(s, schedule[..n])
  {
    hide Enabled, RunAll;
    forall i | 0 <= i < n
      ensures (schedule[i].Advance? || schedule[i].Fail?) && Enabled(RunAll(s, schedule[..n][..i]), schedule[i])
    {
      assert schedule[..n][..i] == schedule[..i];
    }
  }

  ghost predicate AllDone(s: State) {
    forall t :: t in s.txns ==> s.txns[t].pc == Done
  }

  lemma CanFinishFrom(d0: Tables, s: State) returns (schedule: seq<Action>)
    requires Inv(d0, s)
    ensures OnlyRuns(s, schedule) && (forall a <- schedule :: a.Advance?)
    ensures AllDone(RunAll(s, schedule)) && Inv(d0, RunAll(s, schedule))
  {
    hide Inv, Apply, Work, Step, Enabled;
    schedule := [];
    while !AllDone(RunAll(s, schedule))
      invariant OnlyRuns(s, schedule) && (forall a <- schedule :: a.Advance?)
      invariant Inv(d0, RunAll(s, schedule))
      decreases Work(RunAll(s, schedule).txns)
    {
      var now := RunAll(s, schedule);
      var t :| t in now.txns && now.txns[t].pc != Done;
      var u := SomeoneCanStep(d0, now, t);
      assert Enabled(now, Advance(u)) by { AdvanceEnabled(now, u); }
      ApplyKeeps(d0, now, Advance(u));
      WorkDecreases(now, Advance(u));
      RunMore(s, schedule, Advance(u));
      schedule := schedule + [Advance(u)];
    }
  }

  lemma AdvanceEnabled(s: State, u: Uuid)
    requires u in s.txns && s.txns[u].pc != Done && Step(s, u).Some?
    ensures Enabled(s, Advance(u))
  {
  }

  lemma RunMore(s: State, schedule: seq<Action>, a: Action)
    requires OnlyRuns(s, schedule) && a.Advance? && Enabled(RunAll(s, schedule), a)
    ensures RunAll(s, schedule + [a]) == Apply(RunAll(s, schedule), a)
    ensures OnlyRuns(s, schedule + [a])
  {
    hide Enabled, Apply;
    var more := schedule + [a];
    assert more[..|schedule|] == schedule;
    forall i | 0 <= i < |more|
      ensures (more[i].Advance? || more[i].Fail?) && Enabled(RunAll(s, more[..i]), more[i])
    {
      if i < |schedule| {
        assert more[..i] == schedule[..i];
      }
    }
  }

  /** From every reachable state the transactions can all be run to their end, without any fault. */
  lemma CanFinish(s: State, schedule: seq<Action>) returns (more: seq<Action>)
    requires Initial(s)
    ensures OnlyRuns(RunAll(s, schedule), more) && (forall a <- more :: a.Advance?)
    ensures AllDone(RunAll(RunAll(s, schedule), more))
  {
    hide Inv, Apply, Enabled;
    RunKeeps(s, schedule);
    more := CanFinishFrom(s.db, RunAll(s, schedule));
  }
}
