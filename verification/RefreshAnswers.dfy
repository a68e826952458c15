/**
  The times and outcomes of concurrent refreshes: every recorded time is the clock reading of its
  own attempt, every outcome the one its fetch deserves, and no attempt waits for ever.
 */
module RefreshAnswers {
  import opened Money
  import opened Pricing
  import opened RateRefresh
  import opened RateRefreshLaws
  import opened RefreshProtocol

  /** The state before action n. */
  ghost function Before(s: State, schedule: seq<Action>, n: nat, cfg: Settings): State
    requires n <= |schedule|
  {
    RunAll(s, schedule[..n], cfg)
  }

  /** Action n was attempt id's statement pc. */
  ghost predicate Took(s: State, schedule: seq<Action>, n: nat, id: Uuid, pc: Pc, cfg: Settings) {
    && n < |schedule| && schedule[n] == Advance(id)
    && Enabled(Before(s, schedule, n, cfg), Advance(id), cfg)
    && Before(s, schedule, n, cfg).txns[id].pc == pc
  }

  ghost predicate Struck(s: State, schedule: seq<Action>, n: nat, id: Uuid, cfg: Settings) {
    n < |schedule| && schedule[n] == Fail(id) && Enabled(Before(s, schedule, n, cfg), Fail(id), cfg)
  }

  /** Action n was id's reading of the clock, and `at` is what it read. */
  ghost predicate ReadAt(s: State, schedule: seq<Action>, n: nat, id: Uuid, at: int, cfg: Settings) {
    Took(s, schedule, n, id, ReadClock, cfg) && Before(s, schedule, n, cfg).now == at
  }

  lemma Earlier(s: State, schedule: seq<Action>, m: nat, n: nat, cfg: Settings)
    requires m <= |schedule| && n <= m
    ensures Before(s, schedule[..m], n, cfg) == Before(s, schedule, n, cfg)
  {
    assert schedule[..m][..n] == schedule[..n];
  }

  lemma ReadEarlier(s: State, schedule: seq<Action>, m: nat, n: nat, id: Uuid, at: int, cfg: Settings)
    requires m <= |schedule| && ReadAt(s, schedule[..m], n, id, at, cfg)
    ensures ReadAt(s, schedule, n, id, at, cfg)
  {
    hide Enabled, RunAll;
    Earlier(s, schedule, m, n, cfg);
  }

  lemma StruckEarlier(s: State, schedule: seq<Action>, m: nat, n: nat, id: Uuid, cfg: Settings)
    requires m <= |schedule| && Struck(s, schedule[..m], n, id, cfg)
    ensures Struck(s, schedule, n, id, cfg)
  {
    hide Enabled, RunAll;
    Earlier(s, schedule, m, n, cfg);
  }

  /** The clock has been read. */
  ghost predicate Timed(pc: Pc) {
    pc == FetchRates || pc.StorePair? || pc == CommitRefresh || pc.InsertFailure?
  }

  /** The outcome a fetch deserves, whatever the tables hold. */
  ghost function Deserved(x: Txn, cfg: Settings): RefreshOutcome {
    RefreshTables(NO_RATES, 0, x.fetch, 0, cfg).1
  }

  lemma OutcomeOfFetch(t: RateTables, id: Uuid, x: Txn, started: int, cfg: Settings)
    ensures RefreshTables(t, id, x.fetch, started, cfg).1 == Deserved(x, cfg)
  {
    hide RateRows, RecordSuccess, RecordFailure;
  }

  /** One statement: the clock is read once, and what ends an attempt is what its fetch deserves. */
  lemma StepTimes(s: State, id: Uuid, cfg: Settings)
    requires id in s.txns && TxnInv(s, id, s.txns[id], cfg) && Step(s, id, cfg).Some?
    ensures id in Step(s, id, cfg).value.txns
    ensures var x, x' := s.txns[id], Step(s, id, cfg).value.txns[id];
            && x'.fetch == x.fetch
            && (Timed(x'.pc) || (x'.pc == Done && x.pc != FetchRates) ==>
                  if x.pc == ReadClock then x'.started == s.now else Timed(x.pc) && x'.started == x.started)
            && (x'.pc == Done ==> x'.outcome == Some(Deserved(x, cfg)))
  {
    hide RateRows, StageRow, View, BookNotAfter, StoreRows, Staged;
    var x := s.txns[id];
    if x.pc == CommitRefresh {
      StagedRows(id, x, cfg);
    }
  }

  lemma StagedRows(id: Uuid, x: Txn, cfg: Settings)
    requires Staged(id, x, 3, cfg)
    ensures x.fetch.Fetched? && RateRows(x.fetch.rates, CANONICAL_PAIRS) == Rows(x.rows)
  {
  }

  lemma OthersUntouched(s: State, u: Uuid, id: Uuid, cfg: Settings)
    requires u in s.txns && Step(s, u, cfg).Some? && id != u && id in Step(s, u, cfg).value.txns
    ensures id in s.txns && Step(s, u, cfg).value.txns[id] == s.txns[id]
  {
    hide RateRows, StageRow, View;
  }

  /** What the last action of a schedule did to one attempt. */
  lemma LastAction(s: State, schedule: seq<Action>, id: Uuid, cfg: Settings)
    requires schedule != [] && id in RunAll(s, schedule, cfg).txns
    ensures var n := |schedule| - 1;
            var was, x := Before(s, schedule, n, cfg), RunAll(s, schedule, cfg).txns[id];
            || (id in was.txns && x == was.txns[id])
            || (id !in was.txns && x.pc == Acquire)
            || (Struck(s, schedule, n, id, cfg) && x.pc == Done && x.outcome == Some(Crashed))
            || (schedule[n] == Advance(id) && Enabled(was, Advance(id), cfg)
                && Step(was, id, cfg).value == RunAll(s, schedule, cfg))
  {
    hide Step;
    var was, a := Before(s, schedule, |schedule| - 1, cfg), schedule[|schedule| - 1];
    if Enabled(was, a, cfg) && a.Advance? && a.id != id {
      OthersUntouched(was, a.id, id, cfg);
    }
  }

  lemma InvAt(s: State, schedule: seq<Action>, n: nat, id: Uuid, cfg: Settings)
    requires Initial(s) && n <= |schedule|
    ensures var was := Before(s, schedule, n, cfg);
            && Inv(s.t, was, cfg) && AllTxns(was, cfg)
            && (id in was.txns ==> TxnInv(was, id, was.txns[id], cfg))
  {
    hide RatesValid, TxnInv, Faithful, LogMatches;
    RefreshesSerialize(s, schedule[..n], cfg);
  }

  lemma NothingBegun(s: State, cfg: Settings)
    requires Initial(s)
    ensures RunAll(s, [], cfg).txns == map[] && RunAll(s, [], cfg).log == []
  {
  }

  /** The time an attempt carries is what it read from the clock. */
  lemma {:induction false} TimesAreReal(s: State, schedule: seq<Action>, id: Uuid, cfg: Settings)
    requires Initial(s) && id in RunAll(s, schedule, cfg).txns && Timed(RunAll(s, schedule, cfg).txns[id].pc)
    ensures exists n :: ReadAt(s, schedule, n, id, RunAll(s, schedule, cfg).txns[id].started, cfg)
  {
    hide Initial, Apply, Step, Struck;
    if schedule == [] {
      NothingBegun(s, cfg);
    } else {
      var n := |schedule| - 1;
      LastAction(s, schedule, id, cfg);
      var was, x := Before(s, schedule, n, cfg), RunAll(s, schedule, cfg).txns[id];
      if id in was.txns && x == was.txns[id] {
        TimesAreReal(s, schedule[..n], id, cfg);
        var m: nat :| ReadAt(s, schedule[..n], m, id, x.started, cfg);
        ReadEarlier(s, schedule, n, m, id, x.started, cfg);
      } else {
        InvAt(s, schedule, n, id, cfg);
        StepTimes(was, id, cfg);
        if was.txns[id].pc == ReadClock {
          assert ReadAt(s, schedule, n, id, x.started, cfg);
        } else {
          TimesAreReal(s, schedule[..n], id, cfg);
          var m: nat :| ReadAt(s, schedule[..n], m, id, x.started, cfg);
          ReadEarlier(s, schedule, n, m, id, x.started, cfg);
        }
      }
    }
  }

  /** An attempt that has ended was struck by a fault, or ended as its fetch deserves. */
  lemma {:induction false} OutcomesAreDeserved(s: State, schedule: seq<Action>, id: Uuid, cfg: Settings)
    requires Initial(s) && id in RunAll(s, schedule, cfg).txns && RunAll(s, schedule, cfg).txns[id].pc == Done
    ensures var x := RunAll(s, schedule, cfg).txns[id];
            || (x.outcome == Some(Crashed) && exists n :: Struck(s, schedule, n, id, cfg))
            || x.outcome == Some(Deserved(x, cfg))
  {
    hide Initial, Apply, Step, Struck, Deserved, Inv, AllTxns, TxnInv, Timed;
    if schedule == [] {
      NothingBegun(s, cfg);
    } else {
      var n := |schedule| - 1;
      LastAction(s, schedule, id, cfg);
      var was, x := Before(s, schedule, n, cfg), RunAll(s, schedule, cfg).txns[id];
      if id in was.txns && x == was.txns[id] {
        OutcomesAreDeserved(s, schedule[..n], id, cfg);
        if m: nat :| Struck(s, schedule[..n], m, id, cfg) {
          StruckEarlier(s, schedule, n, m, id, cfg);
        }
      } else if x.outcome != Some(Crashed) || !Struck(s, schedule, n, id, cfg) {
        InvAt(s, schedule, n, id, cfg);
        StepTimes(was, id, cfg);
        SameFetch(was.txns[id], x, cfg);
      }
    }
  }

  lemma SameFetch(x: Txn, y: Txn, cfg: Settings)
    requires x.fetch == y.fetch
    ensures Deserved(x, cfg) == Deserved(y, cfg)
  {
  }

  // ---------------------------------------------------------------- the log

  /** Action n was the commit that made log entry i. */
  ghost predicate LoggedAt(s: State, schedule: seq<Action>, n: nat, i: nat, e: LogEntry, cfg: Settings) {
    && n < |schedule| && schedule[n] == Advance(e.id)
    && var was := Before(s, schedule, n, cfg);
       && Enabled(was, Advance(e.id), cfg) && |was.log| == i
       && Timed(was.txns[e.id].pc) && was.txns[e.id].started == e.started
  }

  lemma StepLogs(s: State, id: Uuid, cfg: Settings)
    requires id in s.txns && Step(s, id, cfg).Some?
    ensures var s', x := Step(s, id, cfg).value, s.txns[id];
            || s'.log == s.log
            || (&& Timed(x.pc) && |s'.log| == |s.log| + 1 && s'.log[..|s.log|] == s.log
                && s'.log[|s.log|].id == id && s'.log[|s.log|].started == x.started)
  {
    hide RateRows, StageRow, View;
  }

  lemma ActionLogs(s: State, schedule: seq<Action>, cfg: Settings)
    requires schedule != []
    ensures var n := |schedule| - 1;
            var was, log := Before(s, schedule, n, cfg), RunAll(s, schedule, cfg).log;
            || log == was.log
            || (&& |log| == |was.log| + 1 && log[..|was.log|] == was.log
                && LoggedAt(s, schedule, n, |was.log|, log[|was.log|], cfg))
  {
    hide Step;
    var was, a := Before(s, schedule, |schedule| - 1, cfg), schedule[|schedule| - 1];
    if Enabled(was, a, cfg) && a.Advance? {
      StepLogs(was, a.id, cfg);
    }
  }

  lemma LoggedEarlier(s: State, schedule: seq<Action>, m: nat, n: nat, i: nat, e: LogEntry, cfg: Settings)
    requires m <= |schedule| && LoggedAt(s, schedule[..m], n, i, e, cfg)
    ensures LoggedAt(s, schedule, n, i, e, cfg)
  {
    hide Enabled, RunAll;
    Earlier(s, schedule, m, n, cfg);
  }

  lemma {:induction false} CommitsAreReal(s: State, schedule: seq<Action>, i: nat, cfg: Settings)
    requires Initial(s) && i < |RunAll(s, schedule, cfg).log|
    ensures exists n :: LoggedAt(s, schedule, n, i, RunAll(s, schedule, cfg).log[i], cfg)
  {
    hide Initial, Apply, LoggedAt;
    if schedule == [] {
      NothingBegun(s, cfg);
    } else {
      var n := |schedule| - 1;
      var log := RunAll(s, schedule, cfg).log;
      ActionLogs(s, schedule, cfg);
      if i < |Before(s, schedule, n, cfg).log| {
        assert log[i] == Before(s, schedule, n, cfg).log[i];
        CommitsAreReal(s, schedule[..n], i, cfg);
        var m: nat :| LoggedAt(s, schedule[..n], m, i, log[i], cfg);
        LoggedEarlier(s, schedule, n, m, i, log[i], cfg);
      }
    }
  }

  /** Every prefix of the log is the log of a reachable state, so a valid book before each entry. */
  lemma {:induction false} PrefixValid(s: State, schedule: seq<Action>, i: nat, cfg: Settings)
    requires Initial(s) && i < |RunAll(s, schedule, cfg).log|
    ensures var before := SerialRun(s.t, RunAll(s, schedule, cfg).log[..i], cfg);
            RatesValid(before) && RunAll(s, schedule, cfg).log[i].id !in before.refreshes
  {
    hide Initial, Apply, RatesValid, LoggedAt, SerialRun;
    if schedule == [] {
      NothingBegun(s, cfg);
    } else {
      var n := |schedule| - 1;
      var was, log := Before(s, schedule, n, cfg), RunAll(s, schedule, cfg).log;
      ActionLogs(s, schedule, cfg);
      if i < |was.log| {
        assert log[i] == was.log[i] && log[..i] == was.log[..i];
        PrefixValid(s, schedule[..n], i, cfg);
      } else {
        LastLogged(s, schedule, cfg);
      }
    }
  }

  lemma LastLogged(s: State, schedule: seq<Action>, cfg: Settings)
    requires Initial(s) && schedule != []
    requires var was := Before(s, schedule, |schedule| - 1, cfg);
             |RunAll(s, schedule, cfg).log| > |was.log|
    ensures var was, log := Before(s, schedule, |schedule| - 1, cfg), RunAll(s, schedule, cfg).log;
            && |log| == |was.log| + 1
            && RatesValid(SerialRun(s.t, log[..|was.log|], cfg))
            && log[|was.log|].id !in SerialRun(s.t, log[..|was.log|], cfg).refreshes
  {
    hide Initial, Apply, RatesValid, SerialRun, RunAll, Enabled, LogMatches;
    var n := |schedule| - 1;
    var was, log := Before(s, schedule, n, cfg), RunAll(s, schedule, cfg).log;
    ActionLogs(s, schedule, cfg);
    var id := log[|was.log|].id;
    InvAt(s, schedule, n, id, cfg);
    InTables(s.t, was, cfg);
    EnabledRuns(was, id, cfg);
  }

  lemma InTables(t0: RateTables, s: State, cfg: Settings)
    requires Inv(t0, s, cfg)
    ensures RatesValid(s.t) && s.t == SerialRun(t0, s.log, cfg)
  {
  }

  lemma EnabledRuns(s: State, id: Uuid, cfg: Settings)
    requires Enabled(s, Advance(id), cfg) && AllTxns(s, cfg)
    ensures id in s.txns && s.txns[id].pc != Done && id !in s.t.refreshes
  {
    hide Staged, BookNotAfter;
  }

  /**
    The clock of a refresh. Every committed attempt carries what it read from the clock under the
    lock, at an action before its commit; and a successful one leaves the book at that reading.
   */
  lemma RefreshTimesAreReal(s: State, schedule: seq<Action>, i: nat, cfg: Settings) returns (m: nat, n: nat)
    requires Initial(s) && i < |RunAll(s, schedule, cfg).log|
    ensures var log := RunAll(s, schedule, cfg).log;
            && m < n
            && ReadAt(s, schedule, m, log[i].id, log[i].started, cfg)
            && LoggedAt(s, schedule, n, i, log[i], cfg)
            && (log[i].outcome == Refreshed ==>
                  BookTime(SerialRun(s.t, log[..i + 1], cfg)) == Some(log[i].started))
  {
    hide Initial, ReadAt, RatesValid, Latest, RefreshTables, LogMatches, AllTxns, RunAll;
    var log := RunAll(s, schedule, cfg).log;
    var e := log[i];
    CommitsAreReal(s, schedule, i, cfg);
    n :| LoggedAt(s, schedule, n, i, e, cfg);
    EnabledHas(Before(s, schedule, n, cfg), e.id, cfg);
    TimesAreReal(s, schedule[..n], e.id, cfg);
    m :| ReadAt(s, schedule[..n], m, e.id, e.started, cfg);
    assert m < n by { ReadWithin(s, schedule[..n], m, e.id, e.started, cfg); }
    ReadEarlier(s, schedule, n, m, e.id, e.started, cfg);
    if e.outcome == Refreshed {
      PrefixValid(s, schedule, i, cfg);
      RefreshesSerialize(s, schedule, cfg);
      assert log[..i + 1][..i] == log[..i];
      RefreshedTime(SerialRun(s.t, log[..i], cfg), e.id, e.fetch, e.started, cfg);
    }
  }

  lemma EnabledHas(s: State, id: Uuid, cfg: Settings)
    requires Enabled(s, Advance(id), cfg)
    ensures id in s.txns
  {
  }

  lemma ReadWithin(s: State, schedule: seq<Action>, m: nat, id: Uuid, at: int, cfg: Settings)
    requires ReadAt(s, schedule, m, id, at, cfg)
    ensures m < |schedule|
  {
  }

  // ---------------------------------------------------------------- the lock

  /**
    The advisory lock is held from its statement to the commit or the rollback, by one attempt at a
    time, and no longer: an attempt about to record its failure has released it.
   */
  lemma LockSpan(s: State, schedule: seq<Action>, id: Uuid, cfg: Settings)
    requires Initial(s) && id in RunAll(s, schedule, cfg).txns
    ensures RunAll(s, schedule, cfg).lock == Some(id)
       <==> var pc := RunAll(s, schedule, cfg).txns[id].pc;
            pc != Acquire && !pc.InsertFailure? && pc != Done
  {
    hide Initial, RunAll, Inv, AllTxns, Staged, BookNotAfter, RateRows;
    assert schedule[..|schedule|] == schedule;
    InvAt(s, schedule, |schedule|, id, cfg);
  }

  // ---------------------------------------------------------------- progress

  /** In every reachable state with an attempt under way, some attempt can take its next statement. */
  lemma RefreshesNeverStick(s: State, schedule: seq<Action>, id: Uuid, cfg: Settings)
    requires Initial(s) && id in RunAll(s, schedule, cfg).txns && RunAll(s, schedule, cfg).txns[id].pc != Done
    ensures exists u :: Enabled(RunAll(s, schedule, cfg), Advance(u), cfg)
                        && RunAll(s, schedule, cfg).txns[u].pc != Done
  {
    hide Initial, RunAll, Inv, TxnInv, Step;
    assert schedule[..|schedule|] == schedule;
    InvAt(s, schedule, |schedule|, id, cfg);
    var now := RunAll(s, schedule, cfg);
    var u := if now.lock.Some? then now.lock.value else id;
    InvAt(s, schedule, |schedule|, u, cfg);
    OnlyTheLockWaits(now, u, cfg);
    assert Enabled(now, Advance(u), cfg);
  }

  lemma OnlyTheLockWaits(s: State, id: Uuid, cfg: Settings)
    requires id in s.txns && TxnInv(s, id, s.txns[id], cfg)
    requires s.lock == Some(id) || (s.lock == None && s.txns[id].pc != Done)
    ensures Step(s, id, cfg).Some? && s.txns[id].pc != Done
  {
    hide RateRows, StageRow, View, BookNotAfter, Staged;
    var x := s.txns[id];
    if x.pc.StorePair? {
      StagedThree(id, x, x.pc.i, cfg);
    }
  }
}
