/**
  Concurrent refreshes. The advisory lock is taken first and the clock is read under it, so
  successful refreshes commit in the order of their timestamps; a failed one has released the
  lock before it records its failure.
 */
module RefreshProtocol {
  import opened Money
  import opened Pricing
  import opened RateRefresh
  import opened RateRefreshLaws

  datatype Pc =
    | Acquire | ReadClock | FetchRates | StorePair(i: nat) | CommitRefresh
    | InsertFailure(error: RefreshError) | Done

  datatype Writes = Writes(refreshes: map<Uuid, Refresh>, snapshots: seq<Snapshot>, current: Rates)

  const NO_WRITES: Writes := Writes(map[], [], map[])

  /** One refresh attempt; `fetch` is what the provider will answer it. */
  datatype Txn = Txn(
    pc: Pc, fetch: Fetch, started: int, rows: seq<RateRow>, w: Writes, outcome: Option<RefreshOutcome>)

  datatype LogEntry = LogEntry(id: Uuid, fetch: Fetch, started: int, outcome: RefreshOutcome)

  datatype State = State(t: RateTables, lock: Option<Uuid>, txns: map<Uuid, Txn>, now: int, log: seq<LogEntry>)

  function View(t: RateTables, w: Writes): RateTables {
    RateTables(t.refreshes + w.refreshes, t.snapshots + w.snapshots, t.current + w.current)
  }

  function Put(s: State, id: Uuid, x: Txn): State {
    s.(txns := s.txns[id := x])
  }

  /** Roll back: the writes are gone and the advisory lock is released. */
  function Release(s: State, id: Uuid, x: Txn, pc: Pc): State {
    Put(s.(lock := if s.lock == Some(id) then None else s.lock), id, x.(pc := pc, w := NO_WRITES))
  }

  /** The end of an attempt whose transaction is rolled back. */
  function Crash(s: State, id: Uuid, x: Txn): State {
    Release(s, id, x.(outcome := Some(Crashed)), Done)
  }

  /** Commit a transaction's writes and log the attempt. */
  function Commit(s: State, id: Uuid, x: Txn, w: Writes, outcome: RefreshOutcome): State {
    Release(s.(t := View(s.t, w), log := s.log + [LogEntry(id, x.fetch, x.started, outcome)]),
            id, x.(outcome := Some(outcome)), Done)
  }

  function StageRow(w: Writes, id: Uuid, position: nat, row: RateRow, at: int, cfg: Settings): Writes {
    var snapshotId := SnapshotId(id, position);
    w.(snapshots := w.snapshots + [Snapshot(snapshotId, id, row.base, row.quote, row.mid, at)],
       current := w.current[(row.base, row.quote) :=
                    CurrentRate(row.base, row.quote, row.mid, cfg.buyBps, cfg.sellBps, snapshotId, at)])
  }

  /** The next statement of one refresh; None while it waits for the lock. */
  function Step(s: State, id: Uuid, cfg: Settings): Option<State>
    requires id in s.txns
  {
    var x := s.txns[id];
    match x.pc
    case Acquire =>
      if s.lock.Some? then None else Some(Put(s.(lock := Some(id)), id, x.(pc := ReadClock)))
    case ReadClock => Some(Put(s, id, x.(pc := FetchRates, started := s.now)))
    case FetchRates =>
      (match x.fetch
       case Unusable(error) => Some(Release(s, id, x, InsertFailure(error)))
       case Fetched(p) =>
         match RateRows(p, CANONICAL_PAIRS)
         case Unrepresentable => Some(Release(s, id, x, InsertFailure(UpstreamBadResponse)))
         case Overflowing => Some(Crash(s, id, x))
         case Rows(rows) =>
           Some(Put(s, id, x.(pc := StorePair(0), rows := rows,
                              w := NO_WRITES.(refreshes := map[id := Completed(x.started, |rows|)])))))
    case StorePair(i) =>
      if i < |x.rows| then
        Some(Put(s, id, x.(pc := if i + 1 < |x.rows| then StorePair(i + 1) else CommitRefresh,
                           w := StageRow(x.w, id, i, x.rows[i], x.started, cfg))))
      else None
    case CommitRefresh => Some(Commit(s, id, x, x.w, Refreshed))
    case InsertFailure(error) =>
      Some(Commit(s, id, x, NO_WRITES.(refreshes := map[id := Failed(x.started, error)]), Refused(error)))
    case Done => None
  }

  datatype Action = Begin(id: Uuid, fetch: Fetch) | Advance(id: Uuid) | Fail(id: Uuid) | Tick(now: int)

  ghost predicate Enabled(s: State, a: Action, cfg: Settings) {
    match a
    case Begin(id, _) => id !in s.txns && id !in s.t.refreshes
    case Advance(id) => id in s.txns && Step(s, id, cfg).Some?
    case Fail(id) => id in s.txns && s.txns[id].pc != Done
    case Tick(now) => s.now <= now
  }

  ghost function Apply(s: State, a: Action, cfg: Settings): State
    requires Enabled(s, a, cfg)
  {
    match a
    case Begin(id, fetch) => Put(s, id, Txn(Acquire, fetch, 0, [], NO_WRITES, None))
    case Advance(id) => Step(s, id, cfg).value
    case Fail(id) => Crash(s, id, s.txns[id])
    case Tick(now) => s.(now := now)
  }

  ghost function RunAll(s: State, schedule: seq<Action>, cfg: Settings): State {
    if schedule == [] then s
    else
      var before := RunAll(s, schedule[..|schedule| - 1], cfg);
      var a := schedule[|schedule| - 1];
      if Enabled(before, a, cfg) then Apply(before, a, cfg) else before
  }

  /** A committed attempt, run alone. */
  function Serial(t: RateTables, e: LogEntry, cfg: Settings): (RateTables, RefreshOutcome) {
    RefreshTables(t, e.id, e.fetch, e.started, cfg)
  }

  function SerialRun(t: RateTables, log: seq<LogEntry>, cfg: Settings): RateTables {
    if log == [] then t
    else Serial(SerialRun(t, log[..|log| - 1], cfg), log[|log| - 1], cfg).0
  }

  // ---------------------------------------------------------------- the invariant

  ghost predicate HoldsLock(pc: Pc) {
    pc == ReadClock || pc == FetchRates || pc.StorePair? || pc == CommitRefresh
  }

  /** On top of any tables, the staged writes are the first n rows of the serial refresh. */
  ghost predicate Staged(id: Uuid, x: Txn, n: nat, cfg: Settings) {
    && n <= |x.rows| == 3 && x.w.refreshes.Keys == {id}
    && x.fetch.Fetched? && RateRows(x.fetch.rates, CANONICAL_PAIRS) == Rows(x.rows)
    && forall t: RateTables :: View(t, x.w)
         == StoreRows(t.(refreshes := t.refreshes[id := Completed(x.started, 3)]), id, x.rows[..n], x.started, cfg)
  }

  ghost predicate TxnInv(s: State, id: Uuid, x: Txn, cfg: Settings) {
    && (HoldsLock(x.pc) <==> s.lock == Some(id))
    && (x.pc != Done ==> id !in s.t.refreshes)
    && (x.pc == Done <==> x.outcome.Some?)
    && (x.pc == FetchRates || x.pc.StorePair? || x.pc == CommitRefresh ==> BookNotAfter(s.t, x.started))
    && (x.pc.StorePair? || x.pc == CommitRefresh || x.pc.InsertFailure? || x.pc == FetchRates ==> x.started <= s.now)
    && (x.pc.StorePair? ==> x.pc.i < 3 && Staged(id, x, x.pc.i, cfg))
    && (x.pc == CommitRefresh ==> Staged(id, x, 3, cfg))
    && (x.pc.InsertFailure? ==>
          x.fetch == Unusable(x.pc.error)
          || (x.fetch.Fetched? && RateRows(x.fetch.rates, CANONICAL_PAIRS).Unrepresentable?
              && x.pc.error == UpstreamBadResponse))
  }

  ghost predicate AllTxns(s: State, cfg: Settings) {
    && (s.lock.Some? ==> s.lock.value in s.txns)
    && forall id :: id in s.txns ==> TxnInv(s, id, s.txns[id], cfg)
  }

  /** The tables, and the outcome of every attempt, are those of the serial run of the log. */
  ghost predicate Faithful(t0: RateTables, t: RateTables, log: seq<LogEntry>, cfg: Settings) {
    && t == SerialRun(t0, log, cfg)
    && forall i :: 0 <= i < |log| ==> Serial(SerialRun(t0, log[..i], cfg), log[i], cfg).1 == log[i].outcome
  }

  ghost predicate Ended(x: Txn) {
    x.pc == Done && x.outcome.Some? && x.outcome.value != Crashed
  }

  /** The log lists each committed attempt once, with its fetch, its clock reading and its outcome. */
  ghost predicate LogMatches(s: State) {
    && (forall i :: 0 <= i < |s.log| ==>
          var e := s.log[i];
          && e.id in s.txns && Ended(s.txns[e.id])
          && s.txns[e.id].fetch == e.fetch && s.txns[e.id].started == e.started
          && s.txns[e.id].outcome == Some(e.outcome))
    && (forall i, j :: 0 <= i < j < |s.log| ==> s.log[i].id != s.log[j].id)
    && (forall id :: id in s.txns && Ended(s.txns[id]) ==> exists i :: 0 <= i < |s.log| && s.log[i].id == id)
  }

  ghost predicate Inv(t0: RateTables, s: State, cfg: Settings) {
    && RatesValid(s.t) && BookNotAfter(s.t, s.now)
    && Faithful(t0, s.t, s.log, cfg) && LogMatches(s)
    && AllTxns(s, cfg)
  }

  ghost predicate Initial(s: State) {
    && RatesValid(s.t) && BookNotAfter(s.t, s.now)
    && s.lock == None && s.txns == map[] && s.log == []
  }

  // ---------------------------------------------------------------- every action keeps it

  lemma StageIsStore(t: RateTables, w: Writes, id: Uuid, position: nat, row: RateRow, at: int, cfg: Settings)
    ensures View(t, StageRow(w, id, position, row, at, cfg)) == StoreRow(View(t, w), id, position, row, at, cfg)
  {
    var w' := StageRow(w, id, position, row, at, cfg);
    var u := StoreRow(View(t, w), id, position, row, at, cfg);
    assert View(t, w').snapshots == u.snapshots;
    assert View(t, w').current == u.current;
  }

  lemma StagedNext(id: Uuid, x: Txn, n: nat, cfg: Settings, pc: Pc)
    requires Staged(id, x, n, cfg) && n < 3
    ensures Staged(id, x.(pc := pc, w := StageRow(x.w, id, n, x.rows[n], x.started, cfg)), n + 1, cfg)
  {
    hide View, StoreRow;
    var x' := x.(pc := pc, w := StageRow(x.w, id, n, x.rows[n], x.started, cfg));
    forall t: RateTables
      ensures View(t, x'.w)
           == StoreRows(t.(refreshes := t.refreshes[id := Completed(x.started, 3)]), id,
                        x.rows[..n + 1], x.started, cfg)
    {
      StageIsStore(t, x.w, id, n, x.rows[n], x.started, cfg);
      assert x.rows[..n + 1][..n] == x.rows[..n];
    }
  }

  lemma StagedFirst(id: Uuid, x: Txn, cfg: Settings)
    requires x.fetch.Fetched? && RateRows(x.fetch.rates, CANONICAL_PAIRS) == Rows(x.rows)
    requires x.w == NO_WRITES.(refreshes := map[id := Completed(x.started, |x.rows|)])
    ensures Staged(id, x, 0, cfg)
  {
    hide RateRows, View, StoreRows;
    assert |x.rows| == 3 by { RowsOfThree(x.fetch.rates); }
    forall t: RateTables
      ensures View(t, x.w)
           == StoreRows(t.(refreshes := t.refreshes[id := Completed(x.started, 3)]), id, x.rows[..0], x.started, cfg)
    {
      OnlyAttempt(t, id, x.rows, x.started, cfg);
    }
  }

  /** Before any row is stored, only the attempt itself is staged. */
  lemma OnlyAttempt(t: RateTables, id: Uuid, rows: seq<RateRow>, started: int, cfg: Settings)
    ensures View(t, NO_WRITES.(refreshes := map[id := Completed(started, 3)]))
         == StoreRows(t.(refreshes := t.refreshes[id := Completed(started, 3)]), id, rows[..0], started, cfg)
  {
    assert t.refreshes + map[id := Completed(started, 3)] == t.refreshes[id := Completed(started, 3)];
    assert t.snapshots + [] == t.snapshots && t.current + map[] == t.current;
  }

  /** Committing the staged writes is the serial refresh. */
  lemma CommitIsRefresh(t: RateTables, id: Uuid, x: Txn, cfg: Settings)
    requires x.pc == CommitRefresh && Staged(id, x, 3, cfg)
    ensures RefreshTables(t, id, x.fetch, x.started, cfg) == (View(t, x.w), Refreshed)
  {
    hide RateRows, View, StoreRows;
    assert x.rows[..3] == x.rows;
  }

  /** Other transactions do not notice a commit by one that holds the lock, or a failure row. */
  lemma OthersKeep(s: State, s': State, id: Uuid, u: Uuid, cfg: Settings)
    requires u in s.txns && u != id && TxnInv(s, u, s.txns[u], cfg)
    requires s'.lock == s.lock || ((s.lock == None || s.lock == Some(id)) && (s'.lock == None || s'.lock == Some(id)))
    requires s'.t.refreshes.Keys <= s.t.refreshes.Keys + {id}
    requires s'.now >= s.now
    requires s'.t.current == s.t.current || s.lock == Some(id)
    ensures TxnInv(s', u, s.txns[u], cfg)
  {
    hide Staged, Latest, RateRows;
  }

  /** The tables after a commit, and their time. */
  lemma CommitKeepsBook(s: State, id: Uuid, w: Writes, outcome: RefreshOutcome, cfg: Settings)
    requires RatesValid(s.t) && BookNotAfter(s.t, s.now)
    requires id in s.txns && id !in s.t.refreshes
    requires Committing(s, id, w, outcome, cfg)
    ensures RatesValid(View(s.t, w)) && BookNotAfter(View(s.t, w), s.now) && BookAdvances(s.t, View(s.t, w))
    ensures View(s.t, w).refreshes.Keys == s.t.refreshes.Keys + {id}
    ensures View(s.t, w).current == s.t.current || s.lock == Some(id)
  {
    hide RefreshTables, RatesValid, Latest, View;
    var x := s.txns[id];
    RefreshKeeps(s.t, id, x.fetch, x.started, cfg);
    ViewKeys(s.t, w);
    if !x.pc.InsertFailure? {
      RefreshAdvances(s.t, id, x.fetch, x.started, cfg);
    }
  }

  lemma ViewKeys(t: RateTables, w: Writes)
    ensures View(t, w).refreshes.Keys == t.refreshes.Keys + w.refreshes.Keys
    ensures w.current == map[] ==> View(t, w).current == t.current
  {
  }

  lemma CommitKeepsTxns(s: State, id: Uuid, w: Writes, outcome: RefreshOutcome, cfg: Settings)
    requires AllTxns(s, cfg) && id in s.txns
    requires View(s.t, w).refreshes.Keys == s.t.refreshes.Keys + {id}
    requires View(s.t, w).current == s.t.current || s.lock == Some(id)
    ensures AllTxns(Commit(s, id, s.txns[id], w, outcome), cfg)
  {
    hide View, TxnInv;
    var s' := Commit(s, id, s.txns[id], w, outcome);
    forall u | u in s'.txns
      ensures TxnInv(s', u, s'.txns[u], cfg)
    {
      if u == id {
        DoneTxn(s', id, cfg);
      } else {
        OthersKeep(s, s', id, u, cfg);
      }
    }
  }

  lemma FaithfulAppend(t0: RateTables, t: RateTables, log: seq<LogEntry>, e: LogEntry, cfg: Settings)
    requires Faithful(t0, t, log, cfg) && Serial(t, e, cfg).1 == e.outcome
    ensures Faithful(t0, Serial(t, e, cfg).0, log + [e], cfg)
  {
    hide Serial;
    var more := log + [e];
    assert more[..|log|] == log;
    forall i | 0 <= i < |more|
      ensures Serial(SerialRun(t0, more[..i], cfg), more[i], cfg).1 == more[i].outcome
    {
      if i < |log| {
        assert more[..i] == log[..i];
      }
    }
  }

  lemma CommitKeepsLog(s: State, id: Uuid, w: Writes, outcome: RefreshOutcome)
    requires LogMatches(s) && id in s.txns && s.txns[id].pc != Done && outcome != Crashed
    ensures LogMatches(Commit(s, id, s.txns[id], w, outcome))
  {
    hide View;
    var s', n := Commit(s, id, s.txns[id], w, outcome), |s.log|;
    assert s'.log[n].id == id;
    forall u | u in s'.txns && Ended(s'.txns[u])
      ensures exists i :: 0 <= i < |s'.log| && s'.log[i].id == u
    {
      if u != id {
        var i :| 0 <= i < n && s.log[i].id == u;
        assert s'.log[i] == s.log[i];
      }
    }
  }

  /** A transaction about to commit the serial refresh: under the lock, or only a failure row. */
  ghost predicate Committing(s: State, id: Uuid, w: Writes, outcome: RefreshOutcome, cfg: Settings)
    requires id in s.txns
  {
    var x := s.txns[id];
    && (View(s.t, w), outcome) == RefreshTables(s.t, id, x.fetch, x.started, cfg)
    && outcome != Crashed && w.refreshes.Keys == {id} && x.started <= s.now
    && if x.pc.InsertFailure? then w.snapshots == [] && w.current == map[] && outcome != Refreshed
       else s.lock == Some(id) && BookNotAfter(s.t, x.started)
  }

  lemma CommitKeeps(t0: RateTables, s: State, id: Uuid, w: Writes, outcome: RefreshOutcome, cfg: Settings)
    requires Inv(t0, s, cfg) && id in s.txns && s.txns[id].pc != Done
    requires Committing(s, id, w, outcome, cfg)
    ensures Inv(t0, Commit(s, id, s.txns[id], w, outcome), cfg)
    ensures BookAdvances(s.t, Commit(s, id, s.txns[id], w, outcome).t)
  {
    hide RefreshTables, RatesValid, Latest, TxnInv, View, Faithful, LogMatches;
    FreshRefresh(s, id, cfg);
    CommitKeepsBook(s, id, w, outcome, cfg);
    CommitKeepsTxns(s, id, w, outcome, cfg);
    CommitKeepsLog(s, id, w, outcome);
    FaithfulAppend(t0, s.t, s.log, LogEntry(id, s.txns[id].fetch, s.txns[id].started, outcome), cfg);
  }

  lemma FreshRefresh(s: State, id: Uuid, cfg: Settings)
    requires id in s.txns && TxnInv(s, id, s.txns[id], cfg) && s.txns[id].pc != Done
    ensures id !in s.t.refreshes
  {
  }

  lemma DoneTxn(s: State, id: Uuid, cfg: Settings)
    requires id in s.txns && s.txns[id].pc == Done && s.txns[id].outcome.Some? && s.lock != Some(id)
    ensures TxnInv(s, id, s.txns[id], cfg)
  {
  }

  /** A statement that commits nothing, as far as the others are concerned. */
  lemma LocalKeeps(t0: RateTables, s: State, s': State, id: Uuid, cfg: Settings)
    requires Inv(t0, s, cfg) && id in s.txns
    requires s'.t == s.t && s'.log == s.log && s'.now == s.now
    requires id in s'.txns && s'.txns == s.txns[id := s'.txns[id]]
    requires s'.lock == s.lock || ((s.lock == None || s.lock == Some(id)) && (s'.lock == None || s'.lock == Some(id)))
    requires TxnInv(s', id, s'.txns[id], cfg) && !Ended(s'.txns[id]) && !Ended(s.txns[id])
    ensures Inv(t0, s', cfg)
  {
    hide RatesValid, Latest, TxnInv, Faithful;
    LocalKeepsLog(s, s', id);
    forall u | u in s'.txns
      ensures TxnInv(s', u, s'.txns[u], cfg)
    {
      if u != id {
        OthersKeep(s, s', id, u, cfg);
      }
    }
  }

  lemma LocalKeepsLog(s: State, s': State, id: Uuid)
    requires LogMatches(s) && id in s.txns && id in s'.txns && s'.log == s.log
    requires s'.txns == s.txns[id := s'.txns[id]] && !Ended(s'.txns[id]) && !Ended(s.txns[id])
    ensures LogMatches(s')
  {
    forall u | u in s'.txns && Ended(s'.txns[u])
      ensures exists i :: 0 <= i < |s'.log| && s'.log[i].id == u
    {
      assert u in s.txns && Ended(s.txns[u]);
    }
  }

  lemma StepKeeps(t0: RateTables, s: State, id: Uuid, cfg: Settings)
    requires Inv(t0, s, cfg) && id in s.txns && Step(s, id, cfg).Some?
    ensures Inv(t0, Step(s, id, cfg).value, cfg)
    ensures BookAdvances(s.t, Step(s, id, cfg).value.t)
  {
    hide RatesValid, Latest, RateRows, Staged, StageRow, RefreshTables, View, Faithful, LogMatches;
    var x := s.txns[id];
    var s' := Step(s, id, cfg).value;
    assert TxnInv(s, id, x, cfg);
    match x.pc
    case CommitRefresh =>
      CommitIsRefresh(s.t, id, x, cfg);
      StagedKeys(id, x, cfg);
      CommitKeeps(t0, s, id, x.w, Refreshed, cfg);
    case InsertFailure(error) =>
      FailureTables(s.t, id, x, error, cfg);
      CommitKeeps(t0, s, id, NO_WRITES.(refreshes := map[id := Failed(x.started, error)]), Refused(error), cfg);
    case StorePair(i) =>
      StagedThree(id, x, i, cfg);
      StagedNext(id, x, i, cfg, if i + 1 < 3 then StorePair(i + 1) else CommitRefresh);
      LocalKeeps(t0, s, s', id, cfg);
    case FetchRates =>
      if s'.txns[id].pc.StorePair? {
        StagedFirst(id, s'.txns[id], cfg);
      }
      LocalKeeps(t0, s, s', id, cfg);
    case _ =>
      LocalKeeps(t0, s, s', id, cfg);
  }

  lemma StagedThree(id: Uuid, x: Txn, n: nat, cfg: Settings)
    requires Staged(id, x, n, cfg)
    ensures |x.rows| == 3
  {
  }

  lemma StagedKeys(id: Uuid, x: Txn, cfg: Settings)
    requires Staged(id, x, 3, cfg)
    ensures x.w.refreshes.Keys == {id}
  {
  }

  lemma FailureTables(t: RateTables, id: Uuid, x: Txn, error: RefreshError, cfg: Settings)
    requires x.fetch == Unusable(error)
          || (x.fetch.Fetched? && RateRows(x.fetch.rates, CANONICAL_PAIRS).Unrepresentable?
              && error == UpstreamBadResponse)
    ensures (View(t, NO_WRITES.(refreshes := map[id := Failed(x.started, error)])), Refused(error))
         == RefreshTables(t, id, x.fetch, x.started, cfg)
  {
    hide RateRows;
    assert t.refreshes + map[id := Failed(x.started, error)] == t.refreshes[id := Failed(x.started, error)];
    assert t.snapshots + [] == t.snapshots && t.current + map[] == t.current;
  }

  lemma ApplyKeeps(t0: RateTables, s: State, a: Action, cfg: Settings)
    requires Inv(t0, s, cfg) && Enabled(s, a, cfg)
    ensures Inv(t0, Apply(s, a, cfg), cfg)
    ensures BookAdvances(s.t, Apply(s, a, cfg).t)
  {
    hide RatesValid, Latest, RateRows, Staged, Step, Faithful;
    match a
    case Begin(id, fetch) => BeginKeepsLog(s, id, fetch);
    case Advance(id) => StepKeeps(t0, s, id, cfg);
    case Fail(id) => LocalKeeps(t0, s, Crash(s, id, s.txns[id]), id, cfg);
    case Tick(now) =>
  }

  lemma BeginKeepsLog(s: State, id: Uuid, fetch: Fetch)
    requires LogMatches(s) && id !in s.txns
    ensures LogMatches(Put(s, id, Txn(Acquire, fetch, 0, [], NO_WRITES, None)))
  {
    var s' := Put(s, id, Txn(Acquire, fetch, 0, [], NO_WRITES, None));
    forall u | u in s'.txns && Ended(s'.txns[u])
      ensures exists i :: 0 <= i < |s'.log| && s'.log[i].id == u
    {
      assert u in s.txns && Ended(s.txns[u]);
    }
  }

  // ---------------------------------------------------------------- the theorems

  /**
    However refreshes interleave and wherever they fault, the committed rate tables are those of
    the committed attempts run one at a time in commit order, each with the outcome it reported;
    the log holds every committed attempt exactly once; and the book is one refresh.
   */
  lemma {:induction false} RefreshesSerialize(s: State, schedule: seq<Action>, cfg: Settings)
    requires Initial(s)
    ensures Inv(s.t, RunAll(s, schedule, cfg), cfg)
    ensures var final := RunAll(s, schedule, cfg);
            && RatesValid(final.t)
            && final.t == SerialRun(s.t, final.log, cfg)
            && (forall i :: 0 <= i < |final.log| ==>
                  Serial(SerialRun(s.t, final.log[..i], cfg), final.log[i], cfg).1 == final.log[i].outcome)
            && LogMatches(final)
  {
    hide Enabled, Apply, RatesValid, Latest;
    if schedule != [] {
      var n := |schedule| - 1;
      RefreshesSerialize(s, schedule[..n], cfg);
      var before := RunAll(s, schedule[..n], cfg);
      if Enabled(before, schedule[n], cfg) {
        ApplyKeeps(s.t, before, schedule[n], cfg);
      }
    }
  }

  /** `last_updated_at` never goes backwards, from any point of a run to any later one. */
  lemma {:induction false} BookNeverGoesBack(s: State, schedule: seq<Action>, cfg: Settings, n: nat)
    requires Initial(s) && n <= |schedule|
    ensures BookAdvances(RunAll(s, schedule[..n], cfg).t, RunAll(s, schedule, cfg).t)
  {
    hide Enabled, Apply, RatesValid, Latest, Inv;
    if n == |schedule| {
      assert schedule[..n] == schedule;
    } else {
      var m := |schedule| - 1;
      BookNeverGoesBack(s, schedule[..m], cfg, n);
      assert schedule[..m][..n] == schedule[..n];
      RefreshesSerialize(s, schedule[..m], cfg);
      var before := RunAll(s, schedule[..m], cfg);
      if Enabled(before, schedule[m], cfg) {
        ApplyKeeps(s.t, before, schedule[m], cfg);
      }
    }
  }
}
