/**
  Whole histories of the engine: money movements, quotes and rate refreshes in commit order.
 */
module History {
  import opened Money
  import opened Tables
  import opened TablesLaws
  import Protocol
  import RateRefresh
  import RateRefreshLaws
  import Quoting

  /** The tables, and the rates that each quote under way has read. */
  datatype World = World(db: Tables, rates: RateRefresh.RateTables, pinned: map<Uuid, RateRefresh.RateTables>)

  const NEW_WORLD: World := World(EMPTY, RateRefresh.NO_RATES, map[])

  /** A quote reads the rate book in one statement and commits later; anything may commit in between. */
  datatype Event =
    | Moved(e: Protocol.LogEntry)
    | BookRead(id: Uuid)
    | Quoted(id: Uuid, r: Quoting.QuoteRequest, now: int, createdAt: int)
    | Refreshed(id: Uuid, fetch: RateRefresh.Fetch, started: int)

  /** Identifiers are fresh and requests have passed their schema. */
  ghost predicate Possible(w: World, e: Event) {
    match e
    case Moved(entry) => entry.TxnEntry? && FreshId(w.db, entry.id)
    case BookRead(id) => id !in w.pinned
    case Quoted(id, r, _, _) => id in w.pinned && id !in w.db.quotes && r.amount.coeff > 0
    case Refreshed(id, _, _) => id !in w.rates.refreshes
  }

  ghost function After(w: World, e: Event, s: RateRefresh.Settings): World
    requires Possible(w, e)
  {
    match e
    case Moved(entry) => w.(db := Protocol.Serial(w.db, entry).0)
    case BookRead(id) => w.(pinned := w.pinned[id := w.rates])
    case Quoted(id, r, now, createdAt) => w.(db := Quoting.CreateQuote(w.db, w.pinned[id], r, now, createdAt, s, id).0)
    case Refreshed(id, fetch, started) => w.(rates := RateRefresh.RefreshTables(w.rates, id, fetch, started, s).0)
  }

  ghost function Run(w: World, events: seq<Event>, s: RateRefresh.Settings): World {
    if events == [] then w
    else
      var before := Run(w, events[..|events| - 1], s);
      var e := events[|events| - 1];
      if Possible(before, e) then After(before, e, s) else before
  }

  ghost predicate Sound(w: World) {
    && Valid(w.db) && RateRefreshLaws.RatesValid(w.rates) && Quoting.AllAudit(w.db, w.rates)
    && forall id :: id in w.pinned ==>
         RateRefreshLaws.RatesValid(w.pinned[id]) && w.pinned[id].snapshots <= w.rates.snapshots
  }

  lemma MoveKeeps(db: Tables, e: Protocol.LogEntry)
    requires Valid(db) && e.TxnEntry? && FreshId(db, e.id)
    ensures Valid(Protocol.Serial(db, e).0)
    ensures Protocol.Serial(db, e).0.quotes == db.quotes && Protocol.Serial(db, e).0.quoteLegs == db.quoteLegs
  {
    hide Valid, Refusal, CreditRefusal, UpdatedBalance, RoundMoney;
    match e.req
    case ExecuteReq(r) =>
      if Refusal(db, r, e.checkedAt).None? {
        SettleKeeps(db, r, e.id, e.checkedAt, e.doneAt);
        SettleQuotes(db, r, e.id, e.checkedAt, e.doneAt);
      }
    case CreditReq(customer, currency, amount) => CreditKeeps(db, customer, currency, amount, e.id);
    case CustomerReq =>
      CreateCustomerKeeps(db, e.id);
      CustomerQuotes(db, e.id);
  }

  lemma SettleQuotes(db: Tables, r: ExecuteRequest, id: Uuid, now: int, doneAt: int)
    requires Refusal(db, r, now).None?
    ensures r.quoteId in db.quotes
    ensures Settle(db, r, id, doneAt).quotes == db.quotes && Settle(db, r, id, doneAt).quoteLegs == db.quoteLegs
  {
  }

  lemma CustomerQuotes(db: Tables, id: Uuid)
    requires Valid(db) && FreshId(db, id)
    ensures CreateCustomer(db, id).quotes == db.quotes && CreateCustomer(db, id).quoteLegs == db.quoteLegs
  {
    hide CreateCustomer;
    CreateCustomerRows(db, id);
  }

  /** A stored quote, and its legs, are never rewritten. */
  ghost predicate QuotesKept(w: World, w': World) {
    && forall id :: id in w.db.quotes ==>
         && id in w'.db.quotes && w'.db.quotes[id] == w.db.quotes[id]
         && (id in w.db.quoteLegs ==> id in w'.db.quoteLegs && w'.db.quoteLegs[id] == w.db.quoteLegs[id])
  }

  lemma EventKeeps(w: World, e: Event, s: RateRefresh.Settings)
    requires Sound(w) && Possible(w, e)
    ensures Sound(After(w, e, s)) && QuotesKept(w, After(w, e, s))
  {
    hide Valid, RateRefreshLaws.RatesValid, Quoting.Audits, Protocol.Serial, RateRefresh.RefreshTables,
         Quoting.PriceFresh;
    match e
    case Moved(entry) => MoveKeeps(w.db, entry);
    case BookRead(id) =>
    case Quoted(id, r, now, createdAt) =>
      Quoting.CreateQuoteKeeps(w.db, w.pinned[id], w.rates, r, now, createdAt, s, id);
    case Refreshed(id, fetch, started) =>
      RateRefreshLaws.RefreshKeeps(w.rates, id, fetch, started, s);
      var w' := After(w, e, s);
      forall quoteId | quoteId in w'.db.quotes
        ensures quoteId in w'.db.quoteLegs
                 && Quoting.Audits(w'.db.quotes[quoteId], w'.db.quoteLegs[quoteId], w'.rates.snapshots)
      {
        Quoting.AuditStable(w.db.quotes[quoteId], w.db.quoteLegs[quoteId], w.rates.snapshots, w'.rates.snapshots);
      }
  }

  /**
    Audit round trip. After any history of the engine, every stored quote can be re-priced from
    its legs and the snapshots they reference to exactly the rate and destination amount it
    carries, whatever refreshes and executions came between its pricing and its commit, or later;
    the book is one refresh, and the ledger invariants hold.
   */
  lemma {:induction false} HistorySound(events: seq<Event>, s: RateRefresh.Settings)
    ensures Sound(Run(NEW_WORLD, events, s))
  {
    hide Sound, Possible, After;
    if events == [] {
      NewWorldSound();
    } else {
      var n := |events| - 1;
      HistorySound(events[..n], s);
      var before := Run(NEW_WORLD, events[..n], s);
      if Possible(before, events[n]) {
        EventKeeps(before, events[n], s);
      }
    }
  }

  lemma NewWorldSound()
    ensures Sound(NEW_WORLD)
  {
    EmptyValid();
  }

  /** Quotes are immutable: from any point of a history to any later one. */
  lemma {:induction false} QuotesImmutable(events: seq<Event>, s: RateRefresh.Settings, n: nat)
    requires n <= |events|
    ensures QuotesKept(Run(NEW_WORLD, events[..n], s), Run(NEW_WORLD, events, s))
  {
    hide Sound, Possible, After;
    if n == |events| {
      assert events[..n] == events;
    } else {
      var m := |events| - 1;
      QuotesImmutable(events[..m], s, n);
      assert events[..m][..n] == events[..n];
      HistorySound(events[..m], s);
      var before := Run(NEW_WORLD, events[..m], s);
      if Possible(before, events[m]) {
        EventKeeps(before, events[m], s);
      }
    }
  }

  /**
    Exactly-once settlement. After any history, an execution moved exactly the terms its quote
    was stored with: one debit and one credit reference it, of the quoted customer, currencies
    and amounts, and no other execution is of the same quote.
   */
  lemma SettledOnQuotedTerms(events: seq<Event>, s: RateRefresh.Settings, executionId: Uuid, n: nat)
    requires n <= |events|
    requires executionId in Run(NEW_WORLD, events, s).db.executions
    requires Run(NEW_WORLD, events, s).db.executions[executionId].quoteId in Run(NEW_WORLD, events[..n], s).db.quotes
    ensures var w := Run(NEW_WORLD, events, s);
            var quoteId := w.db.executions[executionId].quoteId;
            var q := Run(NEW_WORLD, events[..n], s).db.quotes[quoteId];
            && EntriesFor(w.db.ledger, ExecutionRef(executionId)) == [
                 LedgerEntry(q.customer, q.source, q.sourceAmount, Debit, ExecutionRef(executionId)),
                 LedgerEntry(q.customer, q.destination, q.destinationAmount, Credit, ExecutionRef(executionId))]
            && 0 < q.sourceAmount && 0 < q.destinationAmount
            && forall other :: other in w.db.executions && w.db.executions[other].quoteId == quoteId
                 ==> other == executionId
  {
    hide EntriesFor, Run, Quoting.AllAudit, RateRefreshLaws.RatesValid;
    HistorySound(events, s);
    QuotesImmutable(events, s, n);
    var db := Run(NEW_WORLD, events, s).db;
    assert EntriesFor(db.ledger, ExecutionRef(executionId)) == SettlementOf(db, ExecutionRef(executionId));
    EntriesPositive(db, executionId);
  }

  lemma EntriesPositive(db: Tables, executionId: Uuid)
    requires Valid(db) && executionId in db.executions
    ensures db.quotes[db.executions[executionId].quoteId].sourceAmount > 0
    ensures db.quotes[db.executions[executionId].quoteId].destinationAmount > 0
  {
    hide EntriesFor;
    var entries := EntriesFor(db.ledger, ExecutionRef(executionId));
    assert entries == SettlementOf(db, ExecutionRef(executionId));
    EntriesInLedger(db.ledger, ExecutionRef(executionId));
    assert entries[0] in db.ledger && entries[1] in db.ledger;
  }

  lemma {:induction false} EntriesInLedger(ledger: seq<LedgerEntry>, ref: Reference)
    ensures forall e <- EntriesFor(ledger, ref) :: e in ledger
  {
    if ledger != [] {
      EntriesInLedger(ledger[..|ledger| - 1], ref);
    }
  }
}
