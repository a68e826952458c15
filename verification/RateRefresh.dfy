/**
  Rate refreshes: an append-only snapshot log, the `current_rates` cache, and the audit rows of
  every attempt.
 */
module RateRefresh {
  import opened Money
  import opened Pricing

  type Uuid = nat

  datatype RefreshError = UpstreamTimeout | UpstreamBadResponse

  datatype Refresh = Completed(fetchedAt: int, pairsUpdated: nat) | Failed(fetchedAt: int, error: RefreshError)

  datatype Snapshot = Snapshot(id: Uuid, refreshId: Uuid, base: Currency, quote: Currency, mid: Mid, fetchedAt: int)

  datatype RateTables = RateTables(refreshes: map<Uuid, Refresh>, snapshots: seq<Snapshot>, current: Rates)

  const NO_RATES: RateTables := RateTables(map[], [], map[])

  datatype Settings = Settings(buyBps: BuyBps, sellBps: SellBps, freshness: nat)

  /** What the provider's validation lets through: a base and positive rates. */
  type PositiveDec = d: Dec | d.coeff > 0 witness Dec(1, 0)
  datatype ProviderRates = ProviderRates(base: Currency, rates: map<Currency, PositiveDec>)
  datatype Fetch = Fetched(rates: ProviderRates) | Unusable(error: RefreshError)

  datatype RateRow = RateRow(base: Currency, quote: Currency, mid: Mid)

  const CANONICAL_PAIRS: seq<Pair> := [(USD, KES), (USD, NGN), (USD, EUR)]

  /** The completeness check of RateProvider.fetch: every currency but the base has a rate. */
  predicate Complete(p: ProviderRates) {
    forall c | c in {USD, EUR, KES, NGN} :: c == p.base || c in p.rates
  }

  /** Direct lookup; None is the KeyError of a missing currency. */
  function PairMidRate(p: ProviderRates, quote: Currency): Option<PositiveDec> {
    if quote == p.base then Some(Dec(1, 0))
    else if quote in p.rates then Some(p.rates[quote])
    else None
  }

  datatype Rows = Rows(rows: seq<RateRow>) | Unrepresentable | Overflowing

  /**
    The rows of a refresh. A missing currency, or a rate that `quantize` cannot hold in 28
    digits, is an unusable response; one past NUMERIC(20,10) is only caught by the database.
   */
  function RateRows(p: ProviderRates, pairs: seq<Pair>): Rows {
    if pairs == [] then Rows([])
    else
      var n := |pairs| - 1;
      var earlier, found := RateRows(p, pairs[..n]), PairMidRate(p, pairs[n].1);
      if earlier.Unrepresentable? || found.None? || RoundRate(found.value) >= TEN_28 then Unrepresentable
      else if earlier.Overflowing? || RoundRate(found.value) >= NUMERIC_LIMIT then Overflowing
      else Rows(earlier.rows + [RateRow(pairs[n].0, pairs[n].1, RoundRate(found.value))])
  }

  /** Each refresh draws one fresh identifier, and one for each of its three snapshots. */
  function SnapshotId(refreshId: Uuid, position: nat): Uuid {
    |CANONICAL_PAIRS| * refreshId + position
  }

  /** Insert one snapshot and upsert its pair. */
  function StoreRow(
      t: RateTables, refreshId: Uuid, position: nat, row: RateRow, fetchedAt: int, s: Settings): RateTables {
    var id := SnapshotId(refreshId, position);
    t.(snapshots := t.snapshots + [Snapshot(id, refreshId, row.base, row.quote, row.mid, fetchedAt)],
       current := t.current[(row.base, row.quote) :=
                    CurrentRate(row.base, row.quote, row.mid, s.buyBps, s.sellBps, id, fetchedAt)])
  }

  function StoreRows(t: RateTables, refreshId: Uuid, rows: seq<RateRow>, fetchedAt: int, s: Settings): RateTables {
    if rows == [] then t
    else
      var n := |rows| - 1;
      StoreRow(StoreRows(t, refreshId, rows[..n], fetchedAt, s), refreshId, n, rows[n], fetchedAt, s)
  }

  datatype RefreshOutcome = Refreshed | Refused(error: RefreshError) | Crashed

  function RecordFailure(t: RateTables, id: Uuid, started: int, error: RefreshError): RateTables {
    t.(refreshes := t.refreshes[id := Failed(started, error)])
  }

  function RecordSuccess(t: RateTables, id: Uuid, rows: seq<RateRow>, started: int, s: Settings): RateTables {
    StoreRows(t.(refreshes := t.refreshes[id := Completed(started, |rows|)]), id, rows, started, s)
  }

  /** refresh_rates, alone: the tables it leaves and its outcome. */
  function RefreshTables(
      t: RateTables, id: Uuid, fetch: Fetch, started: int, s: Settings): (RateTables, RefreshOutcome) {
    match fetch
    case Unusable(error) => (RecordFailure(t, id, started, error), Refused(error))
    case Fetched(p) =>
      match RateRows(p, CANONICAL_PAIRS)
      case Unrepresentable => (RecordFailure(t, id, started, UpstreamBadResponse), Refused(UpstreamBadResponse))
      case Overflowing => (t, Crashed)
      case Rows(rows) => (RecordSuccess(t, id, rows, started, s), Refreshed)
  }

  // ---------------------------------------------------------------- reads

  const ALL_PAIRS: seq<Pair> := [
    (USD, USD), (USD, EUR), (USD, KES), (USD, NGN), (EUR, USD), (EUR, EUR), (EUR, KES), (EUR, NGN),
    (KES, USD), (KES, EUR), (KES, KES), (KES, NGN), (NGN, USD), (NGN, EUR), (NGN, KES), (NGN, NGN)]

  /** The newest timestamp among the rows of the given pairs. */
  function Latest(current: Rates, pairs: seq<Pair>): Option<int> {
    if pairs == [] then None
    else
      var n := |pairs| - 1;
      var best := Latest(current, pairs[..n]);
      if pairs[n] !in current then best
      else
        var at := current[pairs[n]].lastUpdatedAt;
        if best.None? || best.value < at then Some(at) else best
  }

  function LoadCurrentRateBook(t: RateTables): RateBook {
    RateBook(t.current, Latest(t.current, ALL_PAIRS))
  }

  datatype Readiness = Unavailable | Stale | Fresh

  function FreshnessStatus(t: RateTables, now: int, s: Settings): Readiness {
    match Latest(t.current, ALL_PAIRS)
    case None => Unavailable
    case Some(at) => if at < now - s.freshness then Stale else Fresh
  }

  // ---------------------------------------------------------------- the session

  /** The rate tables behind one session: a working copy, and what has been committed. */
  class RateSession {
    var refreshes: map<Uuid, Refresh>
    var snapshots: seq<Snapshot>
    var current: Rates
    var committed: RateTables

    function Working(): RateTables
      reads this
    {
      RateTables(refreshes, snapshots, current)
    }

    constructor (t: RateTables)
      ensures committed == t && Working() == t
    {
      refreshes, snapshots, current := t.refreshes, t.snapshots, t.current;
      committed := t;
    }

    method Commit()
      modifies this
      ensures Working() == old(Working()) && committed == old(Working())
    {
      committed := Working();
    }

    method Rollback()
      modifies this
      ensures Working() == old(committed) && committed == old(committed)
    {
      refreshes, snapshots, current := committed.refreshes, committed.snapshots, committed.current;
    }

    method StorePairRows(refreshId: Uuid, rows: seq<RateRow>, fetchedAt: int, s: Settings)
      modifies this
      ensures Working() == StoreRows(old(Working()), refreshId, rows, fetchedAt, s)
      ensures committed == old(committed)
    {
      for i := 0 to |rows|
        invariant Working() == StoreRows(old(Working()), refreshId, rows[..i], fetchedAt, s)
        invariant committed == old(committed)
      {
        var row := rows[i];
        var id := SnapshotId(refreshId, i);
        snapshots := snapshots + [Snapshot(id, refreshId, row.base, row.quote, row.mid, fetchedAt)];
        current := current[(row.base, row.quote) :=
                     CurrentRate(row.base, row.quote, row.mid, s.buyBps, s.sellBps, id, fetchedAt)];
        assert rows[..i + 1][..i] == rows[..i];
      }
      assert rows[..|rows|] == rows;
    }

    method RecordFailedRefresh(id: Uuid, started: int, error: RefreshError)
      modifies this
      ensures committed == RecordFailure(old(committed), id, started, error)
      ensures Working() == committed
    {
      Rollback();
      refreshes := refreshes[id := Failed(started, error)];
      Commit();
    }

    /**
      refresh_rates. `crash` is an exception the service does not catch, raised while the rows
      are being stored: the session is dropped and its transaction rolled back.
     */
    method RefreshRates(id: Uuid, fetch: Fetch, started: int, s: Settings, crash: bool)
      returns (outcome: RefreshOutcome)
      requires Working() == committed
      modifies this
      ensures Working() == committed
      ensures !crash ==> (committed, outcome) == RefreshTables(old(committed), id, fetch, started, s)
      ensures crash && outcome != Crashed ==>
                outcome.Refused? && (committed, outcome) == RefreshTables(old(committed), id, fetch, started, s)
      ensures outcome == Crashed ==> committed == old(committed)
    {
      match fetch {
        case Unusable(error) =>
          RecordFailedRefresh(id, started, error);
          outcome := Refused(error);
        case Fetched(p) =>
          match RateRows(p, CANONICAL_PAIRS) {
            case Unrepresentable =>
              RecordFailedRefresh(id, started, UpstreamBadResponse);
              outcome := Refused(UpstreamBadResponse);
            case Overflowing =>
              refreshes := refreshes[id := Completed(started, |CANONICAL_PAIRS|)];
              Rollback();
              outcome := Crashed;
            case Rows(rows) =>
              refreshes := refreshes[id := Completed(started, |rows|)];
              StorePairRows(id, rows, started, s);
              if crash {
                Rollback();
                outcome := Crashed;
              } else {
                Commit();
                outcome := Refreshed;
              }
          }
      }
    }
  }
}
