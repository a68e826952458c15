/**
  What every refresh keeps: the rate book is always one whole refresh, pinned to the newest
  snapshots, and its timestamp never goes backwards.
 */
module RateRefreshLaws {
  import opened Money
  import opened Pricing
  import opened RateRefresh

  ghost predicate IsPair(s: Snapshot, p: Pair) {
    s.base == p.0 && s.quote == p.1
  }

  /** The cached row of a pair repeats snapshot i, and no later snapshot is of that pair. */
  ghost predicate Pins(snapshots: seq<Snapshot>, current: Rates, p: Pair, i: nat) {
    && i < |snapshots| && p in current
    && IsPair(snapshots[i], p)
    && current[p].base == p.0 && current[p].quote == p.1
    && current[p].mid == snapshots[i].mid
    && current[p].snapshotId == snapshots[i].id
    && current[p].lastUpdatedAt == snapshots[i].fetchedAt
    && forall j :: i < j < |snapshots| ==> !IsPair(snapshots[j], p)
  }

  /** Where a canonical pair stands in the order of storing. */
  lemma PairIndex(p: Pair) returns (i: nat)
    requires p in CANONICAL
    ensures i < 3 && CANONICAL_PAIRS[i] == p
  {
    i := if p.1 == KES then 0 else if p.1 == NGN then 1 else 2;
  }

  /** The i-th of the three newest snapshots is refresh r's, and the cache repeats it. */
  ghost predicate StoredAs(t: RateTables, r: Uuid, i: nat)
    requires i < 3 && r in t.refreshes
  {
    && |t.snapshots| >= 3
    && var n := |t.snapshots| - 3 + i;
       && Pins(t.snapshots, t.current, CANONICAL_PAIRS[i], n)
       && t.snapshots[n].refreshId == r && t.snapshots[n].id == SnapshotId(r, i)
       && t.snapshots[n].fetchedAt == t.refreshes[r].fetchedAt
  }

  /** The whole book comes from refresh r: the canonical pairs, and nothing else. */
  ghost predicate FromRefresh(t: RateTables, r: Uuid) {
    && r in t.refreshes && t.refreshes[r].Completed?
    && t.current.Keys == CANONICAL
    && StoredAs(t, r, 0) && StoredAs(t, r, 1) && StoredAs(t, r, 2)
    && (forall p, q :: p in t.current && q in t.current ==>
          t.current[p].buyBps == t.current[q].buyBps && t.current[p].sellBps == t.current[q].sellBps)
  }

  /** The cache and the log are empty, or the cache is exactly the newest refresh of the log. */
  ghost predicate OneRefresh(t: RateTables) {
    || (t.current == map[] && t.snapshots == [])
    || exists r :: FromRefresh(t, r)
  }

  /** Every snapshot belongs to a completed refresh; identifiers never repeat. */
  ghost predicate SnapshotsValid(t: RateTables) {
    && (forall s <- t.snapshots :: s.refreshId in t.refreshes && t.refreshes[s.refreshId].Completed?)
    && (forall i, j :: 0 <= i < j < |t.snapshots| ==> t.snapshots[i].id != t.snapshots[j].id)
    && (forall s <- t.snapshots :: SnapshotId(s.refreshId, 0) <= s.id <= SnapshotId(s.refreshId, 2))
  }

  ghost predicate RatesValid(t: RateTables) {
    OneRefresh(t) && SnapshotsValid(t)
  }

  /** The time of the newest book, if any. */
  ghost function BookTime(t: RateTables): Option<int> {
    Latest(t.current, ALL_PAIRS)
  }

  lemma EmptyRatesValid()
    ensures RatesValid(NO_RATES)
  {
  }

  // ---------------------------------------------------------------- a successful refresh

  lemma RowsOfThree(p: ProviderRates)
    ensures var r := RateRows(p, CANONICAL_PAIRS);
            r.Rows? ==> && |r.rows| == 3
                        && forall i :: 0 <= i < 3 ==> (r.rows[i].base, r.rows[i].quote) == CANONICAL_PAIRS[i]
  {
    hide RoundRate;
    RowsFollow(p, CANONICAL_PAIRS);
  }

  lemma {:induction false} RowsFollow(p: ProviderRates, pairs: seq<Pair>)
    ensures var r := RateRows(p, pairs);
            r.Rows? ==> && |r.rows| == |pairs|
                        && forall i :: 0 <= i < |pairs| ==>
                             && (r.rows[i].base, r.rows[i].quote) == pairs[i]
                             && PairMidRate(p, pairs[i].1).Some?
                             && r.rows[i].mid == RoundRate(PairMidRate(p, pairs[i].1).value)
  {
    hide RoundRate;
    if pairs != [] {
      RowsFollow(p, pairs[..|pairs| - 1]);
    }
  }

  lemma StoreThree(t: RateTables, id: Uuid, rows: seq<RateRow>, at: int, s: Settings)
    requires |rows| == 3
    ensures StoreRows(t, id, rows, at, s)
         == StoreRow(StoreRow(StoreRow(t, id, 0, rows[0], at, s), id, 1, rows[1], at, s), id, 2, rows[2], at, s)
  {
    assert rows[..2][..1] == rows[..1] && rows[..1][..0] == [];
    assert StoreRows(t, id, [], at, s) == t;
    assert StoreRows(t, id, rows[..1], at, s) == StoreRow(t, id, 0, rows[0], at, s);
    assert StoreRows(t, id, rows[..2], at, s) == StoreRow(StoreRow(t, id, 0, rows[0], at, s), id, 1, rows[1], at, s);
  }

  /** The tables after a successful refresh, written out. */
  lemma SuccessTables(t: RateTables, id: Uuid, rows: seq<RateRow>, at: int, s: Settings)
    requires |rows| == 3 && forall i :: 0 <= i < 3 ==> (rows[i].base, rows[i].quote) == CANONICAL_PAIRS[i]
    ensures var t' := RecordSuccess(t, id, rows, at, s);
            && t'.refreshes == t.refreshes[id := Completed(at, 3)]
            && t'.snapshots == t.snapshots + [
                 Snapshot(SnapshotId(id, 0), id, USD, KES, rows[0].mid, at),
                 Snapshot(SnapshotId(id, 1), id, USD, NGN, rows[1].mid, at),
                 Snapshot(SnapshotId(id, 2), id, USD, EUR, rows[2].mid, at)]
            && t'.current == t.current
                 [(USD, KES) := CurrentRate(USD, KES, rows[0].mid, s.buyBps, s.sellBps, SnapshotId(id, 0), at)]
                 [(USD, NGN) := CurrentRate(USD, NGN, rows[1].mid, s.buyBps, s.sellBps, SnapshotId(id, 1), at)]
                 [(USD, EUR) := CurrentRate(USD, EUR, rows[2].mid, s.buyBps, s.sellBps, SnapshotId(id, 2), at)]
  {
    StoreThree(t.(refreshes := t.refreshes[id := Completed(at, 3)]), id, rows, at, s);
  }

  /** The last three snapshots pin the three rows that repeat them. */
  lemma PinsLast(snapshots: seq<Snapshot>, current: Rates, n: nat)
    requires |snapshots| == n + 3
    requires IsPair(snapshots[n], (USD, KES)) && IsPair(snapshots[n + 1], (USD, NGN))
             && IsPair(snapshots[n + 2], (USD, EUR))
    requires Repeats(snapshots[n], current) && Repeats(snapshots[n + 1], current) && Repeats(snapshots[n + 2], current)
    ensures Pins(snapshots, current, (USD, KES), n)
    ensures Pins(snapshots, current, (USD, NGN), n + 1)
    ensures Pins(snapshots, current, (USD, EUR), n + 2)
  {
  }

  ghost predicate Repeats(s: Snapshot, current: Rates) {
    && (s.base, s.quote) in current
    && var row := current[(s.base, s.quote)];
       row.base == s.base && row.quote == s.quote && row.mid == s.mid && row.snapshotId == s.id
           && row.lastUpdatedAt == s.fetchedAt
  }

  /** The cache holds the canonical pairs, at the settings' spreads. */
  lemma SuccessCache(t: RateTables, id: Uuid, rows: seq<RateRow>, at: int, s: Settings)
    requires t.current.Keys <= CANONICAL
    requires |rows| == 3 && forall i :: 0 <= i < 3 ==> (rows[i].base, rows[i].quote) == CANONICAL_PAIRS[i]
    ensures var t' := RecordSuccess(t, id, rows, at, s);
            && t'.current.Keys == CANONICAL
            && forall p :: p in t'.current ==> t'.current[p].buyBps == s.buyBps && t'.current[p].sellBps == s.sellBps
  {
    hide RecordSuccess;
    SuccessTables(t, id, rows, at, s);
  }

  /** Its rows repeat the three newest snapshots. */
  lemma SuccessPins(t: RateTables, id: Uuid, rows: seq<RateRow>, at: int, s: Settings)
    requires |rows| == 3 && forall i :: 0 <= i < 3 ==> (rows[i].base, rows[i].quote) == CANONICAL_PAIRS[i]
    ensures var t' := RecordSuccess(t, id, rows, at, s);
            && t'.refreshes == t.refreshes[id := Completed(at, 3)]
            && StoredAs(t', id, 0) && StoredAs(t', id, 1) && StoredAs(t', id, 2)
  {
    hide RecordSuccess, Pins, SnapshotId;
    SuccessTables(t, id, rows, at, s);
    var t' := RecordSuccess(t, id, rows, at, s);
    PinsLast(t'.snapshots, t'.current, |t.snapshots|);
  }

  lemma SuccessIsOneRefresh(t: RateTables, id: Uuid, rows: seq<RateRow>, at: int, s: Settings)
    requires OneRefresh(t)
    requires |rows| == 3 && forall i :: 0 <= i < 3 ==> (rows[i].base, rows[i].quote) == CANONICAL_PAIRS[i]
    ensures FromRefresh(RecordSuccess(t, id, rows, at, s), id)
  {
    hide RecordSuccess, StoredAs;
    assert t.current.Keys <= CANONICAL;
    SuccessCache(t, id, rows, at, s);
    SuccessPins(t, id, rows, at, s);
  }

  lemma SuccessSnapshots(t: RateTables, id: Uuid, rows: seq<RateRow>, at: int, s: Settings)
    requires SnapshotsValid(t) && id !in t.refreshes
    requires |rows| == 3 && forall i :: 0 <= i < 3 ==> (rows[i].base, rows[i].quote) == CANONICAL_PAIRS[i]
    ensures SnapshotsValid(RecordSuccess(t, id, rows, at, s))
  {
    hide RecordSuccess;
    SuccessTables(t, id, rows, at, s);
    var t' := RecordSuccess(t, id, rows, at, s);
    forall i, j | 0 <= i < j < |t'.snapshots|
      ensures t'.snapshots[i].id != t'.snapshots[j].id
    {
      if i < |t.snapshots| && j >= |t.snapshots| {
        assert t.snapshots[i] in t.snapshots;
        assert t.snapshots[i].refreshId != id;
      }
    }
  }

  /** A refresh that fails changes neither the cache nor the snapshot log. */
  lemma FailureKeeps(t: RateTables, id: Uuid, started: int, error: RefreshError)
    requires RatesValid(t) && id !in t.refreshes
    ensures RatesValid(RecordFailure(t, id, started, error))
  {
    hide FromRefresh;
    var t' := RecordFailure(t, id, started, error);
    if exists r :: FromRefresh(t, r) {
      var r :| FromRefresh(t, r);
      FromRefreshFrame(t, t', r, id);
    }
  }

  lemma FromRefreshFrame(t: RateTables, t': RateTables, r: Uuid, id: Uuid)
    requires FromRefresh(t, r) && id !in t.refreshes
    requires t'.snapshots == t.snapshots && t'.current == t.current
    requires id in t'.refreshes && t'.refreshes == t.refreshes[id := t'.refreshes[id]]
    ensures FromRefresh(t', r)
  {
    hide Pins;
  }

  /**
    After any refresh, whatever the provider returned, the book is empty or exactly one whole
    refresh, and unless the refresh succeeded cache and log are what they were.
   */
  lemma RefreshKeeps(t: RateTables, id: Uuid, fetch: Fetch, started: int, s: Settings)
    requires RatesValid(t) && id !in t.refreshes
    ensures var r := RefreshTables(t, id, fetch, started, s);
            && RatesValid(r.0)
            && t.snapshots <= r.0.snapshots
            && (r.1 == Refreshed ==> FromRefresh(r.0, id))
            && (r.1 != Refreshed ==> r.0.current == t.current && r.0.snapshots == t.snapshots)
            && (r.1.Refused? ==> r.0.refreshes == t.refreshes[id := Failed(started, r.1.error)])
            && (r.1 == Crashed ==> r.0 == t)
  {
    hide RecordSuccess, RateRows, OneRefresh, SnapshotsValid;
    match fetch
    case Unusable(error) => FailureKeeps(t, id, started, error);
    case Fetched(p) =>
      match RateRows(p, CANONICAL_PAIRS) {
        case Unrepresentable => FailureKeeps(t, id, started, UpstreamBadResponse);
        case Overflowing =>
        case Rows(rows) =>
          RowsOfThree(p);
          SuccessTables(t, id, rows, started, s);
          SuccessIsOneRefresh(t, id, rows, started, s);
          SuccessSnapshots(t, id, rows, started, s);
          OneRefreshFrom(RecordSuccess(t, id, rows, started, s), id);
      }
  }

  lemma OneRefreshFrom(t: RateTables, r: Uuid)
    requires FromRefresh(t, r)
    ensures OneRefresh(t)
  {
  }

  // ---------------------------------------------------------------- the book and its time

  lemma {:induction false} LatestOfUniform(current: Rates, pairs: seq<Pair>, at: int)
    requires forall p :: p in current ==> current[p].lastUpdatedAt == at
    ensures Latest(current, pairs) == if exists p <- pairs :: p in current then Some(at) else None
  {
    if pairs != [] {
      var n := |pairs| - 1;
      LatestOfUniform(current, pairs[..n], at);
      assert pairs == pairs[..n] + [pairs[n]];
    }
  }

  /** The timestamp the gate looks at is the maximum over all rows, and belongs to one of them. */
  lemma {:induction false} LatestIsNewest(current: Rates, pairs: seq<Pair>)
    ensures var at := Latest(current, pairs);
            && (at.None? <==> forall p <- pairs :: p !in current)
            && (at.Some? ==> && (exists p <- pairs :: p in current && current[p].lastUpdatedAt == at.value)
                             && (forall p <- pairs :: p in current ==> current[p].lastUpdatedAt <= at.value))
  {
    if pairs != [] {
      var n := |pairs| - 1;
      LatestIsNewest(current, pairs[..n]);
      assert pairs == pairs[..n] + [pairs[n]];
    }
  }

  /** The newest timestamp is the timestamp of every row, so one test decides for all of them. */
  lemma BookIsUniform(t: RateTables)
    requires OneRefresh(t)
    ensures BookTime(t).None? <==> t.current == map[]
    ensures BookTime(t).Some? ==> forall p :: p in t.current ==> t.current[p].lastUpdatedAt == BookTime(t).value
    ensures BookTime(t).Some? ==> exists r :: FromRefresh(t, r) && t.refreshes[r].fetchedAt == BookTime(t).value
  {
    hide FromRefresh;
    if exists r :: FromRefresh(t, r) {
      var r :| FromRefresh(t, r);
      RowTimes(t, r);
      LatestOfUniform(t.current, ALL_PAIRS, t.refreshes[r].fetchedAt);
      SomePairPresent(t, r);
    } else {
      LatestOfUniform(t.current, ALL_PAIRS, 0);
    }
  }

  lemma RowTimes(t: RateTables, r: Uuid)
    requires FromRefresh(t, r)
    ensures r in t.refreshes
    ensures forall p :: p in t.current ==> t.current[p].lastUpdatedAt == t.refreshes[r].fetchedAt
  {
    forall p | p in t.current
      ensures t.current[p].lastUpdatedAt == t.refreshes[r].fetchedAt
    {
      var i := PairIndex(p);
      assert StoredAs(t, r, i);
    }
  }

  lemma SomePairPresent(t: RateTables, r: Uuid)
    requires FromRefresh(t, r)
    ensures t.current != map[] && exists p <- ALL_PAIRS :: p in t.current
  {
    assert CANONICAL_PAIRS[0] in CANONICAL_PAIRS;
    assert ALL_PAIRS[2] == CANONICAL_PAIRS[0];
    assert CANONICAL_PAIRS[0] in t.current;
  }

  /** No book is newer than the given instant. */
  ghost predicate BookNotAfter(t: RateTables, at: int) {
    BookTime(t).Some? ==> BookTime(t).value <= at
  }

  /** The book of one state is not older than the book of another. */
  ghost predicate BookAdvances(t: RateTables, t': RateTables) {
    BookTime(t).Some? ==> BookTime(t').Some? && BookTime(t).value <= BookTime(t').value
  }

  /** A refresh started at or after the time of the book never takes the book back. */
  lemma RefreshAdvances(t: RateTables, id: Uuid, fetch: Fetch, started: int, s: Settings)
    requires RatesValid(t) && id !in t.refreshes && BookNotAfter(t, started)
    ensures var r := RefreshTables(t, id, fetch, started, s);
            && BookAdvances(t, r.0) && BookNotAfter(r.0, started)
            && (r.1 == Refreshed ==> BookTime(r.0) == Some(started))
  {
    hide RefreshTables, OneRefresh, SnapshotsValid, Latest;
    RefreshKeeps(t, id, fetch, started, s);
    var r := RefreshTables(t, id, fetch, started, s);
    if r.1 == Refreshed {
      RefreshedTime(t, id, fetch, started, s);
    }
  }

  lemma RefreshedTime(t: RateTables, id: Uuid, fetch: Fetch, started: int, s: Settings)
    requires RatesValid(t) && id !in t.refreshes && RefreshTables(t, id, fetch, started, s).1 == Refreshed
    ensures BookTime(RefreshTables(t, id, fetch, started, s).0) == Some(started)
  {
    hide FromRefresh, OneRefresh, SnapshotsValid, Latest, RateRows;
    RefreshKeeps(t, id, fetch, started, s);
    var rows := RateRows(fetch.rates, CANONICAL_PAIRS).rows;
    RowsOfThree(fetch.rates);
    SuccessTables(t, id, rows, started, s);
    var t' := RefreshTables(t, id, fetch, started, s).0;
    RowTimes(t', id);
    LatestOfUniform(t'.current, ALL_PAIRS, started);
    SomePairPresent(t', id);
  }

  // ---------------------------------------------------------------- which responses refresh

  /** A response's rate of a currency in quanta of 10^-10: one for its base, else the listed rate. */
  ghost function QuotedMid(p: ProviderRates, quote: Currency): Option<int> {
    if quote == p.base then Some(10_000_000_000)
    else if quote in p.rates
    then Some(RoundHalfEven(p.rates[quote].coeff * 10_000_000_000, Pow10(p.rates[quote].places)))
    else None
  }

  lemma MidIsQuoted(p: ProviderRates, quote: Currency)
    ensures PairMidRate(p, quote).Some? <==> QuotedMid(p, quote).Some?
    ensures PairMidRate(p, quote).Some? ==> RoundRate(PairMidRate(p, quote).value) == QuotedMid(p, quote).value
  {
    hide RoundHalfEven;
    assert Pow10(10) == RATE_ONE;
    if quote == p.base {
      ParRate();
    } else if quote in p.rates {
      QuantizeIsRounding(p.rates[quote], RATE_PLACES);
    }
  }

  /** The response has a rate, and its column can hold it. */
  ghost predicate Usable(p: ProviderRates, quote: Currency) {
    QuotedMid(p, quote).Some? && QuotedMid(p, quote).value < 100_000_000_000_000_000_000
  }

  lemma {:induction false} RowsIff(p: ProviderRates, pairs: seq<Pair>)
    ensures RateRows(p, pairs).Rows? <==> forall i :: 0 <= i < |pairs| ==> Usable(p, pairs[i].1)
  {
    hide RoundRate, QuotedMid;
    if pairs != [] {
      var n := |pairs| - 1;
      RowsIff(p, pairs[..n]);
      MidIsQuoted(p, pairs[n].1);
      assert forall i :: 0 <= i < n ==> pairs[..n][i] == pairs[i];
    }
  }

  /**
    A response refreshes the book exactly when it has a rate, small enough for its column, for
    each of KES, NGN and EUR; the provider's own completeness check guarantees the rates exist.
   */
  lemma RefreshesIff(t: RateTables, id: Uuid, p: ProviderRates, started: int, s: Settings)
    ensures RefreshTables(t, id, Fetched(p), started, s).1 == RefreshOutcome.Refreshed
       <==> Usable(p, KES) && Usable(p, NGN) && Usable(p, EUR)
    ensures Complete(p) ==> forall q: Currency :: q != USD ==> PairMidRate(p, q).Some?
  {
    hide RoundRate, RateRows, Usable;
    RowsIff(p, CANONICAL_PAIRS);
    assert CANONICAL_PAIRS[0].1 == KES && CANONICAL_PAIRS[1].1 == NGN && CANONICAL_PAIRS[2].1 == EUR;
    forall q: Currency | Complete(p) && q != USD
      ensures PairMidRate(p, q).Some?
    {
      assert q in {USD, EUR, KES, NGN};
    }
  }

  /** The pair has no rate, or one of more digits than a decimal can be quantized to. */
  ghost predicate Unquotable(p: ProviderRates, quote: Currency) {
    QuotedMid(p, quote).None? || QuotedMid(p, quote).value >= 10_000_000_000_000_000_000_000_000_000
  }

  lemma {:induction false} RowsUnquotable(p: ProviderRates, pairs: seq<Pair>)
    ensures RateRows(p, pairs).Unrepresentable? <==> exists i :: 0 <= i < |pairs| && Unquotable(p, pairs[i].1)
  {
    hide RoundRate, QuotedMid;
    if pairs != [] {
      var n := |pairs| - 1;
      RowsUnquotable(p, pairs[..n]);
      MidIsQuoted(p, pairs[n].1);
      assert forall i :: 0 <= i < n ==> pairs[..n][i] == pairs[i];
      var found := PairMidRate(p, pairs[n].1);
      assert Unquotable(p, pairs[n].1) <==> found.None? || RoundRate(found.value) >= TEN_28;
    }
  }

  /**
    Each outcome of a refresh, exactly when it is due: the provider's own error is passed on, a
    missing or unquotable rate is a bad response, and one that only its column cannot hold is an
    error nobody catches.
   */
  lemma RefreshOutcomes(t: RateTables, id: Uuid, fetch: Fetch, started: int, s: Settings)
    ensures var (t', outcome) := RefreshTables(t, id, fetch, started, s);
            && (fetch.Unusable? ==> outcome == Refused(fetch.error))
            && (fetch.Fetched? ==>
                  var p := fetch.rates;
                  var bad := Unquotable(p, KES) || Unquotable(p, NGN) || Unquotable(p, EUR);
                  && (outcome == Refreshed <==> Usable(p, KES) && Usable(p, NGN) && Usable(p, EUR))
                  && (outcome == Refused(UpstreamBadResponse) <==> bad)
                  && (outcome == Crashed <==> !bad && !(Usable(p, KES) && Usable(p, NGN) && Usable(p, EUR))))
            && (outcome == Refreshed ==> t'.refreshes == t.refreshes[id := Completed(started, 3)])
            && (outcome.Refused? ==> t' == t.(refreshes := t.refreshes[id := Failed(started, outcome.error)]))
            && (outcome == Crashed ==> t' == t)
  {
    hide RoundRate, RateRows, Usable, Unquotable, RecordSuccess;
    if fetch.Fetched? {
      var p := fetch.rates;
      RowsIff(p, CANONICAL_PAIRS);
      RowsUnquotable(p, CANONICAL_PAIRS);
      assert CANONICAL_PAIRS[0].1 == KES && CANONICAL_PAIRS[1].1 == NGN && CANONICAL_PAIRS[2].1 == EUR;
      assert |CANONICAL_PAIRS| == 3;
      if RateRows(p, CANONICAL_PAIRS).Rows? {
        RowsOfThree(p);
        SuccessTables(t, id, RateRows(p, CANONICAL_PAIRS).rows, started, s);
      }
    }
  }

  // ---------------------------------------------------------------- freshness

  lemma EveryPair(p: Pair)
    ensures p in ALL_PAIRS
  {
    var row := match p.0 case USD => 0 case EUR => 4 case KES => 8 case NGN => 12;
    var column := match p.1 case USD => 0 case EUR => 1 case KES => 2 case NGN => 3;
    assert ALL_PAIRS[row + column] == p;
  }

  /**
    The freshness window, edge included, on any tables at all: rates are fresh exactly if some row
    is at most `freshness` old, stale if there are rows and all are older, unavailable without rows.
    When the book is one refresh, one row is within the window exactly if all are.
   */
  lemma FreshnessWindow(t: RateTables, now: int, s: Settings)
    ensures FreshnessStatus(t, now, s) == Unavailable <==> t.current == map[]
    ensures FreshnessStatus(t, now, s) == Fresh <==>
              exists p :: p in t.current && now <= t.current[p].lastUpdatedAt + s.freshness
    ensures FreshnessStatus(t, now, s) == Stale <==>
              t.current != map[] && forall p :: p in t.current ==> t.current[p].lastUpdatedAt + s.freshness < now
    ensures OneRefresh(t) ==> (FreshnessStatus(t, now, s) == Fresh <==>
              t.current != map[] && forall p :: p in t.current ==> now <= t.current[p].lastUpdatedAt + s.freshness)
  {
    hide OneRefresh, Latest;
    LatestIsNewest(t.current, ALL_PAIRS);
    forall p
      ensures p in ALL_PAIRS
    {
      EveryPair(p);
    }
    if OneRefresh(t) {
      BookIsUniform(t);
    }
  }

  // ---------------------------------------------------------------- the provider's base

  /**
    A successful refresh stores, under USD/q, the provider's rate of q against the provider's
    own base. The code never checks that this base is USD.
   */
  lemma StoredMids(t: RateTables, id: Uuid, p: ProviderRates, started: int, s: Settings, q: Currency)
    requires RatesValid(t) && id !in t.refreshes && q != USD
    requires RefreshTables(t, id, Fetched(p), started, s).1 == Refreshed
    ensures var t' := RefreshTables(t, id, Fetched(p), started, s).0;
            && (USD, q) in t'.current && PairMidRate(p, q).Some?
            && var row := t'.current[(USD, q)];
               && row.mid == RoundRate(PairMidRate(p, q).value) && Some(row.mid as int) == QuotedMid(p, q)
               && row.buyBps == s.buyBps && row.sellBps == s.sellBps && row.lastUpdatedAt == started
  {
    hide RoundRate, QuotedMid;
    MidIsQuoted(p, q);
    var rows := RateRows(p, CANONICAL_PAIRS).rows;
    RowsOfThree(p);
    RowsFollow(p, CANONICAL_PAIRS);
    SuccessTables(t, id, rows, started, s);
    assert CANONICAL_PAIRS[0] == (USD, KES) && CANONICAL_PAIRS[1] == (USD, NGN) && CANONICAL_PAIRS[2] == (USD, EUR);
  }

  /** With any base but USD, the base itself is stored at par with the dollar. */
  lemma ForeignBaseStoredAtPar(t: RateTables, id: Uuid, p: ProviderRates, started: int, s: Settings)
    requires RatesValid(t) && id !in t.refreshes && p.base != USD
    requires RefreshTables(t, id, Fetched(p), started, s).1 == Refreshed
    ensures var t' := RefreshTables(t, id, Fetched(p), started, s).0;
            (USD, p.base) in t'.current && t'.current[(USD, p.base)].mid == RATE_ONE
  {
    hide RefreshTables, RatesValid, RoundRate;
    ParRate();
    StoredMids(t, id, p, started, s, p.base);
  }

  /** A decimal as a number. */
  ghost function Value(d: Dec): real {
    d.coeff as real / Pow10(d.places) as real
  }

  lemma ValueIsOne(d: Dec)
    ensures Value(d) == 1.0 <==> d.coeff == Pow10(d.places)
  {
    hide Pow10;
    assert Value(d) * Pow10(d.places) as real == d.coeff as real;
  }

  /** The provider's rate of a currency against its own base, the base included. */
  ghost function RateOf(p: ProviderRates, c: Currency): PositiveDec
    requires Complete(p)
  {
    AllRated(p, c);
    if c == p.base then Dec(1, 0) else p.rates[c]
  }

  lemma AllRated(p: ProviderRates, c: Currency)
    requires Complete(p)
    ensures PairMidRate(p, c).Some?
  {
    assert c in {USD, EUR, KES, NGN};
  }

  /** The response quotes in dollars: what is rounded for USD/q is q's rate over the dollar's rate. */
  ghost predicate QuotesDollars(p: ProviderRates)
    requires Complete(p)
  {
    forall q: Currency :: q != USD ==> Value(RateOf(p, q)) == Value(RateOf(p, q)) / Value(RateOf(p, USD))
  }

  /** The stored book is the dollar quotation the response implies, each rate to the nearest quantum. */
  ghost predicate StoresDollars(t: RateTables, p: ProviderRates)
    requires Complete(p)
  {
    forall q: Currency :: q != USD ==>
      (USD, q) in t.current && t.current[(USD, q)].mid == NearestMid(RateOf(p, q), RateOf(p, USD))
  }

  /** a / b at ten places, half-even. */
  ghost function NearestMid(a: PositiveDec, b: PositiveDec): int {
    RoundHalfEven(a.coeff * Pow10(b.places) * RATE_ONE, b.coeff * Pow10(a.places))
  }

  /** The dollar is the base, or the provider's rate of the dollar is one. */
  predicate DollarBased(p: ProviderRates) {
    p.base == USD || (USD in p.rates && p.rates[USD].coeff == Pow10(p.rates[USD].places))
  }

  lemma DollarIsOne(p: ProviderRates)
    requires Complete(p)
    ensures DollarBased(p) <==> RateOf(p, USD).coeff == Pow10(RateOf(p, USD).places)
  {
    AllRated(p, USD);
    assert Pow10(0) == 1;
  }

  /** Over a dollar rate of one, the quotation is the rate itself. */
  lemma OverOne(a: PositiveDec, one: PositiveDec)
    requires one.coeff == Pow10(one.places)
    ensures NearestMid(a, one) == RoundRate(a)
  {
    hide RoundHalfEven, Quantize;
    QuantizeIsRounding(a, RATE_PLACES);
    assert Pow10(10) == RATE_ONE;
    RoundScale(a.coeff * RATE_ONE, Pow10(a.places), one.coeff);
    Commute(a.coeff, RATE_ONE, one.coeff);
    Commute(1, Pow10(a.places), one.coeff);
  }

  lemma Commute(a: int, b: int, c: int)
    ensures (a * b) * c == (a * c) * b
    ensures b * c == c * b
  {
  }

  /** A dollar rate of at most ten places, unless it is one, is far enough from one to be seen. */
  lemma ParIsWrong(dollar: PositiveDec)
    requires dollar.places <= 10 && NearestMid(Dec(1, 0), dollar) == RATE_ONE
    ensures dollar.coeff == Pow10(dollar.places)
  {
    assert Pow10(0) == 1;
    var c, u := dollar.coeff, Pow10(dollar.places);
    Pow10AtMost(dollar.places, 10);
    assert Pow10(10) == RATE_ONE;
    RoundError(u * RATE_ONE, c);
  }

  lemma {:induction false} Pow10AtMost(a: nat, b: nat)
    requires a <= b
    ensures Pow10(a) <= Pow10(b)
  {
    if a < b {
      Pow10AtMost(a, b - 1);
    }
  }

  /**
    The response quotes in dollars exactly when the base is USD or the dollar's own rate is one,
    and the book is then the dollar quotation. For a dollar rate of at most ten places, the
    precision of the book, the stored book is right exactly then, too.
   */
  lemma DollarQuotationIff(t: RateTables, id: Uuid, p: ProviderRates, started: int, s: Settings)
    requires RatesValid(t) && id !in t.refreshes && Complete(p)
    requires RefreshTables(t, id, Fetched(p), started, s).1 == Refreshed
    ensures QuotesDollars(p) <==> DollarBased(p)
    ensures var t' := RefreshTables(t, id, Fetched(p), started, s).0;
            && (DollarBased(p) ==> StoresDollars(t', p))
            && (RateOf(p, USD).places <= 10 ==> (StoresDollars(t', p) <==> DollarBased(p)))
  {
    hide RefreshTables, RatesValid, RoundRate, NearestMid, DollarBased, Value, RateOf;
    DollarIsOne(p);
    QuotationValue(p);
    var t' := RefreshTables(t, id, Fetched(p), started, s).0;
    forall q: Currency | q != USD
      ensures (USD, q) in t'.current && t'.current[(USD, q)].mid == RoundRate(RateOf(p, q))
    {
      StoredRate(t, id, p, started, s, q);
    }
    if DollarBased(p) {
      forall q: Currency | q != USD
        ensures NearestMid(RateOf(p, q), RateOf(p, USD)) == RoundRate(RateOf(p, q))
      {
        OverOne(RateOf(p, q), RateOf(p, USD));
      }
    } else if RateOf(p, USD).places <= 10 && StoresDollars(t', p) {
      NotTheBase(p);
      ParRate();
      ParIsWrong(RateOf(p, USD));
    }
  }

  lemma StoredRate(t: RateTables, id: Uuid, p: ProviderRates, started: int, s: Settings, q: Currency)
    requires RatesValid(t) && id !in t.refreshes && Complete(p) && q != USD
    requires RefreshTables(t, id, Fetched(p), started, s).1 == Refreshed
    ensures var t' := RefreshTables(t, id, Fetched(p), started, s).0;
            (USD, q) in t'.current && t'.current[(USD, q)].mid == RoundRate(RateOf(p, q))
  {
    hide RefreshTables, RatesValid, RoundRate, QuotedMid;
    StoredMids(t, id, p, started, s, q);
  }

  lemma NotTheBase(p: ProviderRates)
    requires Complete(p) && !DollarBased(p)
    ensures p.base != USD && RateOf(p, p.base) == Dec(1, 0)
  {
  }

  lemma QuotationValue(p: ProviderRates)
    requires Complete(p)
    ensures QuotesDollars(p) <==> RateOf(p, USD).coeff == Pow10(RateOf(p, USD).places)
  {
    hide RateOf, Value, Pow10;
    ValueIsOne(RateOf(p, USD));
    ValuePositive(RateOf(p, USD));
    forall q: Currency | q != USD
      ensures Value(RateOf(p, q)) == Value(RateOf(p, q)) / Value(RateOf(p, USD)) <==> Value(RateOf(p, USD)) == 1.0
    {
      ValuePositive(RateOf(p, q));
      QuotientUnchanged(Value(RateOf(p, q)), Value(RateOf(p, USD)));
    }
    if QuotesDollars(p) {
      assert Value(RateOf(p, EUR)) == Value(RateOf(p, EUR)) / Value(RateOf(p, USD));
    }
  }

  lemma QuotientUnchanged(x: real, d: real)
    requires x > 0.0 && d > 0.0
    ensures x == x / d <==> d == 1.0
  {
    var y := x / d;
    assert y * d == x;
    if x == y {
      assert x * (d - 1.0) == 0.0;
    }
  }

  lemma ValuePositive(d: PositiveDec)
    ensures Value(d) > 0.0
  {
  }

  /** A euro-based response, complete and plausible. */
  const EURO_RATES: ProviderRates := ProviderRates(EUR, map[USD := Dec(11, 1), KES := Dec(140, 0), NGN := Dec(1650, 0)])

  /**
    Nothing stops a euro-based response: it refreshes the book, and a dollar that costs 0.9090909091
    euros is booked at one euro, a dollar worth 127.2727272727 shillings at 140.
   */
  lemma EuroBaseAccepted(t: RateTables, id: Uuid, started: int, s: Settings)
    requires RatesValid(t) && id !in t.refreshes
    ensures Complete(EURO_RATES) && !DollarBased(EURO_RATES)
    ensures var (t', outcome) := RefreshTables(t, id, Fetched(EURO_RATES), started, s);
            && outcome == Refreshed
            && (USD, EUR) in t'.current && (USD, KES) in t'.current
            && t'.current[(USD, EUR)].mid == 10_000_000_000
            && NearestMid(RateOf(EURO_RATES, EUR), RateOf(EURO_RATES, USD)) == 9_090_909_091
            && t'.current[(USD, KES)].mid == 1_400_000_000_000
            && NearestMid(RateOf(EURO_RATES, KES), RateOf(EURO_RATES, USD)) == 1_272_727_272_727
  {
    hide RefreshTables, RatesValid, RateRows;
    assert Pow10(0) == 1 && Pow10(1) == 10 && Pow10(10) == RATE_ONE;
    assert RoundRate(Dec(140, 0)) == 1_400_000_000_000;
    assert RoundRate(Dec(1650, 0)) == 16_500_000_000_000;
    RefreshesIff(t, id, EURO_RATES, started, s);
    StoredMids(t, id, EURO_RATES, started, s, EUR);
    StoredMids(t, id, EURO_RATES, started, s, KES);
  }

  lemma ParRate()
    ensures RoundRate(Dec(1, 0)) == RATE_ONE
  {
    assert Pow10(10) == RATE_ONE;
  }
}
