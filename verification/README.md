# Verified model of the FX engine

A Dafny 4.11 model of the engine's two hard cores and of the rate refreshes that join them:

* **Pricing.** Amounts are integers of 10^-2, rates integers of 10^-10. Rounding is half-even
  (roundTiesToEven, section 4.3.1 of IEEE 754-2008), and the default 28-digit decimal context is
  modelled too, so that products and quotients are rounded once by the context and again by
  `quantize`, as the code does.
* **Money movement.** `execute_quote`, `credit_balance` and `create_customer` as transactions at
  READ COMMITTED, cut into their SQL statements, any number interleaved, each able to fault before
  any statement. Unique-key inserts wait for an uncommitted rival, `FOR UPDATE` waits for the row
  lock and then reads the current row.
* **Rate refreshes.** The snapshot log, the `current_rates` cache and the advisory lock, alone and
  interleaved.

The sequential services are classes whose methods change fields in place, commit and roll back
(`Engine.Session`, `RateRefresh.RateSession`). Each is proved equal to a function on tables
(`Tables.ExecuteQuote`, `Tables.CreditBalance`, `Quoting.CreateQuote`, `RateRefresh.RefreshTables`).
The interleaved protocols are proved to refine the same functions, in commit order, so what is
proved of the functions about money, keys and rates holds of every schedule. Quotes are priced
and audited in `History`, over the same commits in any order, with any number of commits between
the statement that reads a quote's rate book and the commit that stores the quote.

| file | content |
|---|---|
| Money.dfy | half-even rounding, `quantize`, the 28-digit context |
| Pricing.dfy, PricingLaws.dfy | rate book, router, legs, quotes; exactness, monotonicity, splitting |
| NoArbitrage.dfy, TradeLosses.dfy | error bounds for rates, USD mid-value, runs of conversions, when a conversion loses |
| Tables.dfy, TablesLaws.dfy | the tables, each transaction alone, and the invariant it keeps |
| Protocol.dfy, ProtocolLaws.dfy | the interleaved transactions, statement by statement |
| SerialAnswers.dfy | every answer of the serial services, exactly when it is due; the round trip of a key |
| Serializability.dfy, Liveness.dfy, Race.dfy | commit-order serializability, deadlock freedom, termination, one winner |
| Answers.dfy, RefreshAnswers.dfy | every answer of every schedule, refusals included, and every recorded time, accounted for by a statement of the run |
| RateRefresh.dfy, RateRefreshLaws.dfy, RefreshProtocol.dfy | refreshes, alone and interleaved |
| Quoting.dfy, Engine.dfy, History.dfy | `create_quote` and the audit trail, the session, whole histories |
| Conversions.dfy | executed quotes as conversions of the balance rows, in any schedule |

`dafny verify dfyconfig.toml` checks the project.

Results that the code does not meet everywhere, each with an input that fails and the exact
condition under which the code does meet it:

* The documented design has the destination amount rounded once. The code rounds a product of 29 or
  more digits twice. `PricingLaws.AmountRoundedOnce` and `CrossRateRoundedOnce` say exactly when
  the two roundings amount to one (always below 10^16, respectively 10^8).
  `PricingLaws.AmountRoundedTwice` gives an amount and a rate for which a cent is lost, and
  `CrossRateRoundedTwice` two legs at the default spreads that compound to a quantum less.
* Positive spreads do not make every large trade lose. At a mid of 10^-10 and the default 50 basis
  points the spread is rounded away, and trades of any size are free
  (`TradeLosses.SpreadsWithoutLoss`). `TradeLosses.LargeTradesLoseIff`: storable trades above an
  explicit size lose if, and round trades of any size only if, `SpreadCosts` holds, an arithmetic
  test on mids and spreads that `SellCostsIff`, `BuyCostsIff` and `CrossCostsIff` prove equivalent
  to an executable rate below mid. For a sell leg it is mid times spread above 5000, or 5000 with
  an odd mid, in quanta of 10^-10 and basis points.
* `pair_mid_rate` assumes that the provider quotes against USD, but nothing checks it.
  `RateRefreshLaws.DollarQuotationIff`: the response is a dollar quotation if and only if the base
  is USD or the dollar's own rate is one, and then the book stores it (a dollar rate of more than
  ten places may differ from one by too little for the stored places to show);
  `RateRefreshLaws.EuroBaseAccepted` is a euro-based response that refreshes the book with wrong
  rates.
* A positive provider rate of at most half of 10^-10 is stored as zero and can then not be
  inverted. `Quoting.ReadinessIsQuotability`: with fresh rates a quote divides by zero if and only
  if its source is not USD and the source's mid is stored as zero, and overflows if and only if it
  prices and a number does not fit its column. `Quoting.TinyRateDividesByZero` reaches the division
  from the empty book.
* The documented design inserts the execution row after the credit; the code inserts it before the
  debit. The model follows the code.

Assumptions: identifiers drawn from uuid4 are fresh; the request hash is injective; the clock of
refreshes is monotone; sell spreads are below 10000 basis points and buy spreads at most 10000;
stored mids fit NUMERIC(20,10); request amounts are positive, as the schemas demand.

## Model

| member | source | states |
|---|---|---|
| Money.NearestEven | app/utils/money.py:29-36 | the rounding used for money and rates is exactly IEEE half-even: no integer is nearer and ties go to the even one |
| Money.RoundMonotone | app/utils/money.py:29-36 | rounding never reorders values |
| Money.RoundTwice | app/services/quotes.py:80-81 | rounding on a grid finer than 1/den first, then to integers, is one rounding of num/den |
| Money.RoundMoneyIdentity | app/services/executions.py:214-229 | rounding a balance that is already in cents changes nothing |
| Money.ContextError | app/services/quotes.py:116-125 | the 28-digit context moves a product by at most half a unit of its last kept digit, and not at all below 10^28 |
| Money.ContextIsNearest | app/services/quotes.py:116-125 | the context's result is the nearest-even number of at most 28 digits |
| Money.ContextMonotone | app/services/quotes.py:116-125 | context rounding never reorders products, across digit counts too |
| Money.QuotientDigits | app/services/quotes.py:80-81 | the context's quotient keeps exactly 28 significant digits |
| Money.QuotientThenQuantize | app/services/quotes.py:80-81 | for every priced rate, the 28-digit quotient quantized to 10 places is the half-even rounding of the true quotient |
| Money.ContextThenQuantize | app/services/quotes.py:116-125 | for every product below 10^37, context and quantize together are one rounding if and only if the product does not misround |
| Pricing.RouterCorrect | app/services/quotes.py:53-66 | for every book a route is found if and only if one exists; it is a route, and none is preferred to it (direct, USD, EUR) |
| Pricing.LegMatchesHop | app/services/quotes.py:69-83 | the row found for a hop is priced in a direction it has; only inverting a zero mid fails |
| Pricing.LegsNeverMismatch | app/services/quotes.py:110-114 | on a routed book the missing-rate and mismatch branches are unreachable; pricing fails exactly when some hop inverts a zero mid |
| Pricing.QuotePricingErrors | app/services/quotes.py:105-125 | pricing a quote fails only with no route, which happens exactly when none exists, or on a zero mid |
| PricingLaws.SellRateExact | app/services/quotes.py:74-77 | a sell leg is the single half-even rounding of mid times (10000 - s)/10000 |
| PricingLaws.BuyRateExact | app/services/quotes.py:78-82 | a buy leg is the single half-even rounding of 10^24 / (mid * (10000 + b)), despite two roundings |
| PricingLaws.LegBounds | app/services/quotes.py:69-83 | no leg rate exceeds 10^10, and a sell leg never exceeds its mid |
| PricingLaws.PricedLegReprices | app/services/quotes.py:69-83 | a priced leg agrees with its own mid, spread and side, and keeps the row's mid, snapshot and the spread of its side |
| PricingLaws.QuoteTerms | app/services/quotes.py:105-125 | everything in a quote in terms of book and request: the preferred route, each leg's row, side, spread and once-rounded rate, compound rate, spread summary and amounts |
| PricingLaws.RoutedLegs | app/services/quotes.py:107-114 | leg i is the row found for hop i, priced from route[i] to route[i+1] |
| PricingLaws.SingleLegRate | app/services/quotes.py:116-120 | the rate of a direct quote is its leg's rate |
| PricingLaws.TwoLegRate | app/services/quotes.py:116-120 | the rate of a routed quote is the rounded context product of its leg rates |
| PricingLaws.SpreadsAddUp | app/services/quotes.py:121 | the spread summary adds up the legs' spreads |
| PricingLaws.CrossRateRoundedOnce | app/services/quotes.py:116-120 | the compound rate is one rounding of the product if and only if it does not misround; below 10^8 it never does |
| PricingLaws.AmountRoundedOnce | app/services/quotes.py:122-125 | the destination amount is one rounding of amount times rate if and only if it does not misround; below 10^16 it never does |
| PricingLaws.CrossRateRoundedTwice | app/services/quotes.py:116-120 | two legs of a star-shaped book, at the default spreads, whose compound rate is a quantum below the nearest one |
| PricingLaws.AmountRoundedTwice | app/services/quotes.py:122-125 | a storable amount and rate whose destination amount is a cent below the nearest cent |
| PricingLaws.SellAntitone | app/services/quotes.py:74-77 | a wider sell spread never raises the leg rate |
| PricingLaws.BuyAntitone | app/services/quotes.py:78-82 | a wider buy spread never raises the leg rate |
| PricingLaws.CompoundMonotone | app/services/quotes.py:116-118 | lower leg rates never compound to a higher rate, for any number of legs |
| PricingLaws.DestinationMonotone | app/services/quotes.py:122-125 | the destination amount is monotone in amount and rate |
| PricingLaws.MoneyMonotone | app/utils/money.py:29-31 | rounding to cents is monotone over decimals of any number of places |
| PricingLaws.QuoteMonotone | app/services/quotes.py:69-125 | on any book, more source never buys less, and no wider spread ever buys more, through routing, legs, product and rounding |
| PricingLaws.SumOfPartsError | app/services/quotes.py:122-125 | n quotes at one rate are within n half-cents, and the context's share, of the exact total |
| PricingLaws.SplittingNearlyAdditive | app/services/quotes.py:122-125 | splitting an amount into n quotes changes the total received by at most n+1 half-cents, for every n and every storable total |
| NoArbitrage.LegRateError | app/services/quotes.py:69-83 | a leg rate is within half a quantum of mid times spread factor |
| NoArbitrage.CompoundRateError | app/services/quotes.py:107-120 | a routed rate differs from the unrounded compound of mids and spreads by at most an explicit function of the leg rates and the quantum |
| NoArbitrage.RateCap | app/services/quotes.py:107-120 | an executable rate exceeds the mid cross rate by at most the rounding slack |
| NoArbitrage.DestinationCap | app/services/quotes.py:122-125 | the most cents an amount can buy at a rate |
| NoArbitrage.StarQuotes | app/services/quotes.py:57-66 | on the star book the route is direct against USD and through USD otherwise |
| NoArbitrage.StarLegs | app/services/quotes.py:105-125 | on the star book every pair is priced, with a mid rate equal to the ratio of the currencies' USD weights |
| NoArbitrage.TradeGainsAtMostRounding | app/services/executions.py:205-229 | one executed quote raises the customer's USD mid-value by at most an explicit rounding term |
| NoArbitrage.NoArbitrage | app/services/quotes.py:69-125 | any sequence of conversions at one book, of any length, gains at most the sum of its rounding terms |
| TradeLosses.LosesIff | app/services/executions.py:205-229 | a trade loses mid-value exactly when it buys less than its amount is worth at mid |
| TradeLosses.TradeLosesAboveThreshold | app/services/executions.py:205-229 | above an explicit size, any trade whose rate is below mid by more than the context's share strictly loses |
| TradeLosses.StorableTradeLoses | app/services/executions.py:205-229 | any storable trade whose rate is below mid strictly loses above an explicit size |
| TradeLosses.RoundTradeLosesIff | app/services/executions.py:205-229 | round amounts of unbounded size lose if and only if the executable rate is below mid |
| TradeLosses.SellCostsIff | app/services/quotes.py:74-77 | a sell leg is below its mid if and only if mid times spread exceeds 5000, or equals it with an odd mid |
| TradeLosses.BuyCostsIff | app/services/quotes.py:78-82 | a buy leg is below the inverse of its mid if and only if a test on mid and spread holds |
| TradeLosses.CrossCostsIff | app/services/quotes.py:107-120 | the product of two legs rounds below the mid cross rate if and only if a test on mids and spreads holds |
| TradeLosses.SpreadCostsIff | app/services/quotes.py:69-120 | on the star book an executable rate is below the mid cross rate if and only if the book's own test says so |
| TradeLosses.LargeTradesLoseIff | app/services/quotes.py:69-125 | if the test holds every storable trade above an explicit size loses; round trades of any size lose if and only if it holds |
| TradeLosses.SpreadsWithoutLoss | app/services/quotes.py:74-77 | a book with positive spreads at which trades of unbounded size change no mid-value |
| Conversions.StoredQuotePricedAt | app/services/quotes.py:122-155 | a stored quote carries the terms of the book it was priced on |
| Conversions.SettleIsTrade | app/services/executions.py:205-229 | executing a quote moves its customer's balance rows as the trade does, and nobody else's |
| Conversions.LogIsTrades | app/services/executions.py:205-229 | after any log the rows of a customer who only converts are the outcome of its trades in commit order |
| Conversions.NoArbitrageInAnySchedule | app/services/executions.py:112-270 | in any schedule with faults anywhere, a customer who only converts at one book gains at most the sum of its rounding terms in the committed balances |
| TablesLaws.CacheEqualsLedger | app/repositories/ledger.py:46-62 | the reconciliation query returns exactly the cached balance, which is not negative |
| TablesLaws.UpdateExact | app/services/executions.py:214-229 | an updated balance is the old one plus or minus the entry; its rounding is the identity |
| TablesLaws.PostKeeps | app/repositories/ledger.py:18-43 | posting an entry its account can bear keeps cache equal to ledger and every ledger prefix solvent |
| TablesLaws.ZeroAmountNeverExecutes | app/repositories/ledger.py:29-32 | a quote with an amount rounded to zero never executes and leaves the tables unchanged |
| TablesLaws.ExecutableIff | app/services/executions.py:121-199 | an execution passes every check if and only if key and quote are unused, time, funds and amounts are in order |
| SerialAnswers.ExecuteAnswers | app/services/executions.py:121-238 | each answer of an execution exactly when it is due, in terms of the ledger and the stored rows: key, hash, quote, sixty seconds, funds, amounts, column width; only a completed one changes a table |
| SerialAnswers.ReplayRoundTrip | app/services/executions.py:129-150 | once completed under a key, whatever is committed later, the key answers the same hash with the first response and any other with a conflict, and changes nothing |
| SerialAnswers.CreditAnswers | app/services/customers.py:40-70 | each answer of a credit exactly when it is due; only a credit changes a table |
| TablesLaws.SettleMoves | app/services/executions.py:201-233 | an execution moves exactly the quoted amounts, appends debit then credit, and responds with the new balances |
| TablesLaws.SettleTables | app/services/executions.py:201-238 | the effect of an execution on each table, the completed key row included |
| TablesLaws.SettleKeeps | app/services/executions.py:169-238 | an execution keeps the whole table invariant, with at most one execution per quote and its two entries |
| TablesLaws.CreditEffect | app/services/customers.py:40-70 | a credit goes through if and only if customer and rounded amount are in order, and then adds exactly that amount to balance and ledger |
| TablesLaws.CreditKeeps | app/services/customers.py:40-70 | a credit keeps the whole table invariant |
| TablesLaws.CreateCustomerRows | app/services/customers.py:19-25 | a new customer owns all four balances at zero from the commit that makes it visible |
| TablesLaws.CreateCustomerKeeps | app/services/customers.py:19-25 | creating a customer keeps the whole table invariant |
| TablesLaws.StoreQuoteKeeps | app/services/quotes.py:127-155 | storing a quote keeps the whole table invariant |
| TablesLaws.Conservation | app/repositories/ledger.py:46-62 | the balances of a currency over all customers add up to adjustments plus execution credits minus execution debits |
| ProtocolLaws.CommitStable | app/services/executions.py:152-254 | a commit leaves everything any other running transaction relies on unchanged |
| ProtocolLaws.ClaimGood | app/services/executions.py:129-165 | reading and claiming the key: waits exactly for a pending rival, and keeps the transaction's invariant |
| ProtocolLaws.LockQuoteGood | app/services/executions.py:169-172 | locking the quote: waits exactly for the holder of its lock, and keeps the invariant |
| ProtocolLaws.CheckGood | app/services/executions.py:173-200 | the executed, expiry and funds checks never wait and keep the invariant |
| ProtocolLaws.EnsureGood | app/repositories/balances.py:13-24 | ensuring a quote's balance row never inserts, and waits exactly for a transaction that has written the row and not committed |
| ProtocolLaws.LockOrderIsAlphabetical | app/services/executions.py:188-194 | rows are locked in the alphabetical order of the currency codes |
| ProtocolLaws.LockRowGood | app/repositories/balances.py:37-43 | locking a balance row waits exactly for its holder and reads the committed value |
| ProtocolLaws.NoExecutionPending | app/db/models.py:189-196 | under the quote lock no rival execution of the quote can be pending |
| ProtocolLaws.WriteGood | app/services/executions.py:201-225 | inserting the execution and both entries never waits and keeps the invariant |
| ProtocolLaws.CommitNotRefused | app/services/executions.py:169-229 | what reaches the commit would pass every check of the serial execution on the tables of that moment |
| ProtocolLaws.CommitIsSettle | app/services/executions.py:230-238 | committing the private writes leaves exactly the tables and the response of the serial execution |
| ProtocolLaws.CreditGood | app/services/customers.py:40-69 | the statements of a credit wait exactly for the row lock, or for an uncommitted write of the row, and keep the invariant |
| ProtocolLaws.CommitIsCredit | app/services/customers.py:68-70 | committing a credit is the serial credit |
| ProtocolLaws.CustomerGood | app/repositories/balances.py:27-29 | inserting a new customer's rows never waits |
| ProtocolLaws.CommitIsCreate | app/services/customers.py:19-25 | committing a new customer is the serial creation |
| Serializability.Serializable | app/services/executions.py:112-270 | after any schedule with faults anywhere, the tables and every answer are those of running only the committed transactions one at a time in commit order, each logged once |
| Serializability.AlwaysValid | app/db/models.py:231-238 | in every reachable state, and at every point of its serial history, cache equals ledger, prefixes are solvent and executions settled |
| Serializability.OneAnswerPerKey | app/services/executions.py:129-165 | all successful responses ever given for a key are one payload, given only to one request hash |
| Serializability.RejectedLeavesNothing | app/services/executions.py:255-256 | a rolled-back transaction left no row in any table, key rows included, no entry in the log, no pending write and no lock |
| Serializability.KeyReclaimable | app/services/executions.py:152-165 | the key of a rolled-back execution is claimed by the next transaction that asks for it, unless someone else committed or holds it |
| Serializability.FirstExecution | app/services/executions.py:173-254 | every committed execution found its quote unexecuted and unexpired, and answered its terms |
| Answers.EveryAnswerIsSerial | app/services/executions.py:112-270 | in any schedule, a transaction that has ended was struck by a fault or ended at a statement of its own, with the answer it would get running alone on the tables committed at that moment |
| Answers.OnlyFaultsFail | app/services/executions.py:255-256 | a transaction fails exactly when a fault strikes it; a new customer is never refused |
| Answers.ChecksAreReal | app/services/executions.py:179-184 | every execution past its expiry check made it at an action of the schedule, at the clock it recorded, before created_at plus 60 seconds |
| Answers.ExpiredAtTheCheck | app/services/executions.py:179-184 | an execution that comes to its check 60 seconds after created_at, or later, ends with quote_expired |
| Answers.CommitsAreReal | app/services/executions.py:237-238 | every log entry was written by the commit statement of its transaction, in log order, at the clock it carries |
| Answers.ExecutedInTime | app/services/executions.py:173-238 | for every committed execution one action was its expiry check, by the clock and strictly before created_at plus 60 seconds, and a later one its commit, which found the quote unexecuted |
| Answers.CreditDecided | app/services/customers.py:40-70 | a credit that ends without a fault is told by its lookup whether the customer exists, and else by the balance committed when it locked its row: credited, not positive, or too large |
| Answers.RetriesAreReplayed | app/services/executions.py:129-165 | in any schedule, an execution begun after a success under its key and ended without a fault is answered with the first payload, or with a conflict if its hash differs |
| Liveness.HolderIsAhead | app/services/executions.py:186-194 | whoever holds what a transaction waits for does not wait, or waits for something later in the lock order |
| Liveness.RowHolder | app/services/executions.py:188-194 | row locks are taken in the order of the currency codes |
| Liveness.RowWriter | app/repositories/balances.py:13-24 | whoever has written a balance row and not committed waits for nobody |
| Liveness.DeadlockFree | app/services/executions.py:188-194 | in every reachable state with an unfinished transaction some unfinished transaction can take its next statement |
| Liveness.SchedulesAreFinite | app/services/executions.py:112-270 | no schedule of running transactions is longer than the statements they had left |
| Liveness.CanFinish | app/services/executions.py:112-270 | from every reachable state all transactions can be run to their end without a fault |
| Race.OpenStep | app/services/executions.py:129-229 | until someone commits, no check stops a funded attempt on an executable quote |
| Race.LateStep | app/services/executions.py:173-178 | after a commit every other attempt can only be told that the quote was executed |
| Race.ExactlyOneWinner | app/services/executions.py:169-184 | any number of concurrent attempts under distinct unused keys end with one success and quote_already_executed for all others |
| RateRefresh.RateSession.StorePairRows | app/repositories/rates.py:112-158 | the loop appends one snapshot and upserts one row per pair, in order |
| RateRefresh.RateSession.RecordFailedRefresh | app/services/rates.py:244-256 | a failure rolls back and commits only the failed attempt |
| RateRefresh.RateSession.RefreshRates | app/services/rates.py:122-143 | a refresh commits exactly its specified tables; an uncaught crash commits nothing |
| RateRefreshLaws.RowsFollow | app/services/rates.py:154-161 | the rows of a refresh are the provider's rates of the pairs, rounded to 10 places |
| RateRefreshLaws.RefreshesIff | app/services/rates.py:101-143 | a response refreshes the book if and only if KES, NGN and EUR have rates that fit their column; completeness guarantees the rates exist |
| RateRefreshLaws.RefreshOutcomes | app/services/rates.py:133-143 | each outcome of a refresh exactly when it is due, in terms of the provider's response, and the row each leaves |
| RateRefreshLaws.FreshnessWindow | app/services/rates.py:216-227 | on any tables, rates are fresh exactly if some row is within the window, edge included; on the book of one refresh exactly if all are |
| RateRefreshLaws.RefreshKeeps | app/services/rates.py:122-187 | after any refresh the book is empty or exactly the newest refresh, pinned to the newest snapshots; a refresh that does not succeed changes neither cache nor log |
| RateRefreshLaws.LatestIsNewest | app/repositories/rates.py:97-109 | the gate's timestamp is the maximum over the rows and belongs to one of them |
| RateRefreshLaws.BookIsUniform | app/repositories/rates.py:104-109 | the newest timestamp is every row's timestamp, so one test decides for all rows |
| RateRefreshLaws.RefreshAdvances | app/services/rates.py:129-136 | a refresh started no earlier than the book never takes the book back |
| RateRefreshLaws.StoredMids | app/services/rates.py:110-119 | the row USD/q holds the provider's rate of q against the provider's own base, rounded, with the settings' spreads and the refresh's time |
| RateRefreshLaws.ForeignBaseStoredAtPar | app/services/rates.py:110-119 | any base but USD is stored at par with USD |
| RateRefreshLaws.DollarQuotationIff | app/services/rates.py:110-119 | a response quotes in dollars if and only if the base is USD or the dollar's rate is one; the stored book is then the dollar quotation to the nearest quantum, and for a dollar rate of at most ten places only then |
| RateRefreshLaws.EuroBaseAccepted | app/services/rates.py:110-143 | a complete euro-based response refreshes the book with rates that are not its dollar quotation |
| RefreshProtocol.CommitIsRefresh | app/services/rates.py:146-187 | committing the staged rows is the serial refresh |
| RefreshProtocol.RefreshesSerialize | app/services/rates.py:122-143 | however refreshes interleave and fault, the tables and every outcome are those of the committed attempts in commit order, each logged once with its fetch and clock reading; the book is one refresh |
| RefreshProtocol.BookNeverGoesBack | app/services/rates.py:129-132 | last_updated_at never goes backwards between any two points of a run |
| RefreshAnswers.RefreshTimesAreReal | app/services/rates.py:131-143 | every committed attempt carries its own reading of the clock, made under the lock before its commit; a successful one leaves the book at that reading |
| RefreshAnswers.OutcomesAreDeserved | app/services/rates.py:133-143 | an attempt that has ended was struck by a fault or ended as its fetch deserves |
| RefreshAnswers.LockSpan | app/services/rates.py:131 | the advisory lock is held from its statement to the commit or rollback; an attempt about to record its failure has released it |
| RefreshAnswers.RefreshesNeverStick | app/services/rates.py:131 | in every reachable state with an attempt under way some attempt can take its next statement |
| Quoting.StoredTerms | app/services/quotes.py:96-155 | what create_quote stores: the request's customer and currencies, the priced terms, and an expiry 60 seconds after the clock of the insert; nothing when it refuses |
| Quoting.QuoteLivesSixtySeconds | app/services/executions.py:179-184 | a stored, unspent quote is refused as expired exactly from 60 seconds after its creation on; before, it executes exactly if covered and in order |
| Quoting.GateIsReadiness | app/services/rates.py:216-227 | the freshness gate of create_quote refuses exactly when the readiness status is not fresh |
| Quoting.ReadinessIsQuotability | app/services/quotes.py:96-125 | refused for rates exactly when not fresh; with fresh rates every pair routes, never through EUR, and fails exactly on inverting a source rate stored as zero or on a number past its column |
| Quoting.TinyRateDividesByZero | app/services/rates.py:154-161 | a complete response of positive rates after which a fresh book cannot quote out of KES |
| Quoting.AuditStable | app/db/models.py:295-315 | later snapshots never disturb the audit of a stored quote |
| Quoting.NewQuoteAudits | app/services/quotes.py:105-155 | every stored quote re-prices from its legs and snapshots to its own rate and amount |
| Quoting.CreateQuoteKeeps | app/services/quotes.py:87-155 | create_quote keeps the table invariant and every audit |
| Engine.Session.EnsureBalanceRow | app/repositories/balances.py:13-24 | a missing balance row is inserted at zero, an existing one left alone |
| Engine.Session.EnsureAllBalances | app/repositories/balances.py:27-29 | the loop ensures a row for every currency |
| Engine.Session.AppendEntry | app/repositories/ledger.py:18-43 | an entry is appended if and only if its amount is positive |
| Engine.Session.CreateCustomerRow | app/services/customers.py:19-25 | customer and four balances are committed together |
| Engine.Session.CreditAccount | app/services/customers.py:40-70 | the in-place credit is the specified credit, and rolls back when refused |
| Engine.Session.GetBalances | app/repositories/balances.py:46-50 | a known customer's four balances are each what its ledger adds up to; nothing is committed |
| Engine.Session.PriceRoute | app/services/quotes.py:107-114 | the leg loop prices every hop in order and stops at the first failure |
| Engine.Session.CompoundLegs | app/services/quotes.py:116-121 | the product loop computes the compound rate and the spread summary |
| Engine.Session.CreateQuote | app/services/quotes.py:87-169 | the in-place create_quote commits exactly the specified quote and legs, or nothing |
| Engine.Session.Execute | app/services/executions.py:112-270 | the in-place execution is the specified one; a fault before any of its statements leaves the committed tables as they were, and always rolls back an otherwise successful execution |
| Engine.Session.Settlement | app/services/executions.py:186-238 | row locks, funds check and transfer: all of them or none |
| Engine.Session.Transfer | app/services/executions.py:201-238 | execution row, debit, hook, credit, response: all of them or none |
| Engine.Session.Complete | app/services/executions.py:230-238 | the response is stored under the key in the same commit |
| History.EventKeeps | app/db/models.py:295-315 | every movement, quote and refresh keeps ledger, book and audits, and rewrites no quote |
| History.HistorySound | app/services/quotes.py:127-155 | after any history every stored quote audits to its own rate and amount, whatever was committed between its reading of the book and its own commit, or later |
| History.QuotesImmutable | app/db/models.py:295-315 | a stored quote and its legs are the same at every later point |
| History.SettledOnQuotedTerms | app/services/executions.py:201-225 | an execution is settled by exactly one debit and one credit on the terms its quote was stored with, and is the only one of its quote |

## Left out

- HTTP routes, request schemas, middleware, the error document format, settings loading, logs, counters and timers: no effect on the tables.
- The network side of `RateProvider.fetch`, JSON and timestamp parsing: a fetch is an arbitrary error or an arbitrary base with positive rates.
- SHA-256 and JSON encoding of the request: the hash is the request itself.
- Provider name, payload hash, provider timestamp, status code, durations and database-generated timestamps: columns no other step reads.
- Foreign-key share locks: they conflict with no lock the modelled transactions take on each other's rows.
- The SQLAlchemy session: objects are not cached across statements, because the object read before the row lock is discarded.
- `create_quote` in the interleavings is one commit of any well-formed quote; that it issues several inserts is not modelled, as they are on fresh rows that nobody waits for. In the histories it is two events, the reading of the book and the commit.
- `get_balances` in the interleavings: it inserts nothing for a visible customer (`Engine.RowsAlreadyThere`) and never commits.
- `ensure_fresh_rates`: the same status as `rates_freshness_status`, which is modelled; `create_quote` does not call it.
- A decimal that `quantize` cannot hold in 28 digits and a number past its NUMERIC column are one numeric error in quotes and credits, where neither commits anything.
