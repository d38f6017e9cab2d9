# Billing gateway: a verified model

This project models the core of a billing gateway for LLM traffic: how a request's token usage
becomes an amount of money, how a request is admitted against a budget, and how it is settled.
Amounts are integers, in nano-USD. Four linked parts are modelled.

* **Pricing** (`Money`, `Decimal`, `Usage`, `Windows`, `Sorting`, `Rules`, `Quotes`, `Receipts`,
  `Allowance`, `PriceList`). Reported usage is brought to one canonical shape, a context tier and
  at most one time-of-day window are chosen, each token class is priced with a single round-up,
  and a binary search inverts the price into the largest affordable output. Big-integer products
  are `int`; every `int64` addition, subtraction and comparison with the 64-bit edge is explicit.
* **Billing** (`Ledger`, `Drain`, `Settlement`, `Ceilings`, `Protocol`, `Runs`, `Overdrafts`,
  `RequestLogs`, `BillingStore`). One user's plan windows, top-ups and log rows are a value `Ledger`; every
  database transaction is one step on it. `Protocol` is the state machine around it: clock,
  resets, top-ups and plans changing, admissions under the generation guard, direct saves, the
  outbox with its buffer, workers and retries. The whole-run theorems are in `Runs`. The classes of
  `RequestLogs` and `BillingStore` do the same work step by step on mutable fields and are proved
  against those functions.
* **Rate limiting and the guard** (`SlidingWindow`, `RateLimiter`, `RedisLimiter`, `Guard`). The
  meaning of the limiter is a filter over the whole admission history; the pruned lists, the sweep
  and the Redis script are held to it.
* **Reassembly and translation** (`ToolCalls`, `Translator`). Streaming tool-call fragments are
  put together again, and OpenAI message lists become Anthropic conversations.

## The main results

* *No overdraft* (`Runs.NoOverdraft`): when one user's generations are serialised from admission
  to committed settlement, every settlement's top-up charge is drawn in full, for any plan, any
  rules, and across period rollovers and usage resets. It follows from a bound that holds in
  every run (`Runs.ShortfallIsBoundedByExposure`): whatever the interleaving, a charge misses the
  top-ups by at most what other requests spent and drew, plus what lapsed, between its admission
  and its commit, unless the plan was changed meanwhile or the entry was charged to an earlier
  budget period than it was admitted in. For each hypothesis of the theorem `Overdrafts` holds a
  run that misses only it and overdraws: an entry created before its admission (the agent loop
  and transcription), requests admitted against one balance (batch clients), a commit deferred
  to the outbox, a row without a ceiling saved meanwhile, a lapsing top-up, an edited plan.
  `Settlement.DrawnInFullExactly` says of every settlement exactly when it is drawn in full.
* *Charged at most once, nothing lost silently* over any run of saves, commits reported as
  failures, retries and replays. The row of an id is that of the first entry committed under it.
* *Earliest expiry first is exact and optimal* for every later instant.
* *The binary search is exact*, and the admission built on it grants the largest affordable output.
* *The limiter is safe at every instant*, forgets nothing that counts, and refuses nothing needlessly.
  The Redis script is the same window cut at whole milliseconds, for all distinct instants: it
  gives the same verdicts at given instants, whatever the limits, exactly when no two of them are
  a minute of whole milliseconds apart with the later one earlier within its millisecond, and in
  any case it keeps its limits over every 59.999 seconds.
* *Dialects, order and rounding do not matter*: the same reality costs the same, every quote is
  independent of configuration order, and a receipt is within k nano-USD of the exact price.

## Where the code and its documentation differ

The code is followed.

* A per-lifetime cache rate configured as zero inherits its fallback's rate (`pricing/pricing.go:72`
  skips zeros): `PriceList.InheritedIsFallback`.
* A receipt records a window's multiplier but not the classes it applied to, so it re-derives the
  charge only under a window for every class: `Receipts.ReceiptRederives`,
  `Receipts.ClassRederivesExactly` and `Receipts.PartialWindowDoesNotRederive`.
* `MaxOutputTokensAt` computes `high-low+1` in 64 bits, so asking for MaxInt64 tokens fails instead
  of answering: `Allowance.MaxOutputIsExact`.
* The price list shows the unscaled rate when the scaled one leaves 64 bits. It then quotes less
  than is charged exactly when one token can be charged for at all:
  `PriceList.ListNeverUnderQuotes` and `PriceList.OneTokenIsUnderQuoted`.
* `NextBoundaryAfter` looks at whole minutes of eight days. A reported boundary is the first change
  exactly when no effective date before it changes the selection (`Windows.NextBoundaryIsSound`);
  an answer of "no change" is final exactly when no such date does, if no date lies after the
  1441st scanned minute (`Windows.NoBoundaryMeansNeverAgain`), and 1441 is the last such minute
  (`Windows.ScanHorizon`). Up to there, dates on whole minutes break neither answer. A window that starts
  inside a minute is reported late (`Windows.OffMinuteDateIsSeenLate`), and one that also ends
  inside it is never reported (`Windows.ShortWindowIsNeverSeen`).
* A log id may come from a client header (`proxy/handler.go:194-210`). A second entry under a
  known id is acknowledged, recorded nowhere and counted as no loss: `Runs.StepRows` and
  `Runs.FirstEntryKeepsItsRow`.
* The top-up charge is the growth of a window's overage only for entries that the window counts.
  When usage is reset between an entry's creation and its settlement, the top-ups still pay for
  what exceeds the unspent budget, and no window's overage grows:
  `Settlement.StaleEntryIsChargedAnyway`; `Settlement.ChargesAreGrowthExactly` says exactly when.
* The Redis limiter forgets an admission up to a millisecond before the in-memory one does
  (`RedisLimiter.UnalignedInstantsDiffer`, `RedisLimiter.RedisAgreesExactly`), and counts
  requests at the same nanosecond once (`RedisLimiter.EqualInstantsMerge`).
* `BudgetAvailability.Available` is called the exact amount one generation may consume
  (`db/billing_atomic.go:41`). It is that unless a window is overdrawn while top-ups are left:
  what top-ups paid for earlier then counts once as spent and once as used, and less is granted
  than could be covered: `Ledger.AvailabilityIsExact` and `Ledger.OverageCountsTwice`.
* The comment at `proxy/handler.go:115` calls the guard redundant for batch clients because every
  request is admitted individually; `Overdrafts.SharedBalanceOverdraws` is a pair of requests, each within
  the balance it was admitted against, whose second charge is not covered at all.
* A lapsed Redis holder disturbs its successor's lease exactly when the two share their request ID:
  `Guard.DisturbedExactlyByTheSameId` and `Guard.SameIdLetsALapsedHolderIn`.

## Model

| member | source | states |
|---|---|---|
| Money.Add | money/money.go:142-150 | checked addition succeeds exactly when the true sum fits int64 |
| Money.Sub | money/money.go:152-157 | the true difference exactly when it fits and the subtrahend is not MinInt64 |
| Money.CeilDivIsLeast | money/money.go:210-220 | the round-up quotient is the least integer that reaches the numerator |
| Money.CeilQuotient | money/money.go:210-220 | that quotient, or an overflow error exactly when it exceeds int64 |
| Money.CostForTokensScaled | money/money.go:172-191 | every input is answered: which argument error comes first, the exact cost, or overflow |
| Money.CostWithinOneNano | money/money.go:159-191 | a price is never below the exact rational price and less than one nano-USD above it |
| Money.CostMonotone | money/money.go:172-191 | more tokens at a dearer rate never cost less |
| Money.CostNearlyAdditive | money/money.go:159-191 | splitting tokens over two prices costs the same or one nano-USD more |
| Money.CostDependsOnRatio | money/money.go:172-191 | equal ratios num/den give equal answers, errors included |
| Money.MulDivCeil | money/money.go:193-208 | the least amount that covers units times rate over the divisor, with every error case |
| Decimal.ParseUSD | money/money.go:64-111 | the loop-based reader accepts and refuses exactly what the grammar `ParsedUSD` does, and answers are non-negative int64 |
| Decimal.String | money/money.go:121-131 | the printer meets `Printed`, with a sign for negative amounts |
| Decimal.TrailingZeroes | money/money.go:133-140 | the counting loop counts the trailing zeroes, at most nine |
| Decimal.ParsePrinted | money/money.go:64-131 | reading what was printed gives the amount back for every amount up to MaxInt64, and the right error beyond |
| Decimal.PrintingNormalises | money/money.go:64-131 | parse, print and parse again equals parse, for every text |
| Decimal.PrintedIsInjective | money/money.go:121-140 | different amounts print differently, negative ones included, for every amount but MinInt64, whose printing does not end |
| Usage.IsNegativeMeansAField | pricing/usage.go:139-146 | the scan over the classes and the total finds a negative field exactly when there is one |
| Usage.NormalizedUsageMeaning | pricing/usage.go:150-210 | every field of the result in each branch, clamps included, and exactly when which anomaly is reported |
| Usage.NormalizedUsageIsConserved | pricing/usage.go:150-210 | no negative field and fresh + cached = prompt total, exactly when the 64-bit sums fit |
| Usage.DialectsAgree | pricing/usage.go:150-190 | one reality reported inclusively or exclusively normalises to the same usage without an anomaly |
| Usage.AnthropicWritesAreCountedOnce | proxy/handler.go:2396-2415 | cache writes total the larger of the flat and the split report, exactly while the subtraction does not wrap |
| Usage.OpenAIWritesAreCountedOnce | proxy/translator.go:131-145 | the same for the OpenAI-dialect reader |
| Windows.CoverageIsAnArc | pricing/window.go:112-119 | a window covers a minute exactly when it lies within its span on the day's circle, across midnight or not |
| Windows.MaskIsSumOfDays | pricing/window.go:121-125 | the weekday mask is the sum of its days' bits, Monday being 1 and Sunday 64 |
| Windows.WeekdaysAreAnchored | pricing/window.go:121-125 | weekdays are the calendar's, and change at midnight UTC only |
| Windows.SelectWindow | pricing/window.go:147-161 | the scan that keeps the best match so far answers `WindowFor` |
| Windows.WindowForIsBest | pricing/window.go:143-161 | the selected window matches and no other match beats it; none is selected exactly when none matches |
| Windows.WindowForIgnoresOrder | pricing/window.go:143-161 | the selection is the same for every permutation of the windows |
| Windows.WindowForIsFirstMatch | pricing/window.go:143-161 | in sorted order the selection is the first match |
| Windows.NextBoundaryAfter | pricing/window.go:167-181 | the scan answers the first of 11520 minute boundaries with another window, or the zero time if there is none |
| Windows.NextBoundaryIsSound | pricing/window.go:163-181 | a reported boundary selects another window; the selection is constant on every instant before it if and only if no effective date in between changes it, so always when those dates fall on whole minutes |
| Windows.SteadyExactly | pricing/window.go:163-181 | where n scanned minutes show no change, there is none up to the end of the n-th if and only if no effective date up to there brings one |
| Windows.OffMinuteDateIsSeenLate | pricing/window.go:167-181 | a window that starts inside a minute is reported half a minute late: a concrete window, for every whole minute |
| Windows.ShortWindowIsNeverSeen | pricing/window.go:167-181 | a window that starts and ends inside one minute is never reported: a concrete window, for every whole minute |
| Windows.NoBoundaryMeansNeverAgain | pricing/window.go:163-181 | with no effective date after the 1441st scanned minute, a zero answer means the selection never changes if and only if no date up to there changes it, so always when those dates fall on whole minutes |
| Windows.FutureDateIsNotSeen | pricing/window.go:167-181 | an effective date at the 1442nd scanned minute, though a whole minute, is missed for good: a concrete window, for every instant |
| Windows.ScanHorizon | pricing/window.go:163-181 | zero answers are final for all windows whose dates lie up to the n-th scanned minute and change nothing themselves, if and only if n is at most 1441 |
| Rules.Validate | pricing/pricing.go:142-186 | the validation pass accepts exactly the valid rule sets (all thresholds rising, all window ids distinct) |
| Rules.NewIsCanonical | pricing/pricing.go:190-217 | any two sort results of permuted tiers and windows are accepted as the same rule set or refused together |
| Rules.NewIgnoresOrder | pricing/pricing.go:190-217 | construction does not depend on configuration order nor on how the sort orders ties, and leaves the windows sorted |
| Rules.SelectTier | pricing/pricing.go:228-239 | the tier loop with its early exit answers `RatesForPromptTotal` |
| Rules.TierIsGreatestBelow | pricing/pricing.go:224-239 | the chosen tier has the greatest threshold strictly below the prompt total; base rates exactly when there is none |
| Rules.SmallerPromptIsNotDearer | pricing/pricing.go:224-239 | with rising tiers a smaller prompt never meets dearer input or output rates |
| Quotes.QuoteAt | pricing/pricing.go:252-313 | the loop with checked 64-bit additions quotes the unbounded sum, line by line, and fails exactly for invalid rules, negative usage or overflow |
| Allowance.MaxOutputTokensAt | pricing/pricing.go:327-354 | the loop terminates and answers the recursive search, 64-bit midpoint included |
| Allowance.CostRisesWithOutput | pricing/pricing.go:246-313 | more output never costs less: neither the tier nor the window can move |
| Allowance.SearchIsExact | pricing/pricing.go:340-353 | a successful search returns the greatest affordable output of its interval |
| Allowance.MaxOutputIsExact | pricing/pricing.go:321-354 | the answer is the exact maximum; it fails exactly when the first refused upward midpoint cannot be quoted, or for MaxInt64 tokens |
| Allowance.GrantedIsCovered | proxy/handler.go:2685-2722 | whatever is granted costs at most what is available, for any rules and numbers |
| Allowance.AdmissionIsExact | proxy/handler.go:2685-2722 | admission grants the largest affordable output and quotes exactly its cost; the exact conditions of refusal and of failure |
| Receipts.ReceiptAddsUp | pricing/pricing.go:278-313 | lines sum to the total, which is at least the exact rational price and, with k lines, less than k above it; prompt lines sum to the prompt total |
| Receipts.PriceInFull | pricing/pricing.go:42-79 | the price written out class by class with its inheritance chain |
| Receipts.DialectsCostTheSame | pricing/usage.go:150-190 | one reality in two dialects leads to the same quote, whose prompt lines account for every prompt token |
| Receipts.ReceiptRederives | pricing/pricing.go:292-313 | every line re-derives from the receipt when the window covers every class |
| Receipts.ClassRederivesExactly | pricing/window.go:127-139 | the charges of a class re-derive for every int64 rate and token count if and only if the window covers the class or multiplies by one |
| Receipts.PartialWindowDoesNotRederive | pricing/pricing.go:292-313 | a quote whose line lies outside the window's classes does not: a concrete rule set, at every instant |
| Receipts.SettledCostExceedsQuoteByRounding | proxy/handler.go:2685-2722 | usage within the quoted bounds costs at most five nano-USD more than the quote |
| Receipts.FiveNanosAreReached | pricing/pricing.go:278-313 | the bound of five is attained: a concrete rule set and a usage within the quoted bounds |
| Ceilings.CapTrimsOnlyRounding | db/billing_atomic.go:177-198 | under a granted ceiling the recorded cost is at most what was available and at least the exact quote minus five nano-USD |
| PriceList.ScaledRatePerMillion | proxy/pricing_endpoint.go:154-166 | the listed rate is the charge for a million tokens under the same per-class multiplier |
| PriceList.RatesView | proxy/pricing_endpoint.go:132-150 | one entry per class in receipt order, with its published rate and its inheritance mark |
| PriceList.InheritedIsFallback | proxy/pricing_endpoint.go:170-183 | a class is charged its fallback's rate exactly when the list marks it as inherited |
| PriceList.ListNeverUnderQuotes | proxy/pricing_endpoint.go:132-166 | no token count is charged above the listed rate while the scaled rate fits int64; some charge is, exactly when that rate does not fit and one token can be charged for |
| PriceList.OneTokenIsUnderQuoted | proxy/pricing_endpoint.go:132-166 | such a charge exists: one token under an eightfold window |
| Ledger.PeriodContainsNow | db/billing.go:10-23 | a budget period starts a whole number of durations after the assignment and contains the instant |
| Ledger.PeriodStartIsMonotone | db/billing.go:10-23 | budget periods only move forward |
| Ledger.FloorIsMonotone | db/billing.go:10-30 | a later instant or reset never lowers the instant from which spending counts |
| Ledger.LimitingWindowIsLeast | db/billing_atomic.go:64-110 | availability is the least over the windows, never negative, and the first window that has it is reported |
| Ledger.CoveredExactly | db/billing_atomic.go:206-232 | the top-ups held at one instant cover the marginal charge of an entry created at another exactly when every window's unspent budget and the top-ups together reach its cost |
| Ledger.AvailabilityIsExact | db/billing_atomic.go:41-110 | every cost up to the availability is covered, and no other one is, if and only if no window is overdrawn or no top-up balance is left |
| Ledger.OverageCountsTwice | db/billing_atomic.go:64-110 | an overdrawn window with top-ups left grants nothing where five would be covered: a concrete ledger |
| Ledger.ChargeBounds | db/billing_atomic.go:206-232 | the marginal charge is the largest growth in overage of any window, at most the cost |
| Ledger.ChargeWithinReserve | db/billing_atomic.go:206-232 | a cost every window covers up to a reserve charges at most that reserve |
| Drain.GreedyPrefix | db/billing_atomic.go:234-279 | on every prefix of the queue the loop takes the most that prefix could give |
| Drain.GreedyFits | db/billing_atomic.go:234-279 | no top-up is overdrawn, and a later one is touched only when every earlier one is exhausted |
| Drain.DrainIsExact | db/billing_atomic.go:234-279 | exactly min(amount, active balance) is taken, for any order among equal expiry keys, and every other row is unchanged |
| Drain.DrainIsOptimal | db/billing_atomic.go:234-279 | at every later instant at least as much balance is left as by any other way of taking the same amount |
| Settlement.PersistedEffect | db/billing_atomic.go:143-175 | one persisted entry adds at most one row, takes the marginal charge as far as the top-ups reach, and touches nothing else |
| Settlement.DrawnInFullExactly | db/billing_atomic.go:143-279 | a settlement is drawn in full if and only if it has nothing to charge, or every window's unspent budget at its creation and the top-ups at its settlement together reach its recorded cost |
| Settlement.PersistingIsIdempotent | db/billing_atomic.go:143-175 | persisting an entry again changes nothing |
| Settlement.ChargesTelescope | db/billing_atomic.go:206-232 | under one floor per window, over settlements at any instants, charges sum to at most the costs and to at least each window's overage growth plus the charges of entries created before the floor; for one window exactly to that |
| Settlement.ChargesAreGrowthExactly | db/billing_atomic.go:206-232 | for one window the charges are exactly its overage growth if and only if every new entry created before the floor fits what the window has left at its settlement |
| Settlement.StaleEntryIsChargedAnyway | db/billing_atomic.go:206-232 | usage reset between creation and settlement, in one period: a top-up pays for an entry that no window counts; a concrete ledger |
| Protocol.StepKeepsInv | proxy/handler.go:877-963 | every step of the protocol keeps the invariant: covered admissions, valid pending jobs, charges within exposure, the outbox's books |
| Protocol.CoveredAtAdmission | proxy/handler.go:905-913 | a ceiling granted from the availability is covered by every window and the top-ups |
| Protocol.ReserveOfCovered | db/billing_atomic.go:206-232 | settling under a covered ceiling, in no earlier period than admitted, charges at most the top-ups plus the exposure |
| Protocol.CreatedLaterIsInPeriod | db/billing_atomic.go:214-218 | an entry created at its admission or later is never charged to an earlier period |
| Protocol.CommitChargesWithinExposure | db/billing_atomic.go:143-175 | a commit adds at most one charge, for an id not yet recorded, within its admission's exposure |
| Runs.ShortfallIsBoundedByExposure | db/billing_atomic.go:143-279 | in every run a charge whose plan was kept, and whose entry fell into no earlier period than its admission, misses the top-ups by at most what others spent and drew plus what lapsed meanwhile |
| Runs.ChargedAtMostOnce | db/billing_atomic.go:143-175 | in every run each request id has at most one row and one charge, and total top-up use grew by the sum of the deductions |
| Runs.NothingLostSilently | proxy/outbox.go:56-94 | in every run each entry given to the outbox is queued, with a worker, counted as lost, or its id is recorded |
| Runs.StepRows | db/billing_atomic.go:143-175 | a committed entry leaves its own row exactly when its id was new, under a known id it changes nothing, and no other step touches the rows |
| Runs.FirstEntryKeepsItsRow | db/billing_atomic.go:143-175 | in every run and continuation the one row of a committed id is that of the first entry committed under it, or the one already stored, unchanged |
| Runs.NoOverdraft | db/billing_atomic.go:64-110 | in every serial run each charge is drawn from the top-ups in full |
| Overdrafts.EarlyCreationOverdraws | proxy/agent.go:98-118 | a run in which an entry created before its admission is charged to the previous period, uncovered |
| Overdrafts.ChargeCoveredExactly | db/billing_atomic.go:143-279 | in any state, overdrawn or not, a new charge is covered if and only if its entry has no ceiling or the unspent budgets and the top-ups reach its cost: the exact condition behind each of the runs below |
| Overdrafts.SharedBalanceOverdraws | proxy/handler.go:115-132 | a run, from any open budget, in which two requests are admitted against one balance and the second charge goes wholly uncovered |
| Overdrafts.DeferredCommitOverdraws | proxy/handler.go:303-317 | a run, from any open budget, in which a commit left to the outbox finds its balance granted to the next request |
| Overdrafts.UncappedRowOverdraws | db/db.go:2108-2130 | a run, from any open budget, in which a row without a ceiling spends what an open request was granted |
| Overdrafts.LapsedTopupOverdraws | db/billing.go:79 | a run in which a top-up expires between admission and commit |
| Overdrafts.EditedPlanOverdraws | db/db.go:980-1020 | a run in which the plan's budget is lowered between admission and commit |
| RequestLogs.RequestLog.NormalizeSettledEntry | db/billing_atomic.go:177-198 | the whole new entry: no cost for a failure, the cap with its marks, and an untouched entry when refused |
| RequestLogs.RequestLog.ApplyQuote | proxy/handler.go:2469-2498 | cost and derivation recorded together, the base tier without a threshold |
| RequestLogs.RequestLog.SetCalculatedCost | proxy/handler.go:2426-2466 | canonical counters always; cost and derivation of the quote, or a zero marked with the error and the old derivation kept |
| RequestLogs.RequestLog.SetStreamOutcome | proxy/handler.go:2239-2259 | an abnormal end keeps no cost, never counts as a success, and is recorded with its status and message |
| BillingStore.Store.GetBudgetAvailability | db/billing_atomic.go:64-110 | the least availability with the first limiting window and its period, and the two refusals |
| BillingStore.Store.MarginalTopupCharge | db/billing_atomic.go:206-232 | the loop computes the marginal charge of the ledger |
| BillingStore.Store.DeductFromTopups | db/billing_atomic.go:234-279 | the row-by-row updates drain the table as specified, and what remains is the amount beyond the balance |
| BillingStore.Store.SettleUsageAndLog | db/billing_atomic.go:143-175 | the transaction's whole effect on the stored state, refusal and known id included |
| BillingStore.Store.InsertRequestLog | db/db.go:2108-2130 | the path without a ceiling: no cap, no charge, nothing on a known id |
| BillingStore.Store.ResetUserUsage | db/billing.go:52-77 | after a reset every window counts from now on, and rows and top-ups are unchanged |
| BillingStore.RetriesChargeOnce | proxy/outbox.go:56-73 | however many attempts commit unseen, the ledger is charged as by the first that commits, and success is reported exactly when one was seen |
| BillingStore.LogOutbox.Enqueue | proxy/outbox.go:87-94 | a full buffer counts a loss and keeps the queue; otherwise the entry is queued |
| BillingStore.LogOutbox.SaveRequestLog | proxy/handler.go:303-317 | the direct save's effect on the store, and the hand-over exactly when it was not seen to succeed |
| BillingStore.LogOutbox.Retry | proxy/outbox.go:56-73 | five attempts; a loss is counted exactly when none was seen to succeed |
| SlidingWindow.LimitsHoldAtEveryInstant | proxy/limiter.go:602-657 | at every instant the last sixty seconds hold at most a limit that stays fixed, for requests and for tokens separately |
| SlidingWindow.AdmittedExactlyWhenItFits | proxy/limiter.go:602-657 | a request is admitted exactly when the minute that ends with it stays within the limits |
| RateLimiter.KeyLimiter.FirstAfter | proxy/limiter.go:607-641 | the pruning scan finds the cut between old and recent entries |
| RateLimiter.KeyLimiter.Check | proxy/limiter.go:602-657 | the pruned lists give the verdict of the full history and stay its last sixty seconds |
| RateLimiter.RateLimiter.CheckInMemoryLimits | proxy/limiter.go:602-657 | for any key the verdict is that of its full history, whatever was swept before; other keys are untouched |
| RateLimiter.RateLimiter.GetLimiter | proxy/limiter.go:348-364 | finds or creates a key's limiter without forgetting anything that counts |
| RateLimiter.RateLimiter.IsIdle | proxy/limiter.go:366-391 | idle exactly when nothing listed is younger than five minutes, and then nothing is within the last minute |
| RateLimiter.RateLimiter.Sweep | proxy/limiter.go:366-391 | the sweep drops exactly the idle keys and changes no key's history, so no later verdict |
| RedisLimiter.RedisDecidesByMillis | proxy/limiter.go:480-522 | on every sequence of distinct instants in order, to the nanosecond, the script's verdict is that of the full admission history cut at whole milliseconds |
| RedisLimiter.RedisLimitsHold | proxy/limiter.go:480-522 | at every instant the last 59.999 seconds hold at most a limit that stays fixed |
| RedisLimiter.RedisRefinesMemory | proxy/limiter.go:557-600 | both limiters give the same verdict at every step, limits changing at will, when no two instants are cut apart |
| RedisLimiter.RedisAgreesExactly | proxy/limiter.go:557-600 | they agree on every sequence of requests at given instants if and only if no two of the instants are cut apart |
| RedisLimiter.CutsDiffer | proxy/limiter.go:557-600 | two instants are cut apart exactly when their milliseconds are 60000 apart and the earlier one has the larger fraction |
| RedisLimiter.ExpiryIsHarmless | proxy/limiter.go:480-522 | the 75-second key expiry drops only what the removal by score drops anyway |
| RedisLimiter.UnalignedInstantsDiffer | proxy/limiter.go:557-600 | at any millisecond and any two such fractions memory refuses what Redis admits |
| RedisLimiter.EqualInstantsMerge | proxy/limiter.go:557-600 | requests at the same nanosecond count once in Redis: a concrete run, at every instant |
| Guard.GenerationGuard.TryInMemoryGeneration | proxy/limiter.go:256-275 | acquisition succeeds exactly when no lease of the scope is open, whatever the request id |
| Guard.GenerationGuard.Release | proxy/limiter.go:256-275 | the first release frees the scope; a repeated one changes nothing, even under a reused request id |
| Guard.GenerationGuard.AtMostOneHolder | proxy/limiter.go:256-275 | in every valid state a scope has at most one open lease |
| Guard.DiligentHoldersExclude | proxy/limiter.go:277-326 | with Redis leases at most one holder exists in every reachable state while holders renew or release in time |
| Guard.LapsedHolderIsPowerless | proxy/limiter.go:148-158 | while a live lease's id is its own, no sequence of others' acquires, renewals and releases changes what is stored or until when, or lets anyone in |
| Guard.OwnersAreAlone | proxy/limiter.go:277-326 | in every run with one id per request, lapses included, whoever owns the stored lease has its id alone |
| Guard.DisturbedExactlyByTheSameId | proxy/limiter.go:148-158 | another holder's release removes, and its renewal extends, the stored lease if and only if the ids are equal |
| Guard.SameIdLetsALapsedHolderIn | proxy/limiter.go:148-158 | under the same id it can: a concrete run ends with two holders |
| ToolCalls.ToolCallAccumulator.Add | proxy/agent.go:623-653 | the field updates fold the fragments in order and keep order, buffers and next index consistent |
| ToolCalls.ToolCallAccumulator.Finalize | proxy/agent.go:655-676 | the named calls in first-appearance order, a generated id where none was sent |
| ToolCalls.StepKeepsWellFormed | proxy/agent.go:623-653 | no index twice, exactly the buffered ones, all below the next free index |
| ToolCalls.UnindexedCallIsNew | proxy/agent.go:626-636 | a new call without an index opens a buffer that no call has |
| ToolCalls.IndexedStream | proxy/agent.go:623-653 | first-appearance order, and per index the fold of its own fragments, however they interleave |
| ToolCalls.ReassemblyIsExact | proxy/agent.go:607-676 | any order-preserving interleaving of fragmented calls comes back whole, each once, in order of first appearance |
| ToolCalls.SequentialReassembly | proxy/agent.go:607-676 | calls streamed one after the other without any index come back whole and in order |
| Translator.SplitSystem | proxy/translator.go:526-540 | the system texts apart, and every other message kept in order |
| Translator.AddMessage | proxy/translator.go:541-592 | one message keeps the turns alternating and adds exactly its blocks under its role |
| Translator.OpenWithUser | proxy/translator.go:594-604 | the user opens the conversation; a "Hello" is added only when needed |
| Translator.TranslateMessages | proxy/translator.go:525-604 | every message list becomes a well-formed conversation that says exactly what the messages say |
| Translator.ConversationIsUnique | proxy/translator.go:525-604 | the alternating conversation with that content is unique: merging is forced |

## Left out

Where a member states less than the program:

- Windows.NextBoundaryIsSound: instants lie after year 1, where `Truncate` and division agree.
- Runs.NoOverdraft: one user's ledger; an admission and its quote are one step, as are the write of a row and the release of the guard that waits for it; a quote of zero takes the insert path and is neither capped nor charged, as in the code.
- Runs.NothingLostSilently: eight workers, sleeps and the 10-second contexts appear as steps and attempt outcomes in any order; process restarts, which empty the queue, are not modelled.
- Runs.ChargedAtMostOnce: an id is known as long as its row is kept; pruning of old rows is not modelled.
- RateLimiter.RateLimiter.CheckInMemoryLimits: one critical section; a sweep between `getLimiter` and the limiter's lock is not modelled.
- RedisLimiter.RedisRefinesMemory: instants are distinct and in order, Redis and the gateway share one clock, and the fallback on a Redis error is not modelled.
- BillingStore.Store.ResetUserUsage: the stored user exists; the error for an unknown one and the audit row are not modelled.
- Rules.Validate: which error is reported first is not distinguished.
- Guard.DiligentHoldersExclude: the heartbeat is any sequence of renewals; network failures of a release are the step that sends nothing.
- ToolCalls.ReassemblyIsExact: indices, counters and string lengths are unbounded.
- Translator.TranslateMessages: tool arguments stay undecoded, and a content of any other JSON type is the text it prints as.

Not modelled:

- HTTP handlers, authentication, SSE forwarding, upstream clients, failover, web search, the idle watchdog: input and output.
- SQL text, schema checks, dashboards, several users at once (`ResetAllUsersUsage`): tables are sequences and each transaction is one step.
- 64-bit wrap-around in sums over stored rows, in limiter sums and in tool indices; saturation of durations beyond 292 years.
- Rounding of timestamps by the database, and the database's own clock beside the gateway's.
- Floating-point compatibility (`FromUSD`, `FromCredits`, `USD`, `normalizeRequestLogMoney` beyond its refusal of negative costs).
- Hashing, UUIDs and key encryption: generated identifiers are parameters.
- Texts of errors and log messages other than those stored with a request.
- `CheckLimit`'s cached definitions and budget pre-check, waiting and cancellation in `AcquireGeneration`.
- Token estimates, provider and thinking tables, `OverlayTTLRates`, tools and `max_tokens` in the translation, the reverse translation: finite case lists without an invariant over runs or inputs.
- `byteBudget`: partial holders can wait on each other, so only conservation would hold.
