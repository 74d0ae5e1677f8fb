# A model of the kalshi-agent trading core

kalshi-agent is a trading bot for a prediction exchange on which a YES and a NO contract of
one market together pay exactly one dollar. This project models its trading core and proves
what the core promises:

- **the position ledger** (`Positions`, `Conservation`, `Dedup`, `PositionRuns`, `Fills`, `Mirror`,
  `Pnl`):
  executions folded into one row per market, recognised by identity, fetched page by page;
- **the risk gate** (`RiskMonitor`, `Sizing`, `Approval`, `SlidingWindow`, `ExposureRuns`): sizing, caps, the
  order-rate guard, and what they hold over whole runs together with the ledger;
- **the order protocol** (`Protocol`, `Execution`, `KillSwitch`, `HaltActions`, `Recovery`,
  `Reconciliation`): the executor under its lock, the HALT file, the halt sweep, crashes,
  startup recovery, and the mirror of the exchange's positions;
- **limiters, retries and scans** (`TokenBucket`, `Client`, `OpenRouter`, `Waits`, `Discovery`).

Code that changes state is modelled by classes and methods proved against specification
functions; the promises are lemmas about those functions and about runs of any length.

## How the model reads the code

- Money is counted in ticks of 1/10000 dollar. Prices lie on that grid, as the exchange quotes
  them; fees are whole cents for takers and quarters of whole cents for makers, so only the
  stored average is ever rounded, half to even.
- Configured dollar amounts, probabilities, the bankroll and clocks are exact reals. Floating
  point storage of realized profit and the 28-digit limit of decimals are outside the model.
- An execution's creation time is present (the code would otherwise invent one) and is a whole
  number of microseconds; contract counts are not negative.
- The exchange, the clocks, new order ids, the expiry of a signal and the kill switch operator
  are parameters: arbitrary replies, constrained only where a clause says so. Clocks do not
  run back, a sleep lasts at least as long as requested, and a new order id is unused.
- Each committed transaction is one atomic step. A page of executions is one transaction and
  is rolled back whole when an execution without a price raises.
- In `Protocol` the executor's steps are separate and anything may happen between them; in
  `Execution` they are the straight-line code, proved to be such a run.

## Where the code differs from what is said of it

- `TokenBucket.acquire` credits slept time twice (client.py:59-63). What it keeps is
  capacity + rate * (T + slept), hence capacity + 2 * rate * T, at every rate and capacity;
  the factor is reached, and no constant added to rate * T would do. The meant bound,
  capacity + rate * T, holds for all runs that sleep at most so long if and only if that is
  no time at all (`MeantBoundIffNoSleep`).
- The order-rate guard and the error spike count in a deque of 200 entries: sound exactly for
  limits up to 200 (`RateGuardSoundIffLimitFits`, `SpikeSeenIffThresholdFits`). Both trip at
  the limit (`>=`), where the repository's README.md:123-124 says above it
  (`LimitItselfTrips`, `ThresholdItselfTrips`). The deque dies
  with the process: over restarts a minute may hold the limit once for each process active in
  it, and no less (`RateOverRestarts`, `RestartsMultiplyRate`).
- fees.py:12 names a peak fee of $0.0175 and fees near zero at the extremes. The code rounds up
  to whole cents: two cents at the peak (`TwoCentFees`) and a whole cent at every price where
  the raw fee is below one (`NoFreePrice`).
- The identity of an execution leaves out the trade number (positions.py:52-57): exactly the
  streams with pairwise different identities are posted in full
  (`PostedInFullIffDistinctIdentities`).
- A new execution whose gain equals its fee is taken for a repeat when counting
  (fills.py:87-88): the returned count falls short by exactly those, the ledger does not
  (`NetsToZeroIff`, `CountMissesZeroNet`, and a pair closed for two cents in `PairForItsFee`).
- An API error after the first page still moves the high-water mark (fills.py:75-77, 116-117),
  and a process that dies there restarts from its newest stored second. Older executions on
  the pages not read are then never asked for (`CutPollLosesOlder`). Whether that happens can
  be told from the pages, the ledger and what is missing: a poll keeps ingestion complete if
  and only if it raises, or every missing execution is newer than every one on its pages that
  counts and is newer than the mark; a restart if and only if every missing one is at least as
  new as the newest row and everything committed (`StepKeepsCompleteIffSafe`,
  `AlwaysCompleteIffSafe`, `RestartKeepsIff`). With an exchange that lists the oldest first a
  cut loses nothing, unless it falls between executions of one second (`OldestFirstIsSafe`).
- The mark is one past the newest second (fills.py:117), so an execution reported late within
  that second is not asked for again (`SameSecondIsBelowMark`, and exactly in
  `LateIsBelowMarkIff` and `ArrivalIsPickedUpIffNotBelowMark`); and a restart can move it past
  arrivals the old process would have picked up (`RestartJumpsOverArrival`).
- Reconciling and then catching up (scheduler.py:55-60) may count an execution twice; the
  result is the exchange's position exactly when the new executions net to nothing
  (`CatchUpAddsToMirror`, `DoubleCount`).
- A row that reconciliation inserts has average zero and so no exposure
  (`PassKeepsAverages`). A pass moves exposure by average times change of count, and keeps
  every cap if and only if these sum to nothing above zero (`PassKeepsCapsIff`); the theorems
  about runs are about runs without such rewrites.
- A market flat on both sides is reported as a discrepancy when its row is missing or rests on
  the NO side (reconciliation.py:55-56, 71): a report means different positions except
  exactly there (`ReportedIff`).
- Re-rounding the average can cost a position more than was paid, so the caps hold up to the
  rounding of one order, and orders the gate approved can make the background loop halt
  trading (`CapsHoldOverRuns`, `AveragingCanCostMore`, `CapCanBePassed`). An averaging buy keeps
  every cap its payment keeps if and only if its remainder says it is not rounded up, and runs
  without a rounding up keep the caps exactly (`CapsKeptIffRoundsDown`, `CapsHoldExactly`).
- The midnight job stamps its snapshot with the day just beginning (scheduler.py:68-74), so its
  fee and trade columns are zero, and the trade column right if and only if that day passes
  without any execution (`MidnightColumnsFinalIff`, with a day they miss in `MidnightMissesTheDay`).
- The halt sweep (halt_actions.py:63-69) does not hold against an order in flight: its response
  overwrites the sweep's mark (execution.py:146-151), and a signal already approved adds a new
  pending row. Exactly when no signal is past its risk check does the sweep last as long as
  the halt (`SweepHoldsIffNoneInFlight`, `ResponseOverwritesSweep`).
- The executor catches two kinds of exceptions. A transport error left by the last retries, a
  429 whose retry-after header is no number (client.py:157), and a body that cannot be read
  escape it; exactly then, or when the answer says so, the row is still pending when the
  signal is done (`EscapesIff`, `LeftPendingIff`).
- Startup recovery rewrites the rows it listed as pending by what it then knew, whatever was
  written to them while the exchange was asked (recovery.py:28-81); a sweep's mark set in
  between is lost (`MeanwhileSurvivesIff`, `SweepMeanwhileIsLost`).

## Model

| member | source | states |
|---|---|---|
| Ticks.DivHalfEven | src/kalshi_agent/kalshi/types.py:17-19 | the result is a nearest tick, and the even one on a tie |
| Ticks.HalfEvenUnique | src/kalshi_agent/kalshi/types.py:17-19 | nearest-and-even-on-ties leaves exactly one value, the one stored |
| Ticks.HalfEvenExact | src/kalshi_agent/kalshi/types.py:17-19 | a value already on the grid is stored unchanged |
| Ticks.HalfEvenInHull | src/kalshi_agent/kalshi/types.py:17-19 | rounding never leaves an interval of ticks that holds the exact quotient |
| Fees.FeeShape | src/kalshi_agent/safety/fees.py:9-20 | the fee is a whole number of cents (quarters for makers), covers the parabola by less than one unit, is symmetric in the two sides and largest at even odds |
| Fees.FeeLinear | src/kalshi_agent/safety/fees.py:23-27 | an order's fee is the sum of the fees of its parts |
| Fees.TwoCentFees | src/kalshi_agent/safety/fees.py:9-16 | at the default rate the taker pays two whole cents if and only if the price is from 0.1727 to 0.8273, even odds included |
| Fees.NoFreePrice | src/kalshi_agent/safety/fees.py:9-16 | strictly inside the price range a taker pays at least a cent, and exactly one if and only if the raw fee is at most one |
| Positions.Ledger.Known | src/kalshi_agent/positions.py:51-60 | finds a stored execution exactly when one has the same order, market, time and count |
| Positions.Ledger.ApplyFill | src/kalshi_agent/positions.py:37-128 | both tables and the returned delta are those of the specification: untouched for a repeat or a missing price, else one row more and one position moved by opening, averaging, pairing, flipping or selling, less the fee |
| Conservation.TradeConserves | src/kalshi_agent/positions.py:92-126 | realized profit less cost moves by a dollar per pair plus sale proceeds less cash and fee: exactly for opening, pairing, flipping and selling, within half a tick per contract then held for averaging |
| Conservation.TradeBoundAttained | src/kalshi_agent/positions.py:97-102 | an averaging buy that is off by the full half tick per contract |
| Conservation.RunConserves | src/kalshi_agent/positions.py:92-126 | over any run on one market the drift is at most half a tick times the sum of the counts after its averaging buys |
| Conservation.BookUpdate | src/kalshi_agent/positions.py:163-168 | rewriting one row moves total exposure and total realized profit by that row's difference alone |
| Conservation.PostConserves | src/kalshi_agent/positions.py:62-128 | one posted execution conserves money across the whole ledger, within its averaging slack |
| Conservation.LedgerConserves | src/kalshi_agent/positions.py:62-128 | over any stream on any markets from any ledger, realized profit less exposure moves by dollars for pairs plus proceeds less cash and fees, within the accumulated slack; cash and fees are sums of count times own side's quote and count times fee over the executions alone |
| Conservation.FeesOnRecord | src/kalshi_agent/positions.py:63-76 | the fees stored for a posted stream are the sum of count times fee per contract at each execution's own quote, one row per execution |
| Conservation.RowsRecordFills | src/kalshi_agent/positions.py:62-76 | every posted execution is stored as reported, with its own side's quote and the fee of all its contracts; earlier rows stay |
| Conservation.TradeIsFill | src/kalshi_agent/positions.py:62-90 | the trade that moves the position has the execution's side, action and count, its own side's quote, and that fee |
| Conservation.SellingReduces | src/kalshi_agent/positions.py:115-123 | a sell takes what it closes off the count and leaves the side and the average of the rest |
| Conservation.FlatHasNoAverage | src/kalshi_agent/positions.py:109-123 | a position closed by any run carries no average |
| Dedup.AppliesEachOnce | src/kalshi_agent/positions.py:51-76 | applying any stream with repeats gives exactly the ledger of posting the first occurrence of each identity |
| Dedup.ApplyAllKeys | src/kalshi_agent/positions.py:51-76 | afterwards the stored identities are the old ones and those of the stream, no more and no fewer |
| Dedup.ApplyAllConcat | src/kalshi_agent/fills.py:80-115 | a stream may be cut into pages anywhere |
| Dedup.ReplayIsNoOp | src/kalshi_agent/positions.py:59-60 | replaying stored identities in any order and number changes nothing |
| Dedup.RereadIsNoOp | src/kalshi_agent/positions.py:59-60 | a stream followed by any rereading of its parts is the stream |
| Dedup.StreamConserves | src/kalshi_agent/positions.py:51-128 | money is conserved by the checked ledger over any stream whatever from an empty one, summed over the first occurrences |
| Dedup.PostedInFullIffDistinctIdentities | src/kalshi_agent/positions.py:51-60 | a priced stream is posted in full if and only if no two of its executions agree in order, market, time and count |
| PositionRuns.MarketIsItsOwnRun | src/kalshi_agent/positions.py:78-85 | each market's row is the run of its own executions; markets without any keep theirs |
| PositionRuns.NetCount | src/kalshi_agent/positions.py:92-114 | for buys the signed position is the start plus the signed sum of counts |
| PositionRuns.NetCountIgnoresOrder | src/kalshi_agent/positions.py:92-114 | any two orders of the same buys leave the same side and count |
| PositionRuns.OpenedAtIsLatest | src/kalshi_agent/positions.py:93-114 | the opening trade is the one since which the side has been held without a break |
| PositionRuns.AverageInHull | src/kalshi_agent/positions.py:97-114 | however often re-rounded, the average lies between the prices of two buys on the present side since it was opened |
| PositionRuns.SplitAgrees | src/kalshi_agent/positions.py:92-126 | a buy in any number of pieces gives the side, count and realized profit of the whole, and the same average from flat or against the position |
| PositionRuns.SplitAverageDrift | src/kalshi_agent/positions.py:97-102 | averaging in k pieces moves the average by at most (k + 1) / 2 ticks, so one tick for a fill in two parts |
| SlidingWindow.PushIsRecent | src/kalshi_agent/safety/risk_monitor.py:47-55 | appending to the bounded deque keeps it the newest 200 of the full log |
| SlidingWindow.DequeCountsTheLog | src/kalshi_agent/safety/risk_monitor.py:58-66 | with a clock that does not run back the deque's count is the full log's, saturated at 200 |
| SlidingWindow.GuardHolds | src/kalshi_agent/safety/risk_monitor.py:131-136 | for a limit up to 200, every closed minute of every guarded run of one process holds at most the limit's attempts |
| SlidingWindow.BurstBreaksRate | src/kalshi_agent/safety/risk_monitor.py:47-60 | for a larger limit, limit + 1 attempts at one instant all pass the guard |
| SlidingWindow.RateGuardSoundIffLimitFits | src/kalshi_agent/safety/risk_monitor.py:131-136 | the guard keeps the rate in every run and window if and only if the limit is at most 200 |
| SlidingWindow.RateOverRestarts | src/kalshi_agent/safety/risk_monitor.py:47-60 | over any number of restarts a closed minute holds at most the limit times the number of processes with an attempt in it |
| SlidingWindow.RestartsMultiplyRate | src/kalshi_agent/safety/risk_monitor.py:47-60 | that bound is reached: k processes can each use the limit up at one instant |
| SlidingWindow.SpikeSeenIffThresholdFits | src/kalshi_agent/safety/risk_monitor.py:62-72 | the deque decides the error spike as the full log would, for every log and window, if and only if the threshold is at most 200 |
| KillSwitch.Switch.Engage | src/kalshi_agent/safety/kill_switch.py:37-51 | engaged afterwards, with the first reason kept |
| KillSwitch.Switch.Disengage | src/kalshi_agent/safety/kill_switch.py:53-61 | disengaged afterwards, reporting whether it was engaged |
| RiskMonitor.Monitor.RecordOrderAttempt | src/kalshi_agent/safety/risk_monitor.py:51-52 | one entry more in the log, the deque still its newest 200 |
| RiskMonitor.Monitor.RecordError | src/kalshi_agent/safety/risk_monitor.py:54-72 | the switch is engaged afterwards if and only if it was or the errors within the window reach the threshold, however many came before; errors further apart than the window never engage it when the threshold exceeds one |
| RiskMonitor.TotalExposure | src/kalshi_agent/safety/risk_monitor.py:74-80 | the accumulating loop returns the sum of average times count over all rows |
| RiskMonitor.CountNotBefore | src/kalshi_agent/safety/risk_monitor.py:58-60 | the number of stamps not before the cutoff |
| RiskMonitor.Monitor.CheckTrade | src/kalshi_agent/safety/risk_monitor.py:110-228 | the decision, with the sizes an edge refusal carries, is the specification's on the full order log and the profit since the day's baseline; the switch is engaged by exactly the rate and daily-loss refusals |
| RiskMonitor.LimitItselfTrips | src/kalshi_agent/safety/risk_monitor.py:131-136 | after exactly the limit's attempts at one instant the next check refuses and trips the switch; after one fewer it does not |
| RiskMonitor.ThresholdItselfTrips | src/kalshi_agent/safety/risk_monitor.py:62-72 | exactly the threshold's errors in the window trip the spike check; one fewer does not |
| RiskMonitor.SpikeCountsWindow | src/kalshi_agent/safety/risk_monitor.py:62-67 | only the errors of the window count |
| RiskMonitor.SpacedErrorsMakeNoSpike | src/kalshi_agent/safety/risk_monitor.py:62-67 | errors further apart than the window make no spike of two or more, in any number |
| RiskMonitor.Monitor.SizeOpening | src/kalshi_agent/safety/risk_monitor.py:168-228 | the step-by-step clamps, truncation and edge floor compute the specified decision |
| RiskMonitor.Monitor.DailyPnl | src/kalshi_agent/safety/risk_monitor.py:103-108 | the running total less the latest snapshot at or before the local day |
| RiskMonitor.Monitor.Recheck | src/kalshi_agent/safety/risk_monitor.py:230-250 | the background loop engages the switch exactly on a passed total cap or the daily loss, keeping the first reason |
| Sizing.ApprovedWithinCaps | src/kalshi_agent/safety/risk_monitor.py:168-201 | an approved opening trade costs at most the Kelly share and the maximum share of the bankroll, and what market and account caps leave, with one contract up to the order limit |
| Sizing.SizeIsGreatestFit | src/kalshi_agent/safety/risk_monitor.py:168-201 | sized if and only if there is edge, confidence, and room for one contract, and then with the greatest count that fits all five limits |
| Sizing.EdgeFloorIgnoresCount | src/kalshi_agent/safety/risk_monitor.py:207-216 | passing the edge floor does not depend on the number of contracts |
| Sizing.ApprovedPaysFloor | src/kalshi_agent/safety/risk_monitor.py:212-228 | an approved opening trade expects at least the configured edge on its stake, after fees |
| Sizing.ApprovalMonotone | src/kalshi_agent/safety/risk_monitor.py:172-228 | raising probability, confidence or bankroll keeps a trade approved with at least as many contracts |
| Sizing.SizeAntitoneInPrice | src/kalshi_agent/safety/risk_monitor.py:172-201 | before the edge floor, a dearer contract never gets a larger order |
| Sizing.KellyMonotone | src/kalshi_agent/safety/risk_monitor.py:172-178 | with an edge, the Kelly fraction is positive and rises with probability |
| Sizing.KellyAntitone | src/kalshi_agent/safety/risk_monitor.py:172-178 | the Kelly fraction falls with price |
| Approval.OpeningApprovedIff | src/kalshi_agent/safety/risk_monitor.py:121-228 | an opening trade on either side is approved if and only if nothing stands against trading, its side is likelier than its price says, there is confidence, one contract keeps all five limits, and its expected profit after fees meets the floor; then for the greatest count that keeps them, with that profit as edge |
| Approval.EdgeIsExpectedProfit | src/kalshi_agent/safety/fees.py:30-49 | the edge is the average of both outcomes' payouts less cost and fees, on either side |
| Approval.ClosingApprovedIff | src/kalshi_agent/safety/risk_monitor.py:150-166 | a closing buy is approved whenever trading is allowed at all, for what is held up to the order limit, and its edge is what the ledger realizes if it fills at its price |
| Approval.TripsIff | src/kalshi_agent/safety/risk_monitor.py:121-144 | the switch is tripped by exactly a full minute or a reached daily loss, of a whitelisted request while it is off |
| Approval.RefusalIsJustified | src/kalshi_agent/safety/risk_monitor.py:121-221 | every refusal gives a true reason |
| Approval.FullAccountIff | src/kalshi_agent/safety/risk_monitor.py:168-170 | the total cap is the reason exactly when it is reached |
| ExposureRuns.SettlingIsPosting | src/kalshi_agent/positions.py:62-128 | a round's settlement is what the ledger does with the executions of its order |
| ExposureRuns.OpeningCost | src/kalshi_agent/positions.py:93-102 | an opening order raises the cost by at most limit price times contracts bought, plus its own rounding |
| ExposureRuns.ClosingRun | src/kalshi_agent/positions.py:103-114 | a closing order lowers the count one for one, never turns the side over, and never raises the cost |
| ExposureRuns.OpeningRoundKeepsCaps | src/kalshi_agent/safety/risk_monitor.py:168-201 | an approved opening order filled within its limits keeps both caps, up to the rounding of one order |
| ExposureRuns.ClosingRoundKeepsCaps | src/kalshi_agent/safety/risk_monitor.py:150-166 | a closing order keeps both caps, does not raise total exposure and does not flip the side |
| ExposureRuns.CapsHoldOverRuns | src/kalshi_agent/safety/risk_monitor.py:150-201 | over runs of any length both caps hold up to the rounding of the worst single order; the excess does not accumulate |
| ExposureRuns.CapsHoldFromEmpty | src/kalshi_agent/safety/risk_monitor.py:150-201 | the same from an empty ledger, for every total cap that is not negative |
| ExposureRuns.CostRisesByPaymentIffRoundsDown | src/kalshi_agent/positions.py:97-102 | an averaging buy costs the position no more than was paid if and only if the remainder of the exact average is below the half-way mark, or on it above an even tick |
| ExposureRuns.CapsKeptIffRoundsDown | src/kalshi_agent/positions.py:97-102 | an averaging buy keeps every cap its payment keeps, in every ledger that holds the position, if and only if the average is not rounded up |
| ExposureRuns.OpeningCostExact | src/kalshi_agent/positions.py:93-102 | an opening order none of whose fills rounds up raises the cost by no more than it paid |
| ExposureRuns.CapsHoldExactly | src/kalshi_agent/safety/risk_monitor.py:150-201 | over runs of any length in which no averaging fill rounds up both caps hold with no excess |
| ExposureRuns.NoAveragingIsExact | src/kalshi_agent/positions.py:93-114 | runs in which nothing averages are among them |
| ExposureRuns.AveragingCanCostMore | src/kalshi_agent/positions.py:97-102 | a buy that raises the stored cost by a tick more than was paid |
| ExposureRuns.ExactRunsPassRecheck | src/kalshi_agent/safety/risk_monitor.py:235-241 | from an empty ledger, runs in which no averaging fill rounds up never trip the background loop's exposure test |
| ExposureRuns.CapCanBePassed | src/kalshi_agent/safety/risk_monitor.py:235-241 | two approved orders, filled at their prices, pass the total cap by all the rounding allowed, so the bound over runs is attained and the background loop halts trading |
| TokenBucket.Bucket.Acquire | src/kalshi_agent/kalshi/client.py:54-65 | refill, grant and clock mark as specified, the mark staying at the entry even after a sleep |
| TokenBucket.GrantsAreFunded | src/kalshi_agent/kalshi/client.py:54-65 | grants never exceed tokens at hand plus credit for the time since the mark plus credit for the time slept |
| TokenBucket.SleepCountsTwice | src/kalshi_agent/kalshi/client.py:54-65 | calls over T seconds that sleep for some of them number at most capacity + rate * (T + slept) |
| TokenBucket.AmortizedBound | src/kalshi_agent/kalshi/client.py:47-65 | calls following one another over T seconds number at most capacity + 2 * rate * T |
| TokenBucket.SaturatedIsRun | src/kalshi_agent/kalshi/client.py:59-65 | from less than a token, k sleeps let 2k calls through in k / rate seconds |
| TokenBucket.FactorTwoIsAttained | src/kalshi_agent/kalshi/client.py:47-65 | for every real rate, every capacity of at least one and every k, a run from a full bucket makes as many grants in k / rate seconds as capacity + 2 * rate * T has whole ones |
| TokenBucket.NoAllowanceRestoresFactorOne | src/kalshi_agent/kalshi/client.py:47-63 | for every rate, capacity and allowance c, some run from a full bucket is granted more than c + rate * T |
| TokenBucket.ShortSleepPassesBound | src/kalshi_agent/kalshi/client.py:59-63 | however short its one sleep, there is a run from a full bucket that passes capacity + rate * T |
| TokenBucket.MeantBoundIffNoSleep | src/kalshi_agent/kalshi/client.py:47-63 | capacity + rate * T bounds all runs from a full bucket that sleep at most so long in all if and only if that is no time |
| Client.Request | src/kalshi_agent/kalshi/client.py:130-172 | ends at the first reply that is not retried or at the budget, raises what the last failure left behind, and sleeps as the replies ask |
| Client.EndsOnce | src/kalshi_agent/kalshi/client.py:144-172 | the replies determine the number of posts |
| Client.PostCount | src/kalshi_agent/kalshi/client.py:144-172 | the first reply that is not retried, or the whole budget |
| Client.SleptBounded | src/kalshi_agent/kalshi/client.py:151-163 | n attempts sleep at most 2^n - 1 seconds beyond what the server asked for |
| Client.ErrorsBackOff | src/kalshi_agent/kalshi/client.py:151-163 | transport and server errors alone sleep exactly 2^n - 1 seconds |
| Client.LimitsWaitAsAsked | src/kalshi_agent/kalshi/client.py:156-159 | each 429 sleeps half a second more than it asks for, or a second and a half without a header |
| Client.SpendsBudget | src/kalshi_agent/kalshi/client.py:144-172 | transport errors, server errors and readable 429s are retried to the end of the budget |
| Client.EndsAtOnce | src/kalshi_agent/kalshi/client.py:156-168 | any other reply ends the request at once, each with its own result |
| Client.EscapesIff | src/kalshi_agent/kalshi/client.py:144-172 | an exception the executor does not catch is raised exactly when a 429 with an unreadable header ends the request, or every post failed retryably and only 429s follow the last transport error |
| Fills.NewestSecond | src/kalshi_agent/fills.py:46-54 | the second of the newest stored execution, zero for none |
| Fills.Latest | src/kalshi_agent/fills.py:46-54 | no stored execution is newer than the initial mark |
| Fills.Ingestor.ApplyPage | src/kalshi_agent/fills.py:80-113 | one page is applied, or rolled back whole when an execution raises |
| Fills.Ingestor.FetchAndApply | src/kalshi_agent/fills.py:63-118 | ledger, count and mark after all pages up to an API error, an empty page or a missing cursor; any other error leaves the mark; it moves only past a newer second |
| Fills.Ingestor.CatchUp | src/kalshi_agent/fills.py:56-61 | the same, the mark first loaded from the ledger; it is never below what it was |
| Fills.ReadAllSeen | src/kalshi_agent/fills.py:67-117 | the newest second seen never falls over a poll |
| Fills.PollAppliesStream | src/kalshi_agent/fills.py:63-115 | a poll refines one stream: its ledger, count and mark are those of reading the executions of all pages before the first that raises, one by one; which that is follows from the pages and the identities known |
| Fills.PricedDoNotRaise | src/kalshi_agent/fills.py:69-83 | with prices on all executions only an error other than an API error raises |
| Fills.SeenIsNewestCounted | src/kalshi_agent/fills.py:87-91 | the newest second seen is the newest of the executions that are new, priced and do not net to zero |
| Fills.NetsToZeroIff | src/kalshi_agent/fills.py:82-88 | applying a new execution returns zero if and only if it is new, priced, and its gain on the position it meets equals its fee |
| Fills.CountMissesZeroNet | src/kalshi_agent/fills.py:87-89 | reported count plus new executions whose gain equals their fee is the number of rows added |
| Fills.PairForItsFee | src/kalshi_agent/fills.py:87-89 | a pair closed for two cents at a fee of two: stored and closed, but neither counted nor seen by the mark |
| Fills.PollIngestsAll | src/kalshi_agent/fills.py:63-118 | a poll that reaches the last page leaves no execution of the exchange out |
| Fills.StepKeepsCompleteIffSafe | src/kalshi_agent/fills.py:46-118 | everything below the mark stays stored, once, if and only if: an arrival is not below the mark or is a repeat; a poll, however cut short, raises, or all that is missing is newer than all on its pages that counts and is above the mark; a restart, even in the middle of a poll, finds all that is missing at least as new as the newest row and everything committed |
| Fills.AlwaysCompleteIffSafe | src/kalshi_agent/fills.py:46-118 | over any run ingestion is complete throughout if and only if every event meets that condition where it happens |
| Fills.OldestFirstIsSafe | src/kalshi_agent/fills.py:69-77 | when all that is missing is newer than all on the pages, a poll cut anywhere loses nothing, nor does the end of the process with nothing missing below the newest row |
| Fills.IngestionIsComplete | src/kalshi_agent/fills.py:46-118 | with arrivals not below the mark, polls to the last page, and restarts with nothing missing below the newest row, every execution below the mark is stored, exactly once, in every run |
| Fills.RestartsLoseNothing | src/kalshi_agent/fills.py:46-61 | restarts at any time between polls lose nothing either when no execution appears below the newest stored row |
| Fills.RestartKeepsIff | src/kalshi_agent/fills.py:46-54 | a restart, between polls or in the middle of one, keeps ingestion complete if and only if all that is missing is at least as new as the newest row and everything committed |
| Fills.CutPollLosesOlder | src/kalshi_agent/fills.py:69-77 | newer execution first, then an API error or the end of the process: the older one is lost below the mark |
| Fills.RestartJumpsOverArrival | src/kalshi_agent/fills.py:46-61 | after a pair closed for its fee, an arrival that is safe for the running process and lost by a restart |
| Fills.StoredExactlyOnce | src/kalshi_agent/fills.py:46-118 | an execution below the mark has exactly one row |
| Fills.ArrivalIsPickedUpIffNotBelowMark | src/kalshi_agent/fills.py:66-74 | the next complete poll stores a new execution if and only if its second is not below the mark |
| Fills.SameSecondIsBelowMark | src/kalshi_agent/fills.py:116-117 | an execution reported late within the second of one that counted and moved the mark lies below the new mark |
| Fills.LateIsBelowMarkIff | src/kalshi_agent/fills.py:116-117 | a late execution lies below the new mark if and only if one that counted was newer than the old mark and is not older than it |
| Mirror.RunIsPosting | src/kalshi_agent/fills.py:46-118 | at every moment of a run with pages from the exchange, however cut, repeated or interrupted, the ledger is that of some of the exchange's executions, each posted once |
| Mirror.StoredIsMirrored | src/kalshi_agent/fills.py:46-118 | once all are stored there is one row for each execution, and every market's signed position is the net of the exchange's buys on it, whatever their order |
| Mirror.CompletePollMirrors | src/kalshi_agent/fills.py:46-118 | after every complete poll of every orderly run of buys with different identities every market's signed position is the net of the exchange's executions on it |
| Mirror.MirrorReconcilesClean | src/kalshi_agent/safety/reconciliation.py:52-90 | reconciliation with an exchange that shows that net then reports at most markets flat on both sides |
| Pnl.CumulativeRealized | src/kalshi_agent/safety/pnl.py:21-27 | the sum of realized profit over all rows |
| Pnl.Snapshots.Take | src/kalshi_agent/positions.py:149-160 | the day's snapshot is the running total with the day's fees and number of executions, replacing an earlier one of that day |
| Pnl.DailyFees | src/kalshi_agent/positions.py:131-146 | the fees and number of the executions stored within the day |
| Pnl.DaysShareOut | src/kalshi_agent/positions.py:138-146 | adjoining days share out fees and executions without overlap or gap |
| Pnl.AllTimeFees | src/kalshi_agent/positions.py:142-146 | over a time that holds them all they are the fees on record |
| Pnl.TradesFinalIff | src/kalshi_agent/positions.py:142-157 | a snapshot's trade column is that of the finished day if and only if no execution of the day is stored after it |
| Pnl.FeesFinalIff | src/kalshi_agent/positions.py:142-156 | so is its fee column, in the same case, and when every execution has a fee only then |
| Pnl.MidnightColumnsFinalIff | src/kalshi_agent/scheduler.py:68-74 | a snapshot stamped with the day just beginning counts no fees and no executions, and its trade column is right about that day if and only if the day has none |
| Pnl.MidnightMissesTheDay | src/kalshi_agent/scheduler.py:68-74 | a day with one execution and two cents of fees, of which its snapshot shows neither |
| Pnl.Snapshots.BaselineAtOrBefore | src/kalshi_agent/safety/pnl.py:30-52 | the snapshot of the latest day not after the cutoff, zero if none |
| Pnl.Snapshots.RealizedSince | src/kalshi_agent/safety/pnl.py:55-57 | the running total less that baseline |
| Pnl.DeltaMovesTotal | src/kalshi_agent/positions.py:125-128 | the account's total moves by exactly what applying an execution returns |
| Pnl.TotalTelescopes | src/kalshi_agent/positions.py:125-128 | over any run the total moves by the sum of the returned deltas |
| Pnl.PeriodProfitIsSumOfDeltas | src/kalshi_agent/safety/pnl.py:30-57 | the period figure equals the sum of deltas since the last snapshot not after the cutoff, or the whole total without one, whatever snapshots were taken or missed |
| Pnl.SnapshotsDifferByDeltas | src/kalshi_agent/scheduler.py:68-74 | two consecutive snapshots differ by the deltas between them |
| Protocol.ApprovedWithinLimits | src/kalshi_agent/safety/risk_monitor.py:121-154 | an approval is within the order limit and comes only with the switch off and the minute under its limit |
| Protocol.StepKeepsWriteAhead | src/kalshi_agent/execution.py:100-151 | every step, crashes and outside writers included, keeps: rows are backed by accepted decisions, ids are unique, and nothing is sent without its row |
| Protocol.RunsKeepWriteAhead | src/kalshi_agent/execution.py:100-151 | the same over every run and interleaving |
| Protocol.OrdersAreApproved | src/kalshi_agent/execution.py:81-117 | in every run the order rows come from different earlier risk checks, in order, each made with no HALT file and approving exactly the row's market, side, count and price |
| Protocol.SentIsOnRecord | src/kalshi_agent/execution.py:81-134 | every request ever sent has exactly one order row with its market, side, count and price, and exactly one accepted decision naming it; a check earlier in the same run, made with no HALT file, approved exactly that, within the order limit |
| Protocol.HaltedStep | src/kalshi_agent/safety/risk_monitor.py:121-122 | while HALT exists, a step of a signal not past its check sends, orders and accepts nothing, and every check refuses |
| Protocol.HaltedIsQuiet | src/kalshi_agent/execution.py:46-94 | with no signal past its check, nothing is sent, ordered or accepted until the file goes |
| Protocol.HaltSafety | src/kalshi_agent/execution.py:46-134 | from HALT's appearance anywhere to its removal at most one order id is sent, ordered or accepted, that of the signal already past its check |
| Protocol.RunGrows | src/kalshi_agent/execution.py:100-151 | no run removes or rewrites a request, a decision or an order row's identity |
| Protocol.ResponseOverwritesSweep | src/kalshi_agent/execution.py:146-151 | the response to an order in flight replaces the sweep's mark on it |
| Execution.Executor.HandleSignal | src/kalshi_agent/execution.py:46-151 | something is sent if and only if the signal is unexpired, its market answers, is active and has an ask, the bankroll is positive, the gate approves, and it is unexpired before sending; then one decision, one order row and one request, all alike, else no order and a refusal on record unless a fetch raises; errors recorded, switch, attempts and protocol run are fixed too |
| Execution.Executor.Decide | src/kalshi_agent/execution.py:81-98 | the risk check and the second expiry test, as the protocol's steps |
| Execution.Executor.Place | src/kalshi_agent/execution.py:100-131 | decision row, order row, attempt, request, in this order and under one id |
| Execution.Executor.Send | src/kalshi_agent/execution.py:133-151 | as many posts of the one request as the replies make the client send, and the table as their outcome leaves it |
| Execution.Executor.Conclude | src/kalshi_agent/execution.py:133-151 | the row takes the response's id and status, or is marked failed, or is left pending |
| Execution.Executor.Fail | src/kalshi_agent/execution.py:135-144 | a caught error is recorded at its own time and the row marked failed |
| Execution.LeftPendingIff | src/kalshi_agent/execution.py:133-151 | the row is still pending when the signal is done if and only if a success ends the request and its body says so or cannot be read, a 429 with an unreadable header ends it, or every post failed retryably and only 429s follow the last transport error |
| Execution.RowShowsAnswer | src/kalshi_agent/execution.py:133-151 | the row takes the id and status of a success that can be read, or is marked failed without an id after a refusal or a budget spent on other than transport errors |
| Execution.Executor.PersistDecision | src/kalshi_agent/execution.py:170-194 | one decision row more, whose number is returned |
| Execution.AttemptPasses | src/kalshi_agent/execution.py:119 | an attempt recorded after an approved check extends the guarded run |
| HaltActions.HaltMonitor.constructor | src/kalshi_agent/safety/halt_actions.py:22-33 | a file already there at start counts as seen |
| HaltActions.HaltMonitor.Sweep | src/kalshi_agent/safety/halt_actions.py:63-69 | every pending, resting or open row is marked, all others stay |
| HaltActions.HaltMonitor.Tick | src/kalshi_agent/safety/halt_actions.py:35-42 | sweeps exactly on a rising edge, and remembers what it saw |
| HaltActions.SweepCloses | src/kalshi_agent/safety/halt_actions.py:63-69 | exactly the rows pending, resting or open are marked, no row is open afterwards, a table without open rows is untouched, and a second sweep does nothing |
| HaltActions.SweepHolds | src/kalshi_agent/safety/halt_actions.py:48-69 | swept with no order in flight, no row is open again while the halt lasts, whatever signals and crashes come |
| HaltActions.HoldsIffNoneInFlight | src/kalshi_agent/safety/halt_actions.py:48-69 | with no open row while halted, no undisturbed run shows one again if and only if no signal is past its risk check |
| HaltActions.SweepHoldsIffNoneInFlight | src/kalshi_agent/safety/halt_actions.py:48-69 | a sweep lasts as long as the halt if and only if it finds no signal past its risk check |
| HaltActions.Reopens | src/kalshi_agent/execution.py:100-151 | for every place past the check, a run that shows an open row again |
| Recovery.PendingRows | src/kalshi_agent/recovery.py:28-32 | remembers exactly the pending rows with their ids, in order |
| Recovery.IndexByClient | src/kalshi_agent/recovery.py:45-49 | the last listed order of each client id that is not empty |
| Recovery.IndexByOrder | src/kalshi_agent/recovery.py:50 | the last listed order of each exchange id |
| Recovery.Resolve | src/kalshi_agent/recovery.py:52-81 | one remembered row adopts the match of the ids it had, whatever its status is by now, or is lost |
| Recovery.ResolveAll | src/kalshi_agent/recovery.py:52-81 | exactly the remembered rows that still exist are resolved; recovered plus lost is their number |
| Recovery.RecoverInFlight | src/kalshi_agent/recovery.py:20-89 | whatever was written while the exchange was asked, each row then pending becomes its recovered form and others keep what was written; recovered + lost = pending and recovered counts the matches; an API error writes nothing |
| Recovery.MatchIsListed | src/kalshi_agent/recovery.py:52-57 | a match is a listed order with the row's client id or exchange id, and no match means none has the client id |
| Recovery.RecoveryWrites | src/kalshi_agent/recovery.py:45-81 | a pending row takes the exchange id and status of the last listed order with its client id, else of the last with its exchange id, else is lost with its exchange id as it stands |
| Recovery.LostIsUnknown | src/kalshi_agent/recovery.py:52-75 | recovered are the pending rows that a list knows by either id, lost those that none does |
| Recovery.NoneLeftPending | src/kalshi_agent/recovery.py:59-81 | when no listed order is pending, no remembered row is left pending, whatever was written meanwhile |
| Recovery.StillPendingIff | src/kalshi_agent/recovery.py:59-81 | a remembered row is left pending if and only if its match says pending, any other if and only if it has become so |
| Recovery.NoRowPendingIff | src/kalshi_agent/recovery.py:28-81 | with nothing written meanwhile no row of the table is left pending if and only if no pending row is matched by an order listed as pending |
| Recovery.MeanwhileSurvivesIff | src/kalshi_agent/recovery.py:28-81 | a status written meanwhile survives if and only if the row was not pending when listed or recovery writes the same again |
| Recovery.SweepMeanwhileIsLost | src/kalshi_agent/recovery.py:28-81 | the mark of a sweep that falls in between is gone from every row that was listed |
| Recovery.RecoveryKeepsWriteAhead | src/kalshi_agent/recovery.py:60-75 | recovery keeps every order tied to its decision and every request to its row, whatever was written meanwhile |
| Reconciliation.IndexRemote | src/kalshi_agent/safety/reconciliation.py:46 | the last entry listed for each market |
| Reconciliation.MirrorMarket | src/kalshi_agent/safety/reconciliation.py:53-90 | one market's row and report entry, all other rows untouched |
| Reconciliation.Reconcile | src/kalshi_agent/safety/reconciliation.py:38-111 | every market mirrored and reported exactly if it differed, once; an unreadable exchange changes nothing |
| Reconciliation.PassMirrors | src/kalshi_agent/safety/reconciliation.py:52-90 | every market's local signed position is the exchange's, zero if absent |
| Reconciliation.PassRow | src/kalshi_agent/safety/reconciliation.py:52-90 | a listed market's row shows the exchange's position, at its own average, with the quoted realized profit if there is one and the position differed; an unlisted one keeps all but its count; a new one has the quote or zero |
| Reconciliation.PassMovesRealized | src/kalshi_agent/safety/reconciliation.py:60-81 | a pass moves the account's realized profit by the sum of those differences |
| Reconciliation.ReportTells | src/kalshi_agent/safety/reconciliation.py:70-90 | each report entry says truly which side is missing and the signed positions of both |
| Reconciliation.ReportedIsLast | src/kalshi_agent/safety/reconciliation.py:46 | the last entry listed for a market is the one that counts |
| Reconciliation.PassIsIdempotent | src/kalshi_agent/safety/reconciliation.py:46-98 | a second pass on the same answer changes nothing and reports nothing |
| Reconciliation.CleanIffUnchanged | src/kalshi_agent/safety/reconciliation.py:46-98 | a pass reports nothing if and only if it leaves the table as it was |
| Reconciliation.PassKeepsAverages | src/kalshi_agent/safety/reconciliation.py:64-82 | kept rows keep their average, inserted rows carry no cost |
| Reconciliation.ReportedIff | src/kalshi_agent/safety/reconciliation.py:53-90 | a market is reported if and only if the signed positions differ, or both are flat and a listed market has no row or a row on the NO side |
| Reconciliation.PassMovesExposure | src/kalshi_agent/safety/reconciliation.py:53-90 | a pass moves total exposure by the sum of average times change of count over the rows it found |
| Reconciliation.PassKeepsCapsIff | src/kalshi_agent/safety/reconciliation.py:53-90 | a pass keeps every exposure cap if and only if that sum is not positive, as when the exchange shows no market larger than the ledger |
| Reconciliation.CatchUpAddsToMirror | src/kalshi_agent/scheduler.py:55-60 | reconciling, then ingesting buys, ends at the exchange's position plus the net of the new ones: equal if and only if that net is zero |
| Reconciliation.DoubleCount | src/kalshi_agent/scheduler.py:55-60 | ten contracts mirrored and then ingested are held as twenty |
| OpenRouter.ChatJson | src/kalshi_agent/llm/openrouter.py:105-217 | stops at the first reply that needs no retry or spends a budget, with that reply's outcome and the sleeps of all replies before it |
| OpenRouter.StopsOnce | src/kalshi_agent/llm/openrouter.py:135-217 | the replies determine the number of posts |
| OpenRouter.PostsBounded | src/kalshi_agent/llm/openrouter.py:135-217 | at most max_retries + max_rate_limit_retries - 1 posts |
| OpenRouter.PostsBoundAttained | src/kalshi_agent/llm/openrouter.py:135-217 | for all budgets some replies need that many |
| OpenRouter.SleptBounded | src/kalshi_agent/llm/openrouter.py:86-103 | sleeps are at most a minute per rate limit and 2^e - 1 seconds for e errors |
| OpenRouter.BackoffBounded | src/kalshi_agent/llm/openrouter.py:135-217 | a call sleeps at most 60 * (max_rate_limit_retries - 1) + 2^(max_retries - 1) - 1 seconds |
| OpenRouter.ParsedIff | src/kalshi_agent/llm/openrouter.py:181-215 | a parsed answer is returned if and only if a parsable reply comes before either budget is spent, after retryable replies only |
| OpenRouter.FailureIff | src/kalshi_agent/llm/openrouter.py:138-217 | unparsable content and a client error end the call at once, and it is exhausted exactly when none of the three comes in time |
| OpenRouter.ErrorsBackOff | src/kalshi_agent/llm/openrouter.py:147-153 | transport errors, server errors and empty completions sleep exactly 2^n - 1 seconds |
| OpenRouter.RetryAfterHonoured | src/kalshi_agent/llm/openrouter.py:88-93 | a retry-after header is honoured with half a second to spare up to a minute, whatever the reset header says |
| OpenRouter.ResetHonoured | src/kalshi_agent/llm/openrouter.py:94-102 | so is a reset still ahead, without such a header |
| OpenRouter.UnhintedDoubles | src/kalshi_agent/llm/openrouter.py:103 | without a usable hint the waits are 2, 4, 8, 16, 32 and then 60 seconds |
| OpenRouter.Throttle.Pass | src/kalshi_agent/llm/openrouter.py:76-84 | the release is at least the minimum interval after the previous one, and is remembered |
| OpenRouter.GapsAddUp | src/kalshi_agent/llm/openrouter.py:76-84 | k further requests take at least k intervals |
| Discovery.ScanPage | src/kalshi_agent/strategies/llm_market_assessor.py:164-177 | one page, stopping as soon as there are enough candidates |
| Discovery.Discover | src/kalshi_agent/strategies/llm_market_assessor.py:149-182 | exactly the first max_per_tick of the passing markets of the pages read before the page limit, a missing cursor or an error |
| Discovery.ScannedIsReadable | src/kalshi_agent/strategies/llm_market_assessor.py:156-179 | the markets looked at are those of the pages up to the limit, an error or a page without a cursor, concatenated |
| Discovery.ReadablePages | src/kalshi_agent/strategies/llm_market_assessor.py:156-179 | there always is such a number of pages |
| Discovery.SelectedPasses | src/kalshi_agent/strategies/llm_market_assessor.py:135-172 | selected are exactly the listed markets that are active or open, quoted on both sides, of a wanted category, liquid, not about to close and not signalled lately |
| Discovery.SelectedConcat | src/kalshi_agent/strategies/llm_market_assessor.py:156-179 | filtering page by page is filtering the concatenation |

## Left out

- HTTP, WebSocket, Discord, FastAPI routes, the dashboard, logging, signing and authentication: input and output only.
- Sessions and locking of the database, event rows, raw responses, and time stamps of row updates.
- Float storage of realized profit and decimals beyond 28 digits; prices off the 1/10000 grid.
- Time zones and cron: days are ordered numbers, and stored times are read back as the instants they were written as.
- Configuration validation, the placeholder strategy, prompts, signal generation, JSON extraction, and the bankroll and category caches.
- `cancel_all_resting` (client.py:254-264): what the exchange does with the cancel requests is not part of this model.
- The status write on a parent order during ingestion (fills.py:108-112): in `Protocol` it is one of the outside rewrites allowed at every step.
- Fills.Ingestor.FetchAndApply: the exchange's replies are one sequence fixed before the call; new executions that appear between two pages count as arriving before or after the poll.
- Positions.Ledger.ApplyFill: an oversell is dropped as in the code; `NetCount` and `NetCountIgnoresOrder` are about buys, the only orders the executor sends.
- ExposureRuns.CapsHoldOverRuns: is about runs in which each order's executions are ingested before the next check and no reconciliation rewrites a row between; the code itself enforces neither.
- RiskMonitor.Monitor.RecordOrderAttempt: requires a clock that has not run back since the last entry, as the monotonic clock guarantees.
- Execution.Executor.HandleSignal: is one call without interleaving; what other actors do between its steps is in `Protocol`. How the market request ended is an input.
- HaltActions.HaltMonitor.Tick: the file does not change within the tick; a sweep after the file is gone again is a step of `Protocol`. A file removed and made again between two ticks is not noticed, as in the code.
- Client.Request: the token bucket it waits for before each post is `TokenBucket`; reading the body is left to its callers.
- Recovery.RecoverInFlight: only an API error is caught; any other ends the start of the process, with nothing written.
- Reconciliation.Reconcile: markets are visited in an arbitrary order, so the order of the report is left open.
- Protocol.HaltSafety: is about the decisions and requests of one process; two processes sharing one HALT file are not modelled.
- Discovery.Discover: the throttle on recently signalled markets is a fixed set during one scan, and errors other than an API error end it without a result.
