# Verified model of the intraday trading platform

The platform takes market data from several vendors, keeps it in SQLite, derives
levels and indicators from it, trades through a broker and flattens every
evening. This project models the parts of it that are state machines, protocols
or arithmetic over whole runs, and proves what they are relied on for.

| module | models |
|---|---|
| `RateLimiter` | the sliding-window limiter in front of Finnhub (`data/finnhub_feed.py`) |
| `TickStore`, `StoreDrain`, `FlushTiming` | the queue, the batching worker and its shutdown (`data/tick_store.py`) |
| `Flatten` | cancel, wait for release, close every position with retries (`execution/alpaca_orders.py`) |
| `BarAggregator` | one-minute bars to five-minute bars (`data/bar_aggregator.py`) |
| `LevelBreak`, `LevelBook` | the confirmation state machine of a price level (`scripts/alert.py`) |
| `FuturesWalls`, `BookWalls` | wall detection and the persistent scanner (`analysis/futures_walls.py`) |
| `Indicators`, `IndicatorMeaning` | Wilder smoothing, ADX/DMI, RSI, session VWAP (`analysis/indicators.py`) |
| `OptionWalls`, `OptionChain` | coverage table, spot recovery by parity, guarded risk reversal (`analysis/option_walls.py`) |
| `GammaExposure`, `GammaSigns` | exposure by strike, bands, flip search (`analysis/gamma_exposure.py`) |
| `DailyRoutine` | the once-a-day scheduler across restarts (`main.py`) |
| `ChainStore` | upserted chain snapshots and the change between them (`data/chain_store.py`) |
| `OptionFlow` | the tick rule (`scripts/option_flow.py`) |
| `OccSymbols`, `Timestamps` | the symbol and timestamp codecs (`scripts/option_flow.py`, `data/alpaca_rest.py`, `data/alpaca_market_data.py`) |
| `Clock`, `Options`, `Numbers`, `Sequences`, `Sets`, `Decimals` | time, optional values, absolute value and truncation, sums and sorting, elements of sets, decimal text |

Where the source updates an object in place the model is a class whose methods
are proved to follow a specification function on values; the theorems about
whole runs are lemmas about that function. Where the source computes a value the
model is a function. Loops of the source are loops here. What a specification
function means is proved in terms of its inputs (quotes, rows, levels, replies),
in the second module named for some parts.

Conventions. Prices, sizes in arithmetic, exposures and clock readings are
reals. Replies of the broker, outcomes of database statements and of scheduled
steps, readings of the clock and library calls are inputs: every theorem holds
for all of them. The monotonic clock of the limiter and of the release wait
never runs backwards, and a sleep on it lasts at least as long as asked. Of the
scheduler's wall clock only the dates are assumed not to go back; the time of
day may, as when clocks are set back. While a flatten runs positions may change
or disappear at the broker, but none appears. A session is the number YYYYMMDD,
whose order is that of the eight-digit text.

Where code and documentation disagree the model follows the code:

- `_split_multistatus` is documented to accept status 200 or 207 (line 107); the code accepts 200 only (line 120). `Flatten.SplitAsDocumented`: the two agree exactly when no element has status 207, and `Flatten.MultiStatusFails` is one that has.
- `_wait_for_release` is documented to wait until `qty_available == qty`; its test `qty_available < qty` compares whole shares and sees longs only (line 559). `Flatten.ReleaseTest` says exactly when the two agree; `Flatten.HeldShortMissed` gives a short that is missed, `Flatten.HeldFractionMissed` longs of which a fraction of a share is held.
- `_solve_flip` is documented to return the lowest crossing, and None when there is none in the window. It looks at grid points only. None can hide a zero at the last grid point (`GammaExposure.MissedZero` is the exact condition on the grid) and any even number of crossings inside a cell (`GammaExposure.HiddenCrossings`); a value can be returned where nothing crosses, as for a chain without a usable contract (`GammaExposure.EmptyChainFlips`). For a curve that turns only at grid points, `GammaExposure.NothingFound` says exactly what None means, `GammaExposure.FlipIsLowest` that nothing lower was missed, and `GammaExposure.GridZeroCrosses` when a returned grid zero is a crossing.
- Default bands leave out the highest strike, because the last band is open on the right (`GammaExposure.DefaultBands`).
- `adx_dmi` is documented to return all values in [0, 100], without a condition. ADX and the lower bound are guaranteed by a first bar with low <= high, whatever the closes (`Indicators.AdxBounds`, `Indicators.AdxNeedsFirstBar`); the DIs also by earlier closes inside their bars (`Indicators.DirectionalBounds`, `Indicators.BoundsNeedRange`), and for a chart whose true range is positive wherever a bar moved `Indicators.DirectionalAllPeriods` is the exact condition for all periods.
- RSI of a series that only rose is 50, not 100, because a zero average loss becomes NaN and then 50 (`Indicators.RsiSymmetry`).
- A flush that fails after some kinds were executed counts those rows neither as written nor as dropped (`TickStore.GapGrows`).
- `flush_all` forgets the open window, so a symbol's bars are in order across a flush only under the condition of `BarAggregator.OrderAcrossFlush`.
- `close_all_positions` returns errors instead of raising, and `get_open_positions` turns a failed fetch into an empty list, so the scheduler marks a flatten done that left positions open (`DailyRoutine.RetriedOnlyAfterRaise`, `DailyRoutine.FetchFailureNotRetried`). `DailyRoutine.FlattenDueAgain` says exactly when it is retried: when a poll of the release wait returned a quantity that cannot be read.
- `sessions` is documented to list sessions with a successful fetch; a failure recorded later for the same session hides it (`ChainStore.FailureHides`).
- The counters of `gamma_profile` count a contract without IV but with fresh vendor gamma both as used and as skipped (`GammaExposure.CountersBalance`).

`ChainStore.OpenFiltersPartition` speaks of contracts without days-to-expiration,
a column the schema allows to be empty. The fetcher always fills it
(`data/schwab_chains.py`), so for rows it wrote `oi_change` with open filters and
`new_contracts` do partition the snapshot; only rows from another writer can be
in neither.

## Model

| member | source | states |
|---|---|---|
| RateLimiter.DropExpired | data/finnhub_feed.py:93-96 | the popleft loop removes exactly the expired prefix of a deque |
| RateLimiter.AttemptStep | data/finnhub_feed.py:92-105 | one body keeps the deques equal to the grants that can still matter, and grants if and only if fewer than 300 earlier grants are younger than 60 s and fewer than 30 younger than 1 s |
| RateLimiter.RecentIsWindow | data/finnhub_feed.py:93-101 | after expiry the length of a deque is the number of all grants ever made that are younger than the span |
| RateLimiter.RunTracked | data/finnhub_feed.py:90-106 | the deques stay in step with the whole grant history over every run of clock readings |
| RateLimiter.SpacedBounds | data/finnhub_feed.py:67-70 | grants spaced so that the one `cap` places later is a span later leave at most `cap` in any half-open interval of that span |
| RateLimiter.TrackedLimits | data/finnhub_feed.py:67-70 | both limits follow, for every half-open interval, from what each body keeps |
| RateLimiter.RateLimitsHold | data/finnhub_feed.py:81-106 | over every run with a non-decreasing clock, at most 300 grants in any half-open 60 s and at most 30 in any half-open 1 s |
| RateLimiter.OneSleepIsEnough | data/finnhub_feed.py:97-106 | a body that had to wait grants at its next reading once the clock moved on by the wait it computed |
| RateLimiter.WaitIsExact | data/finnhub_feed.py:97-106 | the wait is no longer than needed: a later reading grants if and only if the computed wait is over |
| RateLimiter.FinnhubClient.Step | data/finnhub_feed.py:93-104 | the statements on the two deques compute the specified attempt |
| RateLimiter.FinnhubClient.TryAcquire | data/finnhub_feed.py:92-105 | the body on the object: the new deques, the wait, and a grant exactly when both exact counts allow it |
| RateLimiter.FinnhubClient.WaitForRateCapacity | data/finnhub_feed.py:90-106 | under the lock, a caller is granted after at most one sleep, of the exact wait plus 0.01 s, and exactly one grant is added, at the last reading |
| TickStore.FlushLaneKeeps | data/tick_store.py:294-323 | for one kind a flush only moves rows forward in order, or loses them as a whole |
| TickStore.StepKeeps | data/tick_store.py:190-325 | every step of producer, worker or close keeps the ledger of every kind and the batch counter |
| TickStore.RunKeeps | data/tick_store.py:190-325 | so does every interleaving, failed flushes included: accepted rows are the stored, open, pending, queued and lost ones, offered is accepted plus dropped |
| TickStore.OneFlush | data/tick_store.py:289-314 | a flush writes at most one batch and leaves nothing pending |
| TickStore.FlushesStayWithinBatch | data/tick_store.py:280-287 | no step makes more than one writing flush, and it writes at most `batch_size` rows (one when that is 0) |
| TickStore.StatisticsGap | data/tick_store.py:107-127 | the published counters account for every offered row except those a part-failed flush had executed |
| TickStore.GapGrows | data/tick_store.py:294-323 | a flush widens that gap if and only if it fails after a kind with pending rows was executed |
| TickStore.GapExample | data/tick_store.py:294-323 | a two-row run whose first row is neither written nor dropped by the counters |
| TickStore.CommittedFlush | data/tick_store.py:300-314 | the statements of a flush that commits give the specified lanes and one flush counted |
| TickStore.FailedFlush | data/tick_store.py:315-323 | the statements of a flush that fails drop and count exactly what was still pending where it stopped |
| TickStore.RunClean | data/tick_store.py:293-314 | without database errors nothing is ever lost, uncounted or left in an open transaction |
| TickStore.InOrderWithoutErrors | data/tick_store.py:205-325 | without database errors, for each kind: committed ++ pending ++ queued is exactly the accepted rows in order, offered is accepted plus dropped |
| TickStore.RunCloses | data/tick_store.py:190-202 | under every interleaving, what was accepted before close began is still ahead of the sentinel, pending or stored |
| StoreDrain.ReadsBounded | data/tick_store.py:267-287 | in every run the worker reads at most what was queued, what is offered meanwhile and the sentinel |
| StoreDrain.LastRead | data/tick_store.py:273-287 | once the store is stopping, the read that empties the queue, or a timeout on an empty one, ends the worker |
| FlushTiming.AgeFlushes | data/tick_store.py:280-284 | an iteration whose deadline has passed leaves nothing pending, whether it read an item or timed out |
| FlushTiming.FlushesExactly | data/tick_store.py:276-284 | an iteration that neither meets the sentinel nor leaves the loop flushes if and only if rows are pending after its read and the deadline has passed or there are at least `batch_size` of them; otherwise nothing moves |
| FlushTiming.FlushedByAge | data/tick_store.py:267-287 | over every run without database errors, after an iteration past its deadline every accepted row that was read is in the file |
| FlushTiming.QueueBounded | data/tick_store.py:206-209 | in every run a bounded queue never holds more than its maximum |
| FlushTiming.DroppedExactly | data/tick_store.py:206-213 | a row is dropped if and only if the bounded queue is full when it is offered; otherwise it is accepted and queued last |
| TickStore.DrainedClose | data/tick_store.py:190-202 | a close whose worker drained leaves everything accepted before it in the file, in order, for every kind that lost no rows |
| TickStore.TickStore.Put | data/tick_store.py:206-213 | the queue put: accept while there is room, otherwise count the drop by kind |
| TickStore.TickStore.ExecutePending | data/tick_store.py:294-299 | the pass over the kinds executes and clears each non-empty one in order until the first failure |
| TickStore.TickStore.FlushPending | data/tick_store.py:292-323 | the whole flush, commit and error branch, equals the specified one |
| TickStore.TickStore.FlushAndKeep | data/tick_store.py:289-325 | the flush on the object, a closed connection included |
| TickStore.TickStore.FlushWhenDue | data/tick_store.py:280-284 | flush by size or age, and reset of the count |
| TickStore.TickStore.LeaveWhenDrained | data/tick_store.py:285-287 | the exit of the loop once the store stopped and the queue is empty |
| TickStore.TickStore.FinishRead | data/tick_store.py:280-287 | what an iteration does after its queue read |
| TickStore.TickStore.TakeOne | data/tick_store.py:267-287 | an iteration that read an item: sentinel, or a row to buffer |
| TickStore.TickStore.TakeNone | data/tick_store.py:267-287 | an iteration whose read timed out |
| TickStore.TickStore.Start | data/tick_store.py:259-263 | the start of the worker |
| TickStore.TickStore.BeginClose | data/tick_store.py:190-191 | the start of a close |
| TickStore.TickStore.SendSentinel | data/tick_store.py:193 | the sentinel enters the queue exactly when there is room |
| TickStore.TickStore.EndClose | data/tick_store.py:198-201 | the final commit and the closing of the connection, or nothing when the commit raises |
| Flatten.SplitMultistatus | execution/alpaca_orders.py:85-124 | successes are the elements with status 200 in order, failures all others; a body that is no list gives neither |
| Flatten.SplitPartitions | execution/alpaca_orders.py:111-124 | the split neither drops nor duplicates an element |
| Flatten.SplitAsDocumented | execution/alpaca_orders.py:105-123 | the split is the documented one if and only if no element has status 207 |
| Flatten.MultiStatusFails | execution/alpaca_orders.py:107-123 | an element with status 207, a documented success, that is reported as failed |
| Flatten.TaskOutcome | execution/alpaca_orders.py:591-611 | a close task is still trying exactly while it had fewer than five replies, all retriable; otherwise it ended with the outcome, retry count and error of its last reply |
| Flatten.AttemptsBounded | execution/alpaca_orders.py:502-508 | in every interleaving each position gets at most 5 DELETEs, and every reply but the last is exactly HTTP 403 with code 40310000 |
| Flatten.ReplyDecides | execution/alpaca_orders.py:592-611 | reply by reply: an acceptance or any other error is the last, and gives the result, retry count and error; that refusal leaves the close trying, or ends it as the fifth |
| Flatten.ReleaseTest | execution/alpaca_orders.py:558-562 | for any quantities with the available one between zero and the whole, the poll's test agrees with the documented one if and only if nothing is held, or the position is long and a whole share of it is held |
| Flatten.HeldFractionMissed | execution/alpaca_orders.py:558-562 | held fractions of a share count as released |
| Flatten.HeldShortMissed | execution/alpaca_orders.py:558-562 | a held short that counts as released |
| Flatten.WaitForRelease | execution/alpaca_orders.py:549-570 | at most 21 polls; the lists are exactly the split of the last poll; it raises exactly on a quantity it cannot read; held positions are returned only after the full wait |
| Flatten.CancelAndWait | execution/alpaca_orders.py:458-494 | the cancel phase: cancelled orders and errors are exactly those of the reply, and the wait happens exactly when an order was cancelled |
| Flatten.CloseConcurrently | execution/alpaca_orders.py:502-508 | any interleaving of the close tasks ends, with one result per listed position and exactly the requests of that schedule, and a position reported closed is gone |
| Flatten.ReportComplete | execution/alpaca_orders.py:510-518 | every listed position is in exactly one of closed and failed, closed if and only if the last of its at most five requests was accepted |
| Flatten.ReleasedInTime | execution/alpaca_orders.py:591-611 | against a broker that refuses with 403/40310000 while a hold lasts and accepts afterwards, no close is an error if and only if every hold ends before the fifth request for its position |
| Flatten.CloseAllPositions | execution/alpaca_orders.py:430-527 | the report is exactly what the cancel reply, the final fetch and the schedule of requests gave, cancel errors included; an exception escapes exactly when a poll of the wait was unreadable; an empty error list means nothing is open at the broker |
| BarAggregator.SymStepKeeps | data/bar_aggregator.py:69-103 | one bar keeps the open window equal to the bars of the latest window and the output equal to the grouping of the earlier ones |
| BarAggregator.SymRunKeeps | data/bar_aggregator.py:69-103 | so does every sequence of bars of a symbol, late ones included |
| BarAggregator.StreamGroups | data/bar_aggregator.py:42-146 | the stream's output once flushed is the grouping of the non-late bars by window, strictly increasing, one folded bar per window that occurs |
| BarAggregator.GroupingUnique | data/bar_aggregator.py:122-131 | that grouping determines the output |
| BarAggregator.VolumeConserved | data/bar_aggregator.py:129 | the volume emitted equals the volume of the non-late bars |
| BarAggregator.AtMostFive | data/bar_aggregator.py:130 | minute-aligned, strictly increasing bars are never late and give bar counts from 1 to 5 |
| BarAggregator.OrderAcrossFlush | data/bar_aggregator.py:140-146 | output across a flush is in order if and only if the next bar opens a later window than the one closed |
| BarAggregator.Interleaving | data/bar_aggregator.py:60-62 | however symbols are interleaved, each one's output is what its own bars alone produce |
| BarAggregator.HighLow | data/bar_aggregator.py:126-127 | high and low are attained and bound every bar of the window |
| BarAggregator.EmittedBar | data/bar_aggregator.py:42-48 | an emitted bar starts on a multiple of five minutes, all its one-minute bars lie in the five minutes from there, it opens with the first and closes with the last of them, and its extremes are theirs |
| BarAggregator.FlushedHistory | data/bar_aggregator.py:140-146 | with its open window emitted, a symbol's output since the previous flush is the grouping of its non-late bars |
| BarAggregator.BarAggregator.OnMinuteBar | data/bar_aggregator.py:69-103 | the method changes its own symbol's window as specified, no other, and emits what that step emits |
| BarAggregator.BarAggregator.Place | data/bar_aggregator.py:75-103 | the same for the statements on the two dictionaries |
| BarAggregator.BarAggregator.EmitWindow | data/bar_aggregator.py:105-133 | hands over the folded window unless its buffer is empty |
| BarAggregator.BarAggregator.FlushAll | data/bar_aggregator.py:140-146 | after a flush each symbol's output since the previous one is the grouping of its non-late bars, and nothing is open |
| BarAggregator.BarAggregator.EmitOpenWindows | data/bar_aggregator.py:142-144 | the loop emits each symbol's open window once, in whatever order it visits them |
| Indicators.SmoothMonotone | analysis/indicators.py:38-40 | Wilder smoothing keeps pointwise order |
| Indicators.SmoothAdds | analysis/indicators.py:38-40 | and is additive |
| IndicatorMeaning.WilderRecurrence | analysis/indicators.py:38-40 | Wilder's recurrence: the new value counts once, the old average period - 1 times |
| Indicators.MovementWithinRange | analysis/indicators.py:86-116 | up and down movement of a bar together never exceed its true range |
| Indicators.DirectionalNonNegative | analysis/indicators.py:118-123 | both DIs are non-negative whenever the first bar has low <= high, whatever the closes |
| Indicators.DirectionalSum | analysis/indicators.py:118-123 | and together at most 100 wherever no bar so far moved further than its true range |
| Indicators.DirectionalBounds | analysis/indicators.py:118-123 | so they are for every series whose first bar has low <= high and whose earlier closes lie inside their bars |
| Indicators.DirectionalExact | analysis/indicators.py:118-123 | with period 1 the sum is at most 100 if and only if the bar moved at most its true range, or has none |
| Indicators.DirectionalAllPeriods | analysis/indicators.py:118-123 | for a chart whose true range is positive wherever a bar moved, the sum stays within 100 for every period and bar if and only if no bar moves further than its true range |
| Indicators.AdxBounds | analysis/indicators.py:125-129 | ADX lies in [0, 100] whenever the first bar has low <= high, whatever the closes |
| Indicators.AdxNeedsFirstBar | analysis/indicators.py:101-105 | with a first bar upside down an ADX of -50 is possible |
| Indicators.BoundsNeedRange | analysis/indicators.py:101-105 | with a close outside its bar a DI of 1000 is possible |
| IndicatorMeaning.DirectionOfDi | analysis/indicators.py:106-123 | where no high rose plus_di is 0, where no low fell minus_di is 0 |
| Indicators.MirrorSwaps | analysis/indicators.py:106-129 | turning the chart upside down exchanges the DIs and keeps ADX, on any data |
| Indicators.RsiBounds | analysis/indicators.py:51-59 | RSI lies in [0, 100], and is the share of gains in all smoothed movement wherever there were losses |
| Indicators.RsiSymmetry | analysis/indicators.py:58-59 | RSI is symmetric about 50 under turning prices upside down if and only if both sides moved or neither did |
| IndicatorMeaning.DirectionOfRsi | analysis/indicators.py:53-59 | wherever there were losses, RSI is above 50 if and only if the smoothed change is upward, below 50 if and only if it is downward |
| Indicators.VwapInsideDay | analysis/indicators.py:144-161 | once the day has traded, VWAP lies in any range that holds the day's contributing bars; before that it repeats the previous value |
| IndicatorMeaning.VwapRunning | analysis/indicators.py:144-161 | a bar that counts enters the day's VWAP with its typical price weighted by its volume; the first sets it, one outside the session leaves it |
| LevelBreak.StepInv | scripts/alert.py:257-322 | one step keeps what a pending level remembers equal to a recount of the history, and an event it raises is backed by that history |
| LevelBreak.FiresAreBacked | scripts/alert.py:293-322 | every alert of every run ends a stay of at least max(2, confirm) snapshots on its side, none on the other, never more than `straddle_grace` undecided in a row, with pace at least `min_pace` |
| LevelBook.FiresOnTheBook | scripts/alert.py:158-163 | an alert above has bids above the price at the start and the end of its stay and in at least max(2, confirm) snapshots, and no book below meanwhile; an alert below is the mirror image |
| LevelBook.AlertPace | scripts/alert.py:301-303 | with positive volumes and epochs, at least min_pace shares a minute were traded since the break began |
| LevelBook.FirstSide | scripts/alert.py:271-276 | the first side is above if and only if the first known middle of the book is at least the price, and nothing is raised then |
| LevelBook.NoBreakNoAlert | scripts/alert.py:289-291 | while the book is on the level's own side nothing is pending and nothing is raised |
| LevelBreak.PlainPace | scripts/alert.py:301-303 | with positive volumes and epochs that pace is traded volume from the first to the firing snapshot per minute between them |
| LevelBreak.FiresAlternate | scripts/alert.py:289-291 | consecutive alerts are on opposite sides and at least the cooldown apart |
| LevelBreak.StayRemembered | scripts/alert.py:280-300 | during an unbroken stay without alerts, undecided snapshots within the grace included, the level is exactly the stay's first volume and time and its counts |
| LevelBreak.ConfirmedStayFires | scripts/alert.py:280-322 | a stay with enough supporting snapshots, pace and cooldown has raised an alert, whatever undecided snapshots within the grace it contains |
| LevelBreak.Level.Clear | scripts/alert.py:165-170 | reset clears the pending part and nothing else |
| LevelBreak.ProgressTells | scripts/alert.py:305-322 | the progress tells a fired alert exactly when one fired, a baseline exactly when the side is first set, and a near miss only of a confirmed break whose pace is too low |
| LevelBreak.Level.Step | scripts/alert.py:257-322 | the statements on the object compute the specified step, event and progress |
| FuturesWalls.TopIsLargest | analysis/futures_walls.py:118-120 | the cut list is sorted by size, is a selection of the given walls of the right length, and nothing left out is larger |
| FuturesWalls.CollectWalls | analysis/futures_walls.py:90-116 | one side's scan keeps exactly the levels near enough and large enough, in book order |
| FuturesWalls.DetectWalls | analysis/futures_walls.py:59-120 | both sides are the specified detections, for a book without a mid price too |
| BookWalls.CandidatesExact | analysis/futures_walls.py:90-116 | the candidates of a side are exactly its levels within the distance of the mid price and at least as large as the threshold |
| BookWalls.RaisedStays | analysis/futures_walls.py:95-96 | raising a level's size never removes it from the candidates |
| BookWalls.ThresholdMeans | analysis/futures_walls.py:83-88 | a size reaches the threshold if and only if it is at least 1 and more than the multiple of a median of the book less one |
| BookWalls.WallsAreLargeLevels | analysis/futures_walls.py:59-120 | every reported wall is a level of its own side near the mid price, and with a multiple of at least 1 more than half of all levels are no larger |
| BookWalls.LargerIsReported | analysis/futures_walls.py:118-120 | a near level at least as large as a reported wall is reported too, unless top_n walls no smaller are |
| BookWalls.NoBookNoWalls | analysis/futures_walls.py:77-79 | a book without both sides or a positive mid price has no walls |
| FuturesWalls.OverlayIs | analysis/futures_walls.py:163-166 | overlaying walls on the index sets each detected price to its last wall and keeps the others |
| FuturesWalls.UpdateAgrees | analysis/futures_walls.py:161-177 | an update keeps the window equal to the last N detections and the index equal to the most recent detection of exactly the prices in it |
| FuturesWalls.RankedIsReport | analysis/futures_walls.py:191-203 | ranking the candidates found in any order gives a correct report |
| FuturesWalls.CountPrices | analysis/futures_walls.py:184-189 | the counter holds, for each price of the window, in how many snapshots it was seen |
| FuturesWalls.RankPersistent | analysis/futures_walls.py:191-203 | a side's report is the top `top_n` by size of exactly the prices seen in at least `min_persistence` snapshots, each with its latest wall |
| FuturesWalls.PruneStale | analysis/futures_walls.py:172-177 | the pruning loop keeps exactly the entries still in the window |
| FuturesWalls.OverlayAndPrune | analysis/futures_walls.py:163-177 | both loops compute the specified index |
| FuturesWalls.PersistentWallScanner.Update | analysis/futures_walls.py:154-177 | the scanner stays in agreement with the recorded detections, which grow by this one |
| FuturesWalls.PersistentWallScanner.PersistentWalls | analysis/futures_walls.py:179-203 | both reports are correct for the whole detection history |
| BookWalls.ReportsArePersistent | analysis/futures_walls.py:184-200 | each reported wall was seen at its price in at least min_persistence of the last window_size detections, and a report that is not full leaves out no such price |
| GammaExposure.NetAt | analysis/gamma_exposure.py:370-376 | the loop sums Black-Scholes exposure over all contracts that have one |
| GammaExposure.TotalIsFlatSum | analysis/gamma_exposure.py:330-352 | the total over strikes equals the flat sum over contracts, and the Black-Scholes total with vendor gamma off |
| GammaExposure.StrikesExact | analysis/gamma_exposure.py:340-348 | strikes strictly ascend and each entry holds exactly its calls' and its puts' exposure |
| GammaSigns.StrikeSigns | analysis/gamma_exposure.py:301-303 | with non-negative gamma, open interest and multiplier every strike's call exposure is at least 0 and its put exposure at most 0 |
| GammaSigns.OneSidedChain | analysis/gamma_exposure.py:301-303 | a chain of calls has no negative total and a curve nowhere negative, a chain of puts the opposite |
| GammaSigns.SwapProfile | analysis/gamma_exposure.py:340-352 | exchanging calls and puts keeps the strikes, exchanges and negates their exposures, and negates every net and both totals |
| GammaSigns.ProportionalToInterest | analysis/gamma_exposure.py:302 | multiplying every open interest by a number multiplies the total by it |
| GammaSigns.OneCall | analysis/gamma_exposure.py:301-303 | the dollars of one concrete call |
| GammaSigns.StaleChain | analysis/gamma_exposure.py:284-298 | where spot has moved further than allowed from every contract's published price, the total is the Black-Scholes total |
| GammaSigns.Drifted | analysis/gamma_exposure.py:284-287 | published gamma is used if and only if spot has moved at most the allowed percentage |
| GammaSigns.LiveExact | analysis/gamma_exposure.py:325-326 | the profile is computed from exactly the contracts with at least min_dte days to go, each as often as listed |
| GammaExposure.CountersBalance | analysis/gamma_exposure.py:325-337 | the four counters miss the row count by exactly the contracts counted twice less those never reported |
| GammaExposure.CountersExact | analysis/gamma_exposure.py:325-337 | with vendor gamma off, positive strikes and positive or missing IV, the counters add up to the row count if and only if no live contract with open interest and IV has already expired, which `min_dte` of at least 1 excludes |
| GammaExposure.BandsPartition | analysis/gamma_exposure.py:251-253 | bands over ascending edges sum to exactly the strikes in [first, last) |
| GammaExposure.DefaultBands | analysis/gamma_exposure.py:246-253 | default bands miss exactly the highest strike, unless it is the only one |
| GammaExposure.HalvingsLogarithmic | analysis/gamma_exposure.py:398-404 | the number of halvings is the base-two logarithm of length over tolerance, rounded up |
| GammaExposure.Bisect | analysis/gamma_exposure.py:397-405 | for any function the loop ends after that many halvings, at the middle of an interval no longer than the tolerance whose ends still disagree |
| GammaExposure.SolveFlip | analysis/gamma_exposure.py:379-407 | None exactly if the window is empty or every cell is quiet; otherwise a grid zero or such a midpoint, in the first cell that is not quiet; halvings at most the logarithm for one cell |
| GammaExposure.MissedZero | analysis/gamma_exposure.py:392-407 | when nothing is found, the grid has a zero if and only if its last point is one, and then every earlier grid value is positive |
| GammaExposure.MissedZeroExample | analysis/gamma_exposure.py:392-407 | a falling line that reaches zero at the top of the window is missed |
| GammaExposure.NothingFound | analysis/gamma_exposure.py:382-407 | for a curve that turns only at grid points and does not end in a zero, nothing is found if and only if the window holds no zero and no change of sign |
| GammaExposure.FlipIsLowest | analysis/gamma_exposure.py:382-407 | for such a curve there is no change of sign before the cell of the value found, and no zero unless that cell starts with one |
| GammaExposure.GridZeroCrosses | analysis/gamma_exposure.py:394-395 | a returned grid zero is a crossing between its grid neighbours if and only if it has two and the next value is negative; otherwise exposure is nowhere negative up to the next grid point |
| GammaExposure.HiddenCrossings | analysis/gamma_exposure.py:384-407 | a curve that crosses twice inside one cell, for which nothing is found |
| GammaExposure.EmptyChainFlips | analysis/gamma_exposure.py:391-395 | a chain without a usable contract, whose exposure is zero everywhere, always yields a flip at the bottom of the window |
| GammaExposure.ScanRows | analysis/gamma_exposure.py:325-344 | the pass over the contracts gives the live rows, the aggregation, the counters and the number of vendor rows |
| GammaExposure.GammaProfile | analysis/gamma_exposure.py:306-367 | a profile exists exactly for a positive spot; its totals are flat sums, its flip a correct search result over [lo, hi], its chain spot a most common underlying price |
| OptionWalls.TableStrikes | analysis/option_walls.py:472-491 | strikes of a coverage table are distinct |
| OptionWalls.TableOrderIndependent | analysis/option_walls.py:465-491 | permuting the rows does not change the table |
| OptionWalls.CoverageBounds | analysis/option_walls.py:468-486 | every entry covers at least one and at most all of the chain's expirations |
| OptionWalls.TableConservesOi | analysis/option_walls.py:472-478 | the whole table's open interest is the side's |
| OptionChain.TableCoversSide | analysis/option_walls.py:474-478 | every entry stands for rows of its side, and every row of the side with open interest is behind an entry |
| OptionChain.TableOrder | analysis/option_walls.py:491 | open interest falls down the table, and where it is equal strikes rise |
| OptionChain.CutLength | analysis/option_walls.py:492 | a cut table is a prefix of the length Python's slice gives |
| OptionWalls.FinishedIsTable | analysis/option_walls.py:480-491 | finishing and sorting the accumulated strikes gives the table of the rows: one exact entry per strike, strictly ordered by falling OI, then strike |
| OptionWalls.CoverageTable | analysis/option_walls.py:448-492 | the function returns that table with distances to spot, cut as Python cuts it, negative `top` included |
| OptionWalls.PairsAreExact | analysis/option_walls.py:260-262 | one pair per (expiration, strike) of the chain, with the last call and the last put quoted there |
| OptionWalls.ImpliedSpotFromParity | analysis/option_walls.py:243-286 | the loop computes the specified estimate, pair count and squared standard deviation |
| OptionWalls.MajorityMedian | analysis/option_walls.py:285 | a median lies wherever a strict majority of the values lies |
| OptionChain.MedianMirror | analysis/option_walls.py:285 | the median leans to neither side: negating the values negates it, for an even number too |
| OptionChain.EstimatesExact | analysis/option_walls.py:271-281 | the estimates are exactly those of the pairs quoted on both sides and struck deep enough below the reference |
| OptionWalls.ExactParity | analysis/option_walls.py:271-286 | if every one of at least three usable pairs satisfies C - P = S - K, the recovered spot is exactly S and the estimates have no spread |
| OptionWalls.RobustParity | analysis/option_walls.py:271-285 | if a strict majority of the estimates lies within e of S, so does the recovered spot |
| OptionWalls.ReversalLegs | analysis/option_walls.py:611-624 | both legs are out of the money at the nearest usable expiration and closest to the target delta there |
| OptionChain.LegsMean | analysis/option_walls.py:611-624 | in terms of the chain: a put struck at or below spot and a call at or above it, at the nearest usable expiration, and no such row is closer to the target delta |
| OptionChain.ReversalProduced | analysis/option_walls.py:607-621 | a risk reversal is produced if and only if the check holds and the nearest usable expiration has both legs |
| OptionWalls.ReversalTrusted | analysis/option_walls.py:186-209 | a risk reversal implies both spots are known and within tolerance |
| OptionWalls.ReversalGuarded | analysis/option_walls.py:573-609 | so the printed spot is within tolerance of the recovered one, and near the true one whenever a majority of pairs is |
| DailyRoutine.AttemptKeeps | main.py:650-786 | one guarded step keeps the marks equal to the latest dates of success and the log in its windows |
| DailyRoutine.RunKeeps | main.py:602-607 | so does every run with non-decreasing dates, restarts that reset the loop's locals included |
| DailyRoutine.RunInOrder | main.py:644-647 | the log follows the clock in whatever sense its readings do |
| DailyRoutine.AtMostOncePerDate | main.py:664-786 | regime, budget reset, flatten, journal and follower never start again on a date they were marked done for |
| DailyRoutine.PassCompletes | main.py:650-786 | after a pass without failures a task is marked done for the date if and only if it was before or the reading lies in its hours |
| DailyRoutine.RestartForgets | main.py:602-607 | a restart forgets exactly the marks kept in local variables |
| DailyRoutine.RaisedSteps | main.py:731-741 | a step that raises is logged and the loop goes on, except for the budget reset, which ends it |
| DailyRoutine.DependenciesHold | main.py:664-786 | regime and premarket start only after a backfill of that date succeeded, thresholds after the watchlist, the follower after the journal |
| DailyRoutine.FlattenInWindow | main.py:743-749 | flatten starts only on a weekday in [flatten_time, journal_time), even if the time of day goes back |
| DailyRoutine.FlattenBeforeJournal | main.py:743-766 | and never after that date's journal, if the time of day does not go back within a date |
| DailyRoutine.FlattenAfterJournal | main.py:743-766 | if it does, a flatten can follow the journal |
| DailyRoutine.RunFlatten | main.py:1723-1743 | over every reply of the broker: raises exactly when positions were seen, an order was cancelled and a poll of the wait was unreadable; sends no DELETE when no position was seen; a finished one without errors leaves nothing open |
| DailyRoutine.FlattenDueExactly | main.py:743-754 | inside the window flatten is due if and only if no flatten of that date has finished, in every run |
| DailyRoutine.FlattenDueAgain | main.py:743-754 | after a flatten it is due again that date if and only if that one raised |
| DailyRoutine.RetriedOnlyAfterRaise | main.py:750-754 | two flattens start on one date only if the first raised, so one with errors in its report is not repeated |
| DailyRoutine.FetchFailureNotRetried | execution/alpaca_orders.py:273-286 | a flatten whose position fetch failed or was unreadable closes nothing and is not started again that date |
| DailyRoutine.Platform.LoopBody | main.py:644-786 | the body on the object's fields and the loop's locals is the specified pass over the ten steps |
| ChainStore.Batch | data/chain_store.py:124-157 | what any batch of upserts does: which keys exist, the last quote per key, the first listing per key, everything else unchanged |
| ChainStore.RowsAreLatest | data/chain_store.py:291-337 | after any calls there is one row per session and symbol ever written, with the quote of the last write and the listing of the first |
| ChainStore.RepeatedWrite | data/chain_store.py:294-297 | repeating a write changes nothing, on any tables |
| ChainStore.WriteFrame | data/chain_store.py:135-136 | a write leaves other sessions and unlisted symbols alone |
| ChainStore.FetchesAreLatest | data/chain_store.py:144-157 | the fetch table holds the last recorded attempt per session and underlying |
| ChainStore.SessionsExact | data/chain_store.py:356-363 | a session is listed if and only if the last recorded attempt for it wrote a non-empty chain |
| ChainStore.FailureHides | data/chain_store.py:339-352 | recording a failure removes exactly that session from the list and touches no row |
| ChainStore.PriorIsGreatest | data/chain_store.py:365-378 | the prior session is the greatest listed one strictly before, and is missing only if there is none |
| ChainStore.PriorIsPredecessor | data/chain_store.py:365-378 | walking back from the latest session visits every listed session in order |
| ChainStore.SessionsHaveSnapshots | data/chain_store.py:291-363 | if a symbol always comes with one underlying, every listed session has a non-empty snapshot, after any calls |
| ChainStore.ChangesAndNewPartition | data/chain_store.py:380-483 | the two queries never overlap and stay inside the later snapshot; they cover it exactly when no contract of both snapshots is dropped by a filter |
| ChainStore.OpenFiltersPartition | data/chain_store.py:420-437 | with filters open they partition it if and only if no contract of both snapshots lacks its days-to-expiration |
| ChainStore.ChangesMean | data/chain_store.py:420-456 | a change is reported exactly for contracts of the underlying in both sessions that pass the filters, as the later open interest less the earlier |
| ChainStore.RankingMeans | data/chain_store.py:436 | the larger change, up or down, comes first |
| ChainStore.NewRankingMeans | data/chain_store.py:482 | new contracts come by open interest, largest first |
| ChainStore.ChangesTelescope | data/chain_store.py:420-456 | over any sequence of sessions, the changes reported step by step add up to last less first |
| ChainStore.ThreeSessions | data/chain_store.py:420-456 | two reported steps give one reported step whose change is their sum |
| ChainStore.DefaultsTelescope | data/chain_store.py:408-456 | following the default sessions back through the whole history, the changes add up to newest less oldest |
| ChainStore.Store.WriteChain | data/chain_store.py:291-337 | the insert loop computes the specified write; a database error leaves both tables as they were |
| ChainStore.Store.RecordFailure | data/chain_store.py:339-352 | writes only the fetch record |
| ChainStore.Store.FindPrior | data/chain_store.py:365-378 | finds the prior session |
| ChainStore.Store.OiChange | data/chain_store.py:380-456 | each joined row that passes the filters once, ranked by the size of its change; nothing without a prior session |
| ChainStore.Store.FindNew | data/chain_store.py:458-483 | each row of the later snapshot absent from the prior session once, ranked by open interest |
| OptionFlow.TickRule | scripts/option_flow.py:85-117 | the single pass computes the flow defined print by print from the prices alone |
| OptionFlow.FlowStep | scripts/option_flow.py:94-113 | what one more print adds, from the last non-zero change among the priced prints up to it |
| OptionFlow.LastChangeMeans | scripts/option_flow.py:99-106 | a direction is up, or down, if and only if the price is above, or below, the last earlier price that differs from it, and missing if and only if none does |
| OptionFlow.TotalSizeStep | scripts/option_flow.py:95 | a print without a size counts as zero shares, any other with its size |
| OptionFlow.FlowPartitions | scripts/option_flow.py:108-117 | every print is bought, sold or unclassified, and the three volumes sum to the total size |
| OptionFlow.MirrorFlow | scripts/option_flow.py:99-113 | replacing prices by a strictly decreasing function of them exchanges buys with sells and upticks with downticks and changes nothing else |
| OccSymbols.Prints | scripts/option_flow.py:48-51 | what the printer writes, for every root, date, side and whole number of thousandths |
| OccSymbols.RoundNearest | scripts/option_flow.py:51 | the printed strike is the nearest whole number of thousandths, an even one at a tie |
| OccSymbols.Parses | data/alpaca_rest.py:372-390 | the parser finds root, date, side and strike in any such text |
| OccSymbols.ParseOccSymbol | data/alpaca_rest.py:380-390 | the scan computes the specified parse, malformed text and Python's leniency for the strike included |
| OccSymbols.RoundTrip | scripts/option_flow.py:48-51 | parsing what was printed gives the contract back |
| OccSymbols.OccInjective | scripts/option_flow.py:48-51 | no two contracts share a symbol |
| Decimals.PadValue | scripts/option_flow.py:51 | zero-padded printing with enough digits is undone by reading |
| Decimals.PyIntDigits | data/alpaca_rest.py:389 | Python's `int` reads plain digits as the number they denote |
| Timestamps.ParsersAgree | data/alpaca_rest.py:123-140 | on well-formed UTC text both parsers return the nanosecond count |
| Timestamps.ParsePreservesOrder | data/alpaca_market_data.py:68-103 | parsed values are ordered exactly as the timestamps are chronologically, to the nanosecond |
| Timestamps.FractionMeaning | data/alpaca_market_data.py:98-100 | padding to nine digits gives the decimal fraction's value in nanoseconds |
| Timestamps.RoundTrip | data/alpaca_market_data.py:68-103 | both parsers invert printing a nanosecond count with nine digits, for every instant of years 1 to 9999 |
| Timestamps.StampUnique | data/alpaca_market_data.py:68-103 | every nine-digit timestamp is the one printed for its own count |
| Timestamps.EpochIsZero | data/alpaca_market_data.py:89-92 | the count starts at 1970-01-01T00:00:00Z |
| Timestamps.LibraryExists | data/alpaca_market_data.py:89-92 | library calls as assumed exist, so the theorems are not empty |
| Timestamps.MemoStep | data/alpaca_market_data.py:87-103 | one call keeps the memo correct and within 4096 entries, and answers as without a memo |
| Timestamps.MemoForgets | data/alpaca_market_data.py:87-96 | the memo forgets only at 4096 entries, and then everything |
| Timestamps.MemoTransparent | data/alpaca_market_data.py:64-103 | in any sequence of calls, malformed text included, the memo changes no answer and stays within its bound |
| Timestamps.TimestampParser.ParseRfc3339Ns | data/alpaca_market_data.py:83-103 | the statements on the memo compute the specified call |

## Left out

- Floating-point rounding: prices, exposures, indicators and clock readings are reals.
- Time zones: the scheduler gets New York dates and times, a chain write its session, the VWAP its day and whether a bar is in regular hours.
- HTTP, WebSocket, asyncio and SQLite internals: replies, schedules and outcomes of statements are inputs; a statement list and its commit succeed or fail as the model says.
- Logging, heartbeats, health rows and progress texts.
- ChainStore.Store.OiChange: rows whose changes have equal size may come in any order, as the query leaves it open; the two close labels of a change, which spell out its two session dates, are not modelled.
- ChainStore: the order inside `snapshot` and the counts of `stats`.
- Flatten.CloseAllPositions: a position counts as closed once the broker accepted its DELETE; when the resulting order fills is the broker's business. A position without a symbol, and a body that is not a list, are not modelled.
- Flatten.CloseConcurrently: the backoff sleeps between requests are not timed.
- BarAggregator.BarAggregator.FlushAll: the order in which symbols are visited is left open, and an exception of the callback, which the source logs, is not modelled.
- BarAggregator: `on_minute_bar` and `flush_all` are taken as one step each; that neither is entered again while a callback is awaited (lines 92, 144) is assumed.
- TickStore: an exception of `executemany` other than `sqlite3.Error`, which would end the worker, is not modelled.
- DailyRoutine.RunFlatten: a body whose prices cannot be read is a failed fetch; a cancellation of the loop while it flattens is the outcome `Died`, after which the flatten is due again (`DailyRoutine.FlattenDueExactly`).
- FuturesWalls.PersistentWallScanner.PersistentWalls: walls of equal size may come in any order.
- OptionWalls.ImpliedSpotFromParity: gives the square of the standard deviation, because a real square root is not modelled.
- OptionWalls.ReversalGuarded: the estimated IV distortion and the explanation text are not modelled.
- GammaExposure.GammaProfile: the Black-Scholes formula is a parameter, an arbitrary function.
- OccSymbols.ParseOccSymbol: digits and white space outside ASCII are not modelled.
- Timestamps.ParsersAgree: the leniency of `strptime` and `fromisoformat` on other than fixed-width text is not modelled; on such text the memo theorems still hold.
- LevelBreak.Level.Step: the wording of the progress text, and the progress clock that only throttles it.
- The single-connection lock file, the watchlist, earnings and regime refreshes, the news and LLM parts, MACD, Bollinger bands and the premarket context: plumbing or single-branch facts.
- `strategy/*` and `data/replay/config.py` are not part of this model.
