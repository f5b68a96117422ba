# Models of the trading platform's stateful cores

Each module models one self-contained algorithm of the platform: code that changes state is a class or a method with
loops, tied by its `ensures` to a specification function or state machine, and the lemmas say what holds of that
specification over every input, run or reachable state.

| file | models |
|---|---|
| `ReplayMerge.dfy` | the k-way merge of bar streams into a pre-sized slab (`barStream`, `nextMinTime`, the assembly loop) |
| `ReplayClock.dfy` | the day rollover of the replay clock, and why it relies on the merge being sorted |
| `EventTracer.dfy` | the lock-free event counter, as a state machine over atomic steps of any number of calls |
| `EventStream.dfy` | the shared SSE connection manager as a state machine, with its joint invariant |
| `EventStreamManager.dfy` | the same manager as written, over `EventSource` objects and timers, refining that machine |
| `DvolBackfill.dfy` | paged downsampling of hourly volatility and batched first-insert-wins inserts |
| `TradeLedger.dfy` | average-cost positions, daily grouping, equity, peak and drawdown |
| `ChartCache.dfy` | the sorted upsert, the live fold of minute bars into buckets and the event handlers |
| `ChartPager.dfy` | backward paging with a widening window and a retry chain |
| `SignalParser.dfy`, `WatchlistParser.dfy` | the two line patterns and the message parser with ticker inheritance |
| `TickerInheritance.dfy` | leaving a ticker out of a line of any message |
| `DiscordWatcher.dfy` | at-most-once posting over ticks, exceptions, crashes and restarts |
| `TradePairing.dfy`, `SignalGrading.dfy` | pairing entries with closes; buckets, profit-factor lift and the decision rule |
| `Indicators.dfy` | the two moving averages, RSI, anchored VWAP and the nearest-bar search |
| `EvaluationMerge.dfy` | last-writer-wins evaluation deltas and their merge into the polled view |
| `Watchdog.dfy` | the heartbeat gate and the silence it leads to |

Money and prices are `real`, times are `int`. Text is ASCII. A cancellation is a poll number from which the context
reports an error; a database failure is the number of the operation that fails; an HTTP answer, a clock reading, a map's
walking order and the order of asynchronous events are parameters.

## Where the code and what is said of it differ

- `mergeLiveBar` is described as a direct upsert on one-minute charts (apps/dashboard/lib/use-chart-data.ts:88-92); the
  code folds every bar. `ChartCache.OneMinuteMergeIsUpsertIff` gives the exact condition under which the two agree.
- The 30-second poll asks for the last five minutes again, and above one minute every row it gets is folded in once
  more. `ChartCache.RefetchChangesNothingIff` says exactly when folding rows leaves a cache as it was, and
  `ChartCache.RefetchIsHarmlessIff` that the same fetch twice running does so only if the rows of each bucket add up to
  no volume. `ChartCache.LateRepeat` shows that a repeat without volume can still take a close back.
- The report states that a signal passes exactly when both lifts are at least 0.10 and agree in sign
  (backend/cmd/omo-signal-corr-hvn-ema/main.go:437-441); the code can also pass when a lift is NaN.
  `SignalGrading.NaNPasses` is a concrete input and `SignalGrading.DecisionIff` the exact condition.
- `removeListener` lowers the count whether or not the listener was registered. Each call of it undoes an add of the
  same listener (apps/dashboard/lib/event-stream.ts:187-189, 214-217), so no hook makes that happen, and
  `EventStream.RefCountIsOutstanding` and `EventStream.PairedRunsServeListeners` prove what follows from it. What a hook
  can do is list a type twice: the listener is then held once and counted twice (`EventStream.DoubledAdd`), which
  closes nothing early. `EventStream.UnmatchedRemoveStarves` says why removes must undo adds.
- `loadMore` moves its cursor before the fetch, so what a failed fetch asked for is missing for good
  (`ChartPager.FailureIsForGood`, and `ChartPager.OneError` for the least run). All of the past is answered exactly when
  no later call asks for less than the cursor it finds and no fetch fails (`ChartPager.AllPastAnsweredIff`).
- `_persist_seen` keeps some 500 ids of an unordered set. It keeps all of them exactly when there are no more
  (`DiscordWatcher.FullSetKept`); beyond that a write can leave out any id (`DiscordWatcher.CanLoseIff`). After 499
  messages, one signal that is posted and saved, and one message more, a restart can post that signal again
  (`DiscordWatcher.SavedIsRepeated`, and `DiscordWatcher.ChannelRepeats` for a channel whose messages come one by one).

## Model

| member | source | states |
|---|---|---|
| `ReplayMerge.BarStream.Peek` | backend/cmd/omo-replay/main.go:1618-1627 | the next bar of the stream, or nothing when it is used up |
| `ReplayMerge.BarStream.Pop` | backend/cmd/omo-replay/main.go:1629-1635 | moves on by one bar and says so, unless the stream is used up |
| `ReplayMerge.NextMinTime` | backend/cmd/omo-replay/main.go:1637-1651 | the earliest head time over all streams: some stream's head has it and none is earlier; nothing only when all are used up |
| `ReplayMerge.WriteTick` | backend/cmd/omo-replay/main.go:1360-1381 | one tick visits the streams in order, one poll each, writing inside the reserved capacity the heads stamped with its time and popping those and no others; at the first poll that reports an error it stops, having done exactly that for the streams visited so far |
| `ReplayMerge.Assemble` | backend/cmd/omo-replay/main.go:1345-1382 | left alone the slab is the whole merge and exactly full, with one group per round; at the first poll that reports an error it stops with a prefix of that; the loop terminates |
| `ReplayMerge.RoundAccounting` | backend/cmd/omo-replay/main.go:1360-1381 | a tick uses up exactly as many bars as it writes, so the re-slice never passes the capacity |
| `ReplayMerge.Progress` | backend/cmd/omo-replay/main.go:1350-1382 | every round takes at least one bar, which is why the loop ends |
| `ReplayMerge.MergeIsInterleaving` | backend/cmd/omo-replay/main.go:1335-1382 | for any streams the slab is a permutation of all their bars, and each stream's bars stand in it in their own order |
| `ReplayMerge.ChronologicalIff` | backend/cmd/omo-replay/main.go:1335-1338 | the slab is in chronological order exactly when every stream is |
| `ReplayMerge.StreamOrderIff` | backend/cmd/omo-replay/main.go:1360-1381 | the slab is in strict (time, stream) order exactly when every stream strictly increases |
| `ReplayMerge.OneTickPerTimestamp` | backend/cmd/omo-replay/main.go:1350-1355 | with strictly increasing streams the number of rounds is the number of distinct timestamps |
| `ReplayClock.Clock.OnTickBegin` | backend/cmd/omo-replay/main.go:2061-2078 | the clock takes the tick's time and moves to a later session only, resetting the aggregators then and only then |
| `ReplayClock.Clock.Replay` | backend/cmd/omo-replay/main.go:1404-1435 | the session and the resets after any train of ticks |
| `ReplayClock.DayAfterIsLatest` | backend/cmd/omo-replay/main.go:2065-2076 | whatever the order of ticks, the clock ends in the latest session seen |
| `ReplayClock.ResetsIncrease` | backend/cmd/omo-replay/main.go:2067-2075 | no session is reset twice or out of order, and only sessions of ticks are |
| `ReplayClock.EachTickInItsSessionIff` | backend/cmd/omo-replay/main.go:2065-2076 | every tick is processed under its own session exactly when sessions never go back: the reliance on a sorted merge |
| `ReplayClock.EverySessionReset` | backend/cmd/omo-replay/main.go:2067-2075 | over chronological ticks each later session is reset |
| `ReplayClock.ReplayResets` | backend/cmd/omo-replay/main.go:1345-1400 | over the merge of chronological streams the aggregators are reset once, in order, for exactly the sessions after the start that have a bar |
| `EventTracer.CountsAreFinishedCalls` | backend/cmd/omo-replay/main.go:1663-1675 | in every reachable state of any interleaving, races to create a key included, a type has a counter exactly when a call of it has finished, the counter is the number of those, and the counters sum to all finished calls |
| `EventTracer.StepRefinesIncrement` | backend/cmd/omo-replay/main.go:1663-1675 | each atomic step either leaves the reported counts alone or, being a call's last, counts that call once: the race is invisible |
| `EventTracer.SequenceNumbersDistinct` | backend/cmd/omo-replay/main.go:1666 | no two calls hold the same sequence number and all lie in 1..seq |
| `EventTracer.QuiescentCounts` | backend/cmd/omo-replay/main.go:1744-1751 | once all calls are done the counts are the calls per type and sum to seq |
| `EventTracer.Reachable` | backend/cmd/omo-replay/main.go:1653-1675 | the joint invariant of counters, unpublished cells, held cells and sequence numbers over all interleavings |
| `EventStream.Reachable` | apps/dashboard/lib/event-stream.ts:30-147 | after any events in any order: a live connection excludes a pending reconnect; a pending close means a zero count; a positive count means a connection or a scheduled reconnect; a zero count without pending close means neither; connected means live; every pending timer is one the module names; each bound type has one handler; delays come from the table; views agree |
| `EventStream.DeliveredExactlyOnce` | apps/dashboard/lib/event-stream.ts:47-69 | while a connection is live one well-formed event reaches every registered listener of its type exactly once and nobody else, a malformed one reaches nobody, and neither changes anything more |
| `EventStream.ReconnectRestores` | apps/dashboard/lib/event-stream.ts:92-97 | a reconnect that fires gives a live source with each listened type bound once |
| `EventStream.CloseReleases` | apps/dashboard/lib/event-stream.ts:100-121 | a debounced close that fires leaves no source, no timer, no binding and a reset backoff |
| `EventStream.DelaysNeverShrink` | apps/dashboard/lib/event-stream.ts:90-91 | between two resets of the backoff the delays are 1, 2, 5 and from then on 10 seconds |
| `EventStream.BackoffIsFailures` | apps/dashboard/lib/event-stream.ts:79-97 | a pending reconnect waits as long as that table says for the number of failures in a row since the source last opened or was closed |
| `EventStream.OpeningConnects` | apps/dashboard/lib/event-stream.ts:79-82 | a source that opens shows as connected in every view and starts the backoff over, and nothing else changes |
| `EventStream.FailingDisconnects` | apps/dashboard/lib/event-stream.ts:83-97 | a source that fails is dropped with its bindings and shows as disconnected in every view; a reconnect is scheduled exactly when someone still refers to the connection |
| `EventStream.OpensOnlyForSomeone` | apps/dashboard/lib/event-stream.ts:92-96 | whatever happens, a source is opened only while someone refers to the connection |
| `EventStream.ConnectedIff` | apps/dashboard/lib/event-stream.ts:41-45 | over every run the flag, in the module and in every view, is true exactly while the current source has opened |
| `EventStream.WatchersIff` | apps/dashboard/lib/event-stream.ts:149-154 | who hears of the flag is exactly whoever has subscribed and not unsubscribed since |
| `EventStream.RegisteredIff` | apps/dashboard/lib/event-stream.ts:123-147 | a listener is registered exactly when it has been added and not removed since |
| `EventStream.AddBalanceIff` | apps/dashboard/lib/event-stream.ts:123-137 | adding keeps the count equal to the number of registered listeners exactly when the listener is new |
| `EventStream.RemoveBalanceIff` | apps/dashboard/lib/event-stream.ts:139-147 | removing keeps it exactly when the listener was registered or the count was zero |
| `EventStream.MatchedIsBalanced` | apps/dashboard/lib/event-stream.ts:123-147 | over every run in which adds are of new and removes of registered listeners, the count is the number of registered listeners |
| `EventStream.RefCountIsOutstanding` | apps/dashboard/lib/event-stream.ts:123-147 | while every remove undoes an add, the count is the number of adds not yet undone, and each registered listener is one of them |
| `EventStream.PairedRunsServeListeners` | apps/dashboard/lib/event-stream.ts:123-147 | in such runs, a listener added twice included, registered listeners always have a connection or a reconnect coming and no close pending; with nothing outstanding and the close timer gone, nothing is left open |
| `EventStream.DoubledAdd` | apps/dashboard/lib/event-stream.ts:214-217 | adding a registered listener again keeps a run paired and the listeners as they are, and counts one more |
| `EventStream.MatchedRunsServeListeners` | apps/dashboard/lib/event-stream.ts:187-189 | when no listener is added while registered, the count is moreover the number of registered listeners |
| `EventStreamManager.Manager.OpenConnection` | apps/dashboard/lib/event-stream.ts:71-98 | moves the abstract state as the state machine does, opening at most one new source |
| `EventStreamManager.Manager.CloseConnection` | apps/dashboard/lib/event-stream.ts:100-112 | moves the abstract state as the state machine does; no source stays open |
| `EventStreamManager.Manager.AddListener` | apps/dashboard/lib/event-stream.ts:123-137 | moves the abstract state as the state machine does, and only the current source is open |
| `EventStreamManager.Manager.RemoveListener` | apps/dashboard/lib/event-stream.ts:139-147 | likewise |
| `EventStreamManager.Manager.OnError` | apps/dashboard/lib/event-stream.ts:83-96 | likewise; the failed source is closed |
| `EventStreamManager.Manager.OnTimer` | apps/dashboard/lib/event-stream.ts:92-121 | likewise, for both timers' callbacks |
| `EventStreamManager.Manager.OnMessage` | apps/dashboard/lib/event-stream.ts:47-69 | each handler bound for the type delivers the event to every listener of the type; a malformed one to none |
| `EventStreamManager.Manager.SetConnected` | apps/dashboard/lib/event-stream.ts:41-45 | a change reaches every subscribed view, no change reaches none |
| `EventStreamManager.Manager.Unsubscribe` | apps/dashboard/lib/event-stream.ts:149-154 | a view that leaves is told nothing more; nothing else changes |
| `DvolBackfill.DownsampleToDaily` | backend/cmd/dvol-backfill/main.go:206-246 | one row per UTC day that has a well-formed candle, in order of first appearance, with the close of that day's last one |
| `DvolBackfill.RowIff` | backend/cmd/dvol-backfill/main.go:206-246 | a row is among them exactly when its day has a well-formed candle and it carries the last one's close as a fraction |
| `DvolBackfill.FallsOnIff` | backend/cmd/dvol-backfill/main.go:219-227 | a candle counts for a day exactly when it has five fields and its time lies in the 86,400,000 milliseconds from that UTC midnight on |
| `DvolBackfill.LastCloseIff` | backend/cmd/dvol-backfill/main.go:222-238 | a day's close is the fifth field of the last candle that counts for it |
| `DvolBackfill.DaysInOrder` | backend/cmd/dvol-backfill/main.go:229-243 | the days stand in the order of their first candles |
| `DvolBackfill.Db.Exec` | backend/cmd/dvol-backfill/main.go:274-283 | an insert that meets a stored key changes nothing and counts nothing |
| `DvolBackfill.InsertBatch` | backend/cmd/dvol-backfill/main.go:263-288 | a batch is all or nothing under any failing operation; what it counts on failure is the growth it had staged |
| `DvolBackfill.InsertRows` | backend/cmd/dvol-backfill/main.go:248-292 | without errors, for any batch size, all rows are inserted and the count is the table's growth; on an error whole batches are kept and the count may include one batch rolled back |
| `DvolBackfill.FetchPages` | backend/cmd/dvol-backfill/main.go:125-159 | each request ends where the last answer's continuation says, and the rows are those of the pages in order |
| `DvolBackfill.BackfillAsset` | backend/cmd/dvol-backfill/main.go:117-180 | if no fetch or insert fails, the table is that of one downsample of the whole series for days not stored before, and the count is its growth; on a failed fetch it is untouched, on a failed insert a prefix of the rows is in |
| `DvolBackfill.PagesDownsample` | backend/cmd/dvol-backfill/main.go:142-157 | pages delivered newest first, downsampled one by one and inserted first-wins, fill each missing day with the last candle of the whole series' day, however the series is cut |
| `DvolBackfill.DayBackfilled` | backend/cmd/dvol-backfill/main.go:117-180 | the table in plain terms: a stored day keeps its value; any other is stored exactly when some page has a candle in that UTC day, as a hundredth of the close of the series' last such candle |
| `DvolBackfill.PagingIsInvisible` | backend/cmd/dvol-backfill/main.go:142-157 | so the table equals that of a single downsample |
| `DvolBackfill.LastCloseConcat` | backend/cmd/dvol-backfill/main.go:232-238 | a day's close over two stretches is the later one's if it has any |
| `DvolBackfill.InsertDistinct` | backend/cmd/dvol-backfill/main.go:249-251 | rows of distinct days add exactly the days not stored and change none that are |
| `DvolBackfill.OldestFirstIsWrong` | backend/cmd/dvol-backfill/main.go:156-157 | with a day cut in two, delivering the older page first would keep a stale close |
| `DvolBackfill.RetryCompletes` | backend/cmd/dvol-backfill/main.go:249-251 | running again after any partial insert gives the table of one full run |
| `TradeLedger.TrackPositions` | backend/cmd/omo-backfill-trades/main.go:244-299 | every symbol's position and every day's P&L and count after all fills |
| `TradeLedger.DailyIs` | backend/cmd/omo-backfill-trades/main.go:291-298 | a day's entry is the P&L and the number of the fills whose time lies in that UTC day |
| `TradeLedger.HandleFill` | backend/cmd/omo-backfill-trades/main.go:256-289 | a fill changes its own symbol's position only, oversells clamped |
| `TradeLedger.FillIs` | backend/cmd/omo-backfill-trades/main.go:256-289 | a buy adds its quantity and its cost; a sell of less than is held lowers the quantity at the same average; a sell of all or more leaves the position flat and realizes what was held; anything else changes nothing |
| `TradeLedger.LedgerConserves` | backend/cmd/omo-backfill-trades/main.go:258-289 | per symbol: buy cost + realized P&L = remaining cost basis + proceeds of the shares sold, shares bought = held + sold, a sell selling no more than is held; the quantity is never negative and flat means a zero average |
| `TradeLedger.AverageWithinBuys` | backend/cmd/omo-backfill-trades/main.go:265-269 | the average of a position lies between two prices paid since it was last flat |
| `TradeLedger.SortDays` | backend/cmd/omo-backfill-trades/main.go:306-312 | the same days, ascending, from any walking order of the map |
| `TradeLedger.CurveUnique` | backend/cmd/omo-backfill-trades/main.go:306-366 | a daily map has one equity curve, whatever order the map is walked in |
| `TradeLedger.DaysAddUp` | backend/cmd/omo-backfill-trades/main.go:291-298 | grouping by day conserves P&L and trade count |
| `TradeLedger.EquityCurve` | backend/cmd/omo-backfill-trades/main.go:317-366 | every point has its day's equity and its drawdown from the running peak, and the peak is the maximum over all prefixes |
| `TradeLedger.FinalEquity` | backend/cmd/omo-backfill-trades/main.go:291-349 | final equity = initial equity + the P&L of every fill, and the days' counts add up to the fills |
| `TradeLedger.DrawdownZeroAtPeak` | backend/cmd/omo-backfill-trades/main.go:351-355 | from a positive start a drawdown is never negative, and zero exactly when the day ends at its running peak |
| `ChartCache.UpsertRefinesUpdate` | apps/dashboard/lib/use-chart-data.ts:72-86 | on a sorted cache the upsert is the map update at the bar's time and keeps strict order |
| `ChartCache.MergeRefinesUpdate` | apps/dashboard/lib/use-chart-data.ts:93-113 | merging a live bar changes the bucket's entry only and keeps strict order |
| `ChartCache.BucketIff` | apps/dashboard/lib/use-chart-data.ts:41-54 | a time's bucket is the multiple of 300, 900, 3600 or 86400 seconds (60 for any other timeframe) at or before it and less than that length away |
| `ChartCache.FoldIsGrouping` | apps/dashboard/lib/use-chart-data.ts:93-113 | folding any bars gives, for every bucket that has one and no other, the candle of its bars: first open, highest high, lowest low, last close, total volume, latest indicators; times strictly increase |
| `ChartCache.CandlesAreBuckets` | apps/dashboard/lib/use-chart-data.ts:93-113 | there is a candle at a time exactly when it begins a bucket of the timeframe in which some bar's time lies, and it is the candle of those bars |
| `ChartCache.GroupIs` | apps/dashboard/lib/use-chart-data.ts:50-54 | the bars of a candle are, in arrival order, exactly those whose time lies in its bucket |
| `ChartCache.LatestAre` | apps/dashboard/lib/use-chart-data.ts:104-109 | each indicator of a candle is that of the last of its bars that carries it |
| `ChartCache.CandleUnique` | apps/dashboard/lib/use-chart-data.ts:96-110 | that description fixes the candle |
| `ChartCache.GroupInTimeOrder` | apps/dashboard/lib/use-chart-data.ts:50-54 | for bars in time order first and last mean earliest and latest, over exactly the bucket's bars |
| `ChartCache.HighLowIgnoreOrder` | apps/dashboard/lib/use-chart-data.ts:100-101 | reordering or repeating bars changes no bucket, high or low |
| `ChartCache.MergeChangesNothingIff` | apps/dashboard/lib/use-chart-data.ts:93-113 | a merge leaves the cache as it was exactly when the bucket has an entry with the bar's close that already covers its high, low and indicators, and the bar has no volume |
| `ChartCache.RefetchChangesNothingIff` | apps/dashboard/lib/use-chart-data.ts:190-203 | folding any rows onto any sorted cache gives it back exactly when every bucket with rows has an entry with the last row's close and latest indicators, no row widens it, and its rows add up to no volume |
| `ChartCache.RefetchIsHarmlessIff` | apps/dashboard/lib/use-chart-data.ts:404-418 | the same fetch twice running is harmless exactly when the rows of no bucket add up to any volume |
| `ChartCache.PollChangesNothingIff` | apps/dashboard/lib/use-chart-data.ts:190-203 | above one minute, a poll leaves a symbol's cache as it was exactly when the symbol's own rows were settled in it |
| `ChartCache.RepeatIsHarmlessIff` | apps/dashboard/lib/use-chart-data.ts:103 | merging a bar directly again changes nothing exactly when it has no volume |
| `ChartCache.LateRepeat` | apps/dashboard/lib/use-chart-data.ts:102 | a bar that comes again after another of its bucket with a different close always changes the cache |
| `ChartCache.OneMinuteMergeIsUpsertIff` | apps/dashboard/lib/use-chart-data.ts:88-113 | for any bar, off the minute included, exactly when merging it on the one-minute chart is the direct upsert the comment promises |
| `ChartCache.PolledThenStreamed` | apps/dashboard/lib/use-chart-data.ts:190-203 | after any events, a minute that is polled and then streamed has its volume doubled, where an upsert would change nothing; they agree exactly at zero volume |
| `ChartCache.HandleIs` | apps/dashboard/lib/use-chart-data.ts:286-393 | what each event does to the bar at any time: on one minute a polled row or a forming bar replaces it, an enriched bar changes the indicators of its bucket's, any other bar is merged into its bucket's, and all else stays |
| `ChartCache.OverlayKeepsPrices` | apps/dashboard/lib/use-chart-data.ts:369-385 | an enriched bar changes indicators only, where a bar exists, and order is kept |
| `ChartCache.ChartData.OnEvent` | apps/dashboard/lib/use-chart-data.ts:286-393 | an event changes its own symbol's bars only, and every symbol's stay strictly sorted |
| `ChartCache.ChartData.OnEvents` | apps/dashboard/lib/use-chart-data.ts:190-203 | a fetch's rows change each symbol by its own rows in order |
| `ChartCache.FirstLoadIsFold` | apps/dashboard/lib/use-chart-data.ts:194-201 | a first load above one minute gives each symbol the fold of its own rows |
| `ChartPager.Pager.Attempt` | apps/dashboard/lib/use-chart-data.ts:246-275 | one attempt: the window below cursor and request, widened by the empty answers so far, and the refs it leaves |
| `ChartPager.Pager.LoadMore` | apps/dashboard/lib/use-chart-data.ts:246-280 | the windows fetched, with their answers, and the refs left by one call with its retry chain, for any answers |
| `ChartPager.ChainTiles` | apps/dashboard/lib/use-chart-data.ts:250-260 | a chain's windows are adjacent and descend, and the cursor ends at their lowest edge |
| `ChartPager.ChainLength` | apps/dashboard/lib/use-chart-data.ts:267-273 | a chain started with no empty answers behind it makes at most ten fetches |
| `ChartPager.EmptyChainReaches319` | apps/dashboard/lib/use-chart-data.ts:255-273 | if all are empty it makes ten and reaches back exactly 319 base windows |
| `ChartPager.AllEmptyReach` | apps/dashboard/lib/use-chart-data.ts:255-273 | how far an all-empty chain reaches from any number of empty answers |
| `ChartPager.ChainWidens` | apps/dashboard/lib/use-chart-data.ts:253-275 | a call asks again after each empty answer and stops at the first other one or at ten in a row |
| `ChartPager.WidthsAre` | apps/dashboard/lib/use-chart-data.ts:253-275 | over any run each window is 1, 2, 4 and so on up to 64 base windows wide by the empty answers in a row before it, which errors leave and rows found set back |
| `ChartPager.WindowsNeverRevisit` | apps/dashboard/lib/use-chart-data.ts:250-260 | over any calls and any answers, errors included, windows only move back and never overlap |
| `ChartPager.TilesIff` | apps/dashboard/lib/use-chart-data.ts:246-260 | all windows together leave no gap exactly when no later call asks for less than the cursor it finds |
| `ChartPager.AllPastAnsweredIff` | apps/dashboard/lib/use-chart-data.ts:246-275 | every instant from the cursor up to the first request has been answered without error exactly when no later call asks for less than the cursor it finds and no fetch fails |
| `ChartPager.FailureIsForGood` | apps/dashboard/lib/use-chart-data.ts:257-263 | what a failed fetch asked for is never covered, whatever calls come before or after |
| `ChartPager.OneError` | apps/dashboard/lib/use-chart-data.ts:257-263 | a concrete run: after one error the same call asks only for what lies below |
| `SignalParser.QuoteIff` | services/discord-tradingthetrend/parser.py:31-35 | the scanner of STRIKE, right, direction and TRIGGER accepts exactly what the pattern matches and yields its only groups |
| `SignalParser.ContIff` | services/discord-tradingthetrend/parser.py:46-56 | the same for the continuation pattern |
| `SignalParser.LineIff` | services/discord-tradingthetrend/parser.py:27-38 | the same for the line pattern |
| `SignalParser.NeverBoth` | services/discord-tradingthetrend/parser.py:27-56 | no line matches both |
| `SignalParser.ClassesAre` | services/discord-tradingthetrend/parser.py:27-56 | white space, line breaks, digits and letters by their codes |
| `SignalParser.SignsAre` | services/discord-tradingthetrend/parser.py:31-33 | the rights are C, c, P and p, the directions < and > |
| `WatchlistParser.ParseMessage` | services/discord-tradingthetrend/parser.py:68-122 | the signals are, line by line, what each line emits under the ticker inherited at it |
| `WatchlistParser.ParseLine` | services/discord-tradingthetrend/parser.py:80-121 | one line's signal and the ticker it leaves for the next |
| `WatchlistParser.SignalIff` | services/discord-tradingthetrend/parser.py:84-121 | a line emits a signal exactly when it matches the line pattern, or the continuation pattern with a ticker to inherit, and is a call with > or a put with <; the signal carries the matched numerals and the line, the right as C or P, and the ticker in capitals |
| `WatchlistParser.NearestTicker` | services/discord-tradingthetrend/parser.py:90-105 | the inherited ticker is that of the nearest accepted full line, and missing exactly when there is none |
| `WatchlistParser.SplitJoin` | services/discord-tradingthetrend/parser.py:80 | lines without breaks in them survive being joined and split |
| `WatchlistParser.SplitLinesIs` | services/discord-tradingthetrend/parser.py:80 | the lines are the text cut at its breaks, a carriage return and line feed together being one |
| `WatchlistParser.StripIs` | services/discord-tradingthetrend/parser.py:81 | a line is stripped of the white space around it and of nothing else |
| `WatchlistParser.RoundTrip` | services/discord-tradingthetrend/parser.py:68-122 | printing any valid signals and parsing the message gives them back in order, whichever tickers repeated from the line before are left out |
| `TickerInheritance.DroppedTickerIff` | services/discord-tradingthetrend/parser.py:80-121 | in any message, leaving the ticker out of an accepted full line, however it is then indented, keeps every signal's fields exactly when that ticker is already in force |
| `TickerInheritance.CutLineIff` | services/discord-tradingthetrend/parser.py:80-121 | the same for the text of the line from its strike on, as it stands |
| `TickerInheritance.StrikeOn` | services/discord-tradingthetrend/parser.py:27-56 | the text of a full line from its strike on matches the continuation pattern with the same groups, and not the line pattern |
| `DiscordWatcher.Watcher.Start` | services/discord-tradingthetrend/watcher.py:80-92 | a new process takes the file's ids or, having none, those on screen, which it writes; it posts nothing, and ends there exactly when that write raises |
| `DiscordWatcher.Watcher.PersistSeen` | services/discord-tradingthetrend/watcher.py:64-66 | the file is the slice written, or untouched when the write raises |
| `DiscordWatcher.Watcher.Tick` | services/discord-tradingthetrend/watcher.py:102-140 | ids seen, posts, file and exception after one tick, wherever an emitter call raises |
| `DiscordWatcher.Live` | services/discord-tradingthetrend/watcher.py:71-100 | the file and the posts of any number of processes, tick by tick and restart by restart, are those of the history |
| `DiscordWatcher.CleanTick` | services/discord-tradingthetrend/watcher.py:104-129 | without exceptions a post is made exactly for every signal of every message on screen that is new, first of its id |
| `DiscordWatcher.FaultCutsTick` | services/discord-tradingthetrend/watcher.py:96-129 | a tick in which call number n raises posts exactly the first n of those, and that call's own if it got through |
| `DiscordWatcher.TickOnce` | services/discord-tradingthetrend/watcher.py:105-107 | a tick posts no signal twice and none of a message seen before it |
| `DiscordWatcher.Reachable` | services/discord-copytrade/watcher.py:56-66 | over all histories of ticks, exceptions, crashes and restarts: within a run no signal is posted twice nor any of a message seeded or loaded at its start, and across runs a signal is posted twice only if a restart had forgotten its message |
| `DiscordWatcher.OnlyUnsavedRepeat` | services/discord-tradingthetrend/watcher.py:56-66 | with at most 500 ids and a readable file, only messages handled after the last write before a restart can be posted again |
| `DiscordWatcher.FileIsLastWritten` | services/discord-tradingthetrend/watcher.py:64-66 | the file holds exactly what the last write that succeeded put there |
| `DiscordWatcher.UnsavedIff` | services/discord-tradingthetrend/watcher.py:64-66 | unsaved are exactly the ids handled since the last write or start |
| `DiscordWatcher.DroppedIff` | services/discord-tradingthetrend/watcher.py:56-62 | dropped are exactly those some start found unsaved, and lost those some start no longer knew |
| `DiscordWatcher.RunningIff` | services/discord-tradingthetrend/watcher.py:80-100 | a process runs exactly when the last start went on, its file naming ids or its seeding write succeeding |
| `DiscordWatcher.FullSetKept` | services/discord-tradingthetrend/watcher.py:65-66 | a write keeps every id exactly when there are at most 500 |
| `DiscordWatcher.CanLoseIff` | services/discord-tradingthetrend/watcher.py:64-66 | a write can leave out a given id exactly when there are more than 500 |
| `DiscordWatcher.SavedIsRepeated` | services/discord-tradingthetrend/watcher.py:56-140 | for any screens of at most 25 silent messages with 499 ids in all, saved whole: `m` is posted and saved, another message pushes it out of the file, and after a restart that finds nothing unsaved it is posted again |
| `DiscordWatcher.ChannelRepeats` | services/discord-tradingthetrend/watcher.py:56-140 | such a run when messages come one by one and each poll reads the last 25 |
| `DiscordWatcher.ForgottenIsRepeated` | services/discord-tradingthetrend/watcher.py:102-129 | a forgotten message still on screen is posted again by the next clean tick |
| `DiscordWatcher.SeenIsNotPosted` | services/discord-tradingthetrend/watcher.py:105-107 | nothing of a message already seen is posted later in the run, so an exception loses the rest of its message |
| `DiscordWatcher.OldIsNotPosted` | services/discord-tradingthetrend/watcher.py:80-92 | until the next start nothing is posted of a message that was in the file when the process started or, if it found none, was on screen then |
| `DiscordWatcher.SignalIdIff` | services/discord-tradingthetrend/watcher.py:116 | two signal ids are the same text exactly when message and index are the same |
| `DiscordWatcher.DecimalIs` | services/discord-tradingthetrend/watcher.py:116 | the index in a signal id is written in decimal |
| `DiscordWatcher.RepeatsAreIdentical` | services/discord-tradingthetrend/watcher.py:115-125 | while message content does not change, whatever is posted twice under one id is the same signal |
| `TradePairing.PairTrades` | backend/cmd/omo-signal-corr-hvn-ema/main.go:246-281 | for any order of walking the symbols: samples in entry order, and for each symbol exactly its own round trips in order |
| `TradePairing.PairSymbol` | backend/cmd/omo-signal-corr-hvn-ema/main.go:257-277 | one symbol's round trips |
| `TradePairing.GroupBySymbol` | backend/cmd/omo-signal-corr-hvn-ema/main.go:247-253 | each symbol's rows of the strategy, in log order, and no empty group |
| `TradePairing.TripIff` | backend/cmd/omo-signal-corr-hvn-ema/main.go:258-276 | a row completes a round trip exactly when it is a close with a P&L and the last entry or close before it is an entry; the sample has the time, direction and tags of the entry and the P&L of the close |
| `TradePairing.SamplesAre` | backend/cmd/omo-signal-corr-hvn-ema/main.go:246-281 | the samples of a symbol in plain terms: its rows of the strategy, each as often as in the log and in time order, and from them every round trip, in order |
| `TradePairing.EntryUsedOnce` | backend/cmd/omo-signal-corr-hvn-ema/main.go:264-276 | no entry is paired with two closes |
| `TradePairing.CloseUsedOnce` | backend/cmd/omo-signal-corr-hvn-ema/main.go:261-262 | no close has two entries: a later entry overrides an unclosed one |
| `TradePairing.SortIsStable` | backend/cmd/omo-signal-corr-hvn-ema/main.go:256 | sorting keeps the rows of one time in their order |
| `TradePairing.SortSorts` | backend/cmd/omo-signal-corr-hvn-ema/main.go:256 | and orders rows by time, losing none |
| `TradePairing.SortPermutes` | backend/cmd/omo-signal-corr-hvn-ema/main.go:256 | and keeps each as often as it was |
| `TradePairing.SortKeepsOf` | backend/cmd/omo-signal-corr-hvn-ema/main.go:279 | the final sort keeps every symbol's samples in their order |
| `SignalGrading.Bucket.Add` | backend/cmd/omo-signal-corr-hvn-ema/main.go:68-78 | a sample adds one sample's totals and nothing else |
| `SignalGrading.Split` | backend/cmd/omo-signal-corr-hvn-ema/main.go:339-366 | the two buckets hold the totals of the samples the tag puts on each side; a missing, unreadable or NaN tag is far |
| `SignalGrading.NearIff` | backend/cmd/omo-signal-corr-hvn-ema/main.go:339-366 | near is a tag that is a number of at most 0.5; within is one from -1 to 1; a tag that is missing, unreadable or NaN is neither |
| `SignalGrading.SideIs` | backend/cmd/omo-signal-corr-hvn-ema/main.go:68-78 | each total of a bucket as a sum over its samples: their number, winners, losers, gains, losses and P&L |
| `SignalGrading.LiftRow` | backend/cmd/omo-signal-corr-hvn-ema/main.go:473-489 | the row's full profit factor is that of the bucket of all samples |
| `SignalGrading.RowIs` | backend/cmd/omo-signal-corr-hvn-ema/main.go:473-489 | both profit factors are gains over losses, infinite if only the losses are zero and zero if both are, and the lift is their difference |
| `SignalGrading.SidesAreAll` | backend/cmd/omo-signal-corr-hvn-ema/main.go:475-481 | however samples are split, the sides add up to the bucket of all |
| `SignalGrading.SideSound` | backend/cmd/omo-signal-corr-hvn-ema/main.go:68-78 | total = gross win − gross loss, neither negative, and each zero exactly without winners or losers |
| `SignalGrading.FullBetween` | backend/cmd/omo-signal-corr-hvn-ema/main.go:482-485 | when both sides have losses the full profit factor lies between theirs |
| `SignalGrading.LiftSign` | backend/cmd/omo-signal-corr-hvn-ema/main.go:485 | the lift is positive exactly when the far side's profit factor is the higher, and negative exactly when the lower |
| `SignalGrading.LiftKind` | backend/cmd/omo-signal-corr-hvn-ema/main.go:87-95 | exactly when the lift is NaN, plus or minus infinity |
| `SignalGrading.PassIff` | backend/cmd/omo-signal-corr-hvn-ema/main.go:491-507 | PASS is the stated rule, except that a NaN lift passes for a negative one |
| `SignalGrading.VerdictIff` | backend/cmd/omo-signal-corr-hvn-ema/main.go:491-507 | which of the other verdicts is given when |
| `SignalGrading.DecisionIff` | backend/cmd/omo-signal-corr-hvn-ema/main.go:491-507 | over graded samples, the decision follows the rule exactly unless a holdout with a near winner has no losing trade and the other has none either or a lift of −0.10 or less |
| `SignalGrading.NaNPasses` | backend/cmd/omo-signal-corr-hvn-ema/main.go:497-507 | a concrete PASS that the rule does not allow |
| `SignalGrading.DecideSymmetric` | backend/cmd/omo-signal-corr-hvn-ema/main.go:491-507 | the verdict does not depend on which holdout is which |
| `Indicators.MeanSeededEma` | apps/dashboard/components/live-chart.tsx:28-41 | one point per bar from the period on, each the average seeded with the mean of the first closes |
| `Indicators.CloseSeededEma` | apps/dashboard/components/trading-signal-chart.tsx:68-81 | the same bars, each the average seeded with the first close |
| `Indicators.MeanSeededIs` | apps/dashboard/components/live-chart.tsx:31-39 | the mean of the first closes at first; then period + 1 times the average is twice the close and period − 1 times the average before |
| `Indicators.CloseSeededIs` | apps/dashboard/components/trading-signal-chart.tsx:70-74 | the first close at first; then the same step |
| `Indicators.SeedsConverge` | apps/dashboard/components/live-chart.tsx:33-39 | from bar period−1 on the two averages differ by (1−k)^(i−period+1) times their first difference |
| `Indicators.AveragesBounded` | apps/dashboard/components/trading-signal-chart.tsx:70-74 | neither leaves the range of the closes seen so far |
| `Indicators.AnchoredVwap` | apps/dashboard/components/live-chart.tsx:57-71 | a point for each counting bar once there is volume: the volume-weighted mean so far |
| `Indicators.VwapPointsAre` | apps/dashboard/components/live-chart.tsx:57-71 | the points are, in order, those of exactly the counting bars by which there is volume, each the mean of high, low and close so far, by volume |
| `Indicators.VwapBounded` | apps/dashboard/components/live-chart.tsx:58-70 | every point lies in the range of the typical prices of the counting bars |
| `Indicators.ComputeRsi` | apps/dashboard/components/trading-signal-chart.tsx:105-143 | one index per bar from the period on, from the smoothed average gain and loss |
| `Indicators.AverageStarts` | apps/dashboard/components/trading-signal-chart.tsx:112-119 | the averages behind the index start as the means of the first gains and losses |
| `Indicators.AverageGoesOn` | apps/dashboard/components/trading-signal-chart.tsx:127-133 | then each move replaces one of their parts |
| `Indicators.RsiIs` | apps/dashboard/components/trading-signal-chart.tsx:121-139 | the index is the share of the average gain in the two, in hundredths, and 100 without losses |
| `Indicators.RsiExtremes` | apps/dashboard/components/trading-signal-chart.tsx:119-139 | the index is in 0..100; it is 100 exactly when no close has fallen and 0 exactly when none has risen and some has fallen, of all closes so far, or with a period of one, of the last two |
| `Indicators.FindNearestBar` | apps/dashboard/components/trading-signal-chart.tsx:145-159 | no bar is nearer in time, and of equally near ones it is an earliest |
| `EvaluationMerge.EvaluationStream.OnEvents` | apps/dashboard/hooks/use-strategy-evaluation-stream.ts:42-68 | a window is applied oldest first, and the version goes up by one exactly when some event is accepted |
| `EvaluationMerge.DirtyIff` | apps/dashboard/hooks/use-strategy-evaluation-stream.ts:44-66 | the version is bumped exactly when some event of the window is accepted in its turn |
| `EvaluationMerge.LatestWins` | apps/dashboard/hooks/use-strategy-evaluation-stream.ts:47-66 | over any events with times, in any order, a key is held exactly when it has had one, with the time and counts of the first of its latest, and the decision of the last event that was newer than all before it and carries one |
| `EvaluationMerge.FedIsProcess` | apps/dashboard/hooks/use-strategy-evaluation-stream.ts:42-68 | overlapping windows act as the one sequence of their events |
| `EvaluationMerge.ReplayChangesNothing` | apps/dashboard/hooks/use-strategy-evaluation-stream.ts:54-57 | events already processed, shown again in any order, change nothing and bump no version |
| `EvaluationMerge.RepeatIsSkippedIff` | apps/dashboard/hooks/use-strategy-evaluation-stream.ts:54-57 | an event shown twice running is passed over exactly when its time parses |
| `EvaluationMerge.UntimedIsTaken` | apps/dashboard/hooks/use-strategy-evaluation-stream.ts:51-63 | an event without a time that parses is always taken, and what it leaves out, time or decision, stays as held |
| `EvaluationMerge.OrderDoesNotMatter` | apps/dashboard/hooks/use-strategy-evaluation-stream.ts:45-57 | neither arrival order nor repeats decide the times held |
| `EvaluationMerge.MergeView` | apps/dashboard/hooks/use-strategy-evaluation-stream.ts:88-103 | the view has the polled rows in their order, with other fields untouched |
| `EvaluationMerge.ViewIsLatest` | apps/dashboard/hooks/use-strategy-evaluation-stream.ts:34-104 | over any windows of timed events a row is the polled one unless its key's latest event is later, and then has that event's time and counts and the last decision accepted, if there is one |
| `EvaluationMerge.NeverOlderIff` | apps/dashboard/hooks/use-strategy-evaluation-stream.ts:91-96 | a row has a known time not before the polled one exactly when the polled time parses and the live time, if there is one, does too; an empty time reads as zero |
| `EvaluationMerge.ViewNeverOlder` | apps/dashboard/hooks/use-strategy-evaluation-stream.ts:85-104 | over events whose times parse, merging never takes a row back in time |
| `EvaluationMerge.NeverShareKeyIff` | apps/dashboard/hooks/use-strategy-evaluation-stream.ts:26-28 | two strategies never share a key, for any symbols, exactly when neither id followed by a colon begins the other |
| `EvaluationMerge.KeysApart` | backend/internal/domain/strategy/types.go:10-15 | so ids as the platform validates them, which hold no colon, never do |
| `EvaluationMerge.PlainSymbolsApart` | apps/dashboard/hooks/use-strategy-evaluation-stream.ts:26-28 | nor do symbols without a colon, whatever the strategies |
| `Watchdog.Notify` | backend/cmd/omo-core/watchdog.go:98-116 | the heartbeats of any train of ticks |
| `Watchdog.SkipIff` | backend/cmd/omo-core/watchdog.go:49-58 | a tick is skipped exactly when there has been a bar, more than 90 and less than 300 seconds ago |
| `Watchdog.WarmupBeats` | backend/cmd/omo-core/watchdog.go:50-52 | before the first bar every tick is a heartbeat |
| `Watchdog.BeatIff` | backend/cmd/omo-core/watchdog.go:49-58 | a time is a heartbeat exactly when a tick at it is not skipped |
| `Watchdog.SkipSpreadsBeats` | backend/cmd/omo-core/watchdog.go:49-58 | over a frozen feed, heartbeats with a skipped tick between them are at least 210 seconds apart |
| `Watchdog.FrozenFeedExpires` | backend/cmd/omo-core/watchdog.go:89-115 | once a healthy feed freezes, any interval under 210 seconds expires if ticks are less than 210 seconds apart |
| `Watchdog.TrainExpiresIff` | backend/cmd/omo-core/watchdog.go:89-116 | with a tick every half interval after a freeze, the heartbeats of the loop lapse for a whole interval exactly when every tick inside it finds the feed wedged |
| `Watchdog.FreezeExpiresIff` | backend/cmd/omo-core/watchdog.go:89-116 | such a train expires exactly when the feed is under five minutes old two ticks after the last healthy one |
| `Watchdog.EveryFreezeExpiresIff` | backend/cmd/omo-core/watchdog.go:89-116 | every such train expires, wherever the freeze falls between ticks, exactly for intervals under 210 seconds |
| `Watchdog.OldNeverSkips` | backend/cmd/omo-core/watchdog.go:46-58 | a feed five minutes old or more never causes a skip |

## Left out

- Floating-point rounding, 64-bit wrap-around of counters and durations, and the saturation of time differences.
- Time zones: the session of an instant is a function parameter; `ReplayClock.ReplayResets` asks it to be monotone.
- Replay: a nil stream, the sharded pipeline that consumes the slab, and the per-tick publishing of the legacy path.
- EventTracer.QuiescentCounts: the report is read in one state; a report taken while calls run may mix states.
- EventTracer.CountsAreFinishedCalls: the counter map is a step machine over values, not Go objects; memory ordering is that of sequentially consistent atomics.
- SSE manager: a listener that adds or removes listeners from inside its own callback, the parsing of the event text (a flag says whether it is well formed), and rendering without a window.
- DVOL: HTTP and JSON decoding; the prepare step of a batch is one more operation that can fail.
- TradeLedger.EquityCurve: cancellation part way through the days and failed saves, which leave a prefix of the points.
- Trade ledger: the parsing of orders and the order of fills with equal times, which the source leaves open; the fills are taken in the order of its sort.
- ChartCache.ChartData.OnEvents: a fetch that another one overlaps; rows are merged one fetch at a time.
- ChartPager.Pager.LoadMore: the 50 ms pause between retries, during which another call could start, and an identical request already in flight, which counts as an empty answer.
- Parser: characters outside ASCII, and the conversion of a numeral to a float; a signal keeps the numerals' text.
- Watcher: the page itself, heartbeat file and post payload fields other than the signal; a write cut short is a file that cannot be read at the next start.
- Grading: the choice of holdouts, the reading of logs and the report files.
- Charts: Bollinger bands, AVWAP anchors and session detection (a flag per bar).
- Evaluations: the other polled fields, which the merge leaves alone, are one opaque value.
- Watchdog: the notify call's own errors and the start-up checks.
- Everything behind the platform's internal packages, service wiring, styling, and the analysis scripts.
