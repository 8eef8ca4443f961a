# Verified model of the trading platform's core

This project models the stateful and algorithmic cores of the trading platform and proves properties of them over every
input and every run: the tick-to-candle pipeline, order submission against an unreliable broker, reconciliation blocks,
the orchestration graph, support/resistance detection, risk gating, and three smaller algorithms. Objects whose methods
update fields are classes whose methods are proved against specification functions; the run theorems are lemmas about
those functions. Prices and percentages are exact reals. Calls to Redis and to the broker are parameters that say whether
the call succeeds and, for the broker, whether a failed placement took effect all the same; a failed Redis call has no
effect. Clocks are parameters. Exchange codes contain no colon, so an `EXCHANGE:SYMBOL` key determines both parts.

| file | what it models |
|---|---|
| `Ticks`, `Aggregation`, `Aggregator`, `AggregationTheorems` | online bar aggregation and its batch specification |
| `Validator`, `Buffer`, `KiteFeed`, `IngestionAgent` | tick validation, the two-store queue, cumulative volume, the pipeline step |
| `Orders`, `Execution` | the adversarial broker, the retry protocol, the dead-letter queue |
| `Differ`, `Reconciliation`, `EntryBlocks` | diffs, the block registry over runs of cycles, and its effect on signals |
| `Nodes`, `Orchestrator`, `WorkingMemory` | node functions, the interruptible graph, the budgeted store |
| `Clustering`, `SupportResistance`, `CandidateLevels` | greedy clustering, pivots, volume profile, touch counts |
| `Correlation`, `Sizing`, `RiskEngine`, `RiskDecisions`, `PortfolioHeat`, `HeatRounding` | Pearson guard, sizes, the gate sequence and its conditions in numbers, heat over runs, rounding of recorded risk |
| `Dispatcher`, `Drawdown`, `Adjustment` | sliding-window limiter, running-peak drawdown, split and bonus adjustment |
| `Common`, `Numbers`, `Sums`, `Sorting` | sequences, rounding, sums, the library sort |

## Where the code and its documentation differ

The model follows the code.

- `shared/orchestrator/graph.py:192-194` says a cycle without input resumes from the checkpoint; the code starts from the
  local state (`Orchestrator.CycleNeverResumes`).
- `shared/orchestrator/nodes.py:330-331` says the approval node increments `trades_today`; the code only clears the request.
- `shared/orchestrator/state.py:8-9` says only the kill-switch node sets the flags; the signal node sets the kill flag and
  the risk node the breaker flag. No node lowers either.
- `shared/core/constants.py:40-41` calls HIGH_VOL_CHAOS zero risk without exceptions; sizing buys one share
  (`RiskEngine.ChaosApprovesOneShare`).
- The 7 percent and 5 percent limits hold for the preliminary estimate, not for the size that is approved. One share
  bought beyond the risk budget, or a Kelly size, can overstep them by up to 3 percent of capital
  (`PortfolioHeat.OneShareOversteps`); fixed-risk sizing that affords a share can do so by at most 0.00005, the rounding
  to four decimals. `PortfolioHeat.HeatKeptIff` and `PortfolioHeat.SectorsKeptIff` give the exact condition on a
  proposal, `HeatRounding.HeatRunsKeptIffSafe` and `HeatRounding.SectorRunsKeptIffSafe` that on the capital.
- `shared/ingestion/agent.py:212-220` promises all open bars; a 5-minute bar replaces the 1-minute bar of the same key.
- `shared/ingestion/buffer.py:128-129` calls the limit of a drain a maximum. A negative limit slices from the end: all
  but the last ticks of memory are returned, so the result is empty only when memory is that short
  (`Buffer.DrainLimit`, `Buffer.NegativeDrainReturns`).
- A drain skips payloads that do not parse, but JSON of another shape, such as `null`, raises past the handler that
  skips (`shared/ingestion/buffer.py:160-165`), after the batch was trimmed: the ticks behind it are lost
  (`Buffer.MisshapenLosesTick`; `Buffer.NothingLost` says exactly when).
- Volumes adjusted in two passes can differ from one pass: unless the first pass rounds nothing away, some second pass
  makes them differ (`Adjustment.VolumesComposeIffWhole`).
- A resubmitted order id is not looked up before its first attempt (`shared/execution/engine.py:311-313`), so that
  attempt can duplicate the order (`Execution.ResubmissionDuplicates`).

## Model

| member | source | states |
|---|---|---|
| AggregationTheorems.OnlineIsBatch | shared/ingestion/aggregator.py:53-148 | For any interleaving of symbols, the candles emitted for a key followed by its flushed bar are the summaries of any maximal cut of that key's own ticks into consecutive same-bar runs; bars are the windows of `Aggregation.BarStartIsBoundary` |
| AggregationTheorems.VolumeConserved | shared/ingestion/aggregator.py:67-148 | Emitted plus flushed candles of a key carry exactly the volume and the number of its ticks |
| Aggregation.RunsAreMaximal | shared/ingestion/aggregator.py:32-35 | The runs cut the ticks completely into non-empty blocks of one bar each, in the sense of `Aggregation.BarStartIsBoundary`, and neighbouring blocks are in different bars |
| Aggregation.MaximalRunsUnique | shared/ingestion/aggregator.py:32-35 | There is only one such cut |
| Aggregation.SummaryBounds | shared/ingestion/aggregator.py:67-120 | High and low of a candle are the extremes of its run and attained in it; open and close lie between them |
| Aggregation.BarStartIsBoundary | shared/ingestion/aggregator.py:32-35 | A bar starts on a whole multiple of the interval in milliseconds and covers the timestamp from there for one interval; no other multiple does |
| Aggregation.SummaryCovers | shared/ingestion/aggregator.py:67-120 | The candle of a block opens at its first price, closes at its last, counts its ticks, starts on an interval boundary and covers every one of its timestamps |
| AggregationTheorems.EmitsOnLeavingWindow | shared/ingestion/aggregator.py:53-120 | A tick completes a candle if and only if its key has an earlier tick and the latest one lies in another window between interval boundaries |
| AggregationTheorems.FineBarFixesCoarse | shared/ingestion/aggregator.py:32-35 | The start of a fine bar determines the start of the coarse bar around it when one interval divides the other |
| AggregationTheorems.CoarseCandleIsMerge | shared/ingestion/agent.py:173-183 | Out-of-order ticks included, a coarse roll happens only on a tick that also rolls the fine bar, and the coarse candle is the merge of the fine candles since the previous coarse roll |
| AggregationTheorems.SameOpenKeys | shared/ingestion/agent.py:218-220 | Aggregators of two intervals fed the same ticks hold open bars for the same keys |
| Aggregator.BarState.Absorb | shared/ingestion/aggregator.py:102-120 | Absorbing a tick in place extends the bar's value |
| Aggregator.CandleAggregator.Ingest | shared/ingestion/aggregator.py:53-120 | The open bars and the completed candle after one tick are those of the specification, which emits as `AggregationTheorems.EmitsOnLeavingWindow` says; no bar object is shared |
| Aggregator.CandleAggregator.Flush | shared/ingestion/aggregator.py:122-148 | Returns exactly one candle per open bar and leaves none open |
| Aggregator.CandleAggregator.Reset | shared/ingestion/aggregator.py:150-160 | Forgets the bar of one key and no other |
| Validator.TickSequenceValidator.Validate | shared/ingestion/validator.py:34-75 | Accepts exactly a positive price, a volume that is not negative, a time at most 2000 ms ahead and at most 500 ms behind the key's last, or refuses with the first applicable reason; the last timestamp becomes the accepted tick's, even when it went backwards |
| Validator.TickSequenceValidator.Reset | shared/ingestion/validator.py:77-94 | Forgets one key, or with an empty exchange exactly the keys that end in the symbol |
| Validator.DriftIsBounded | shared/ingestion/validator.py:61-68 | Over any feed, consecutive accepted ticks of a key never step back by more than the tolerance, and the remembered timestamp is the last accepted one |
| Validator.AcceptsExactly | shared/ingestion/validator.py:34-75 | Over any feed a tick is accepted if and only if it meets these conditions against the last accepted tick of its key |
| Validator.DriftIsUnbounded | shared/ingestion/validator.py:61-68 | Steps of the whole tolerance are all accepted, so n ticks can go back n times the tolerance |
| Buffer.TickBuffer.Push | shared/ingestion/buffer.py:90-107 | Appends to Redis, or to memory when Redis is absent or fails |
| Buffer.TickBuffer.PendingCount | shared/ingestion/buffer.py:109-121 | Memory length plus the Redis length when it can be read |
| Buffer.TickBuffer.Drain | shared/ingestion/buffer.py:123-168 | The ticks returned and both queues after a drain, with each Redis call failing or not; a misshapen payload ends the Redis batch after it was trimmed |
| Buffer.Deserialize | shared/ingestion/buffer.py:157-165 | Parses payloads in order, skips the malformed ones and raises at the first misshapen one, keeping the ticks before it |
| Buffer.NothingLost | shared/ingestion/buffer.py:90-168 | Over any run of pushes and drains with calls failing arbitrarily, each store gives up its payloads in the order it received them, and every tick is drained, queued or dropped behind a misshapen payload; drained plus queued ticks are a permutation of all ticks if and only if no batch taken from Redis had a tick behind such a payload |
| Buffer.ShapelyNeverLost | shared/ingestion/buffer.py:90-168 | When Redis holds nothing misshapen at the start, no run loses a tick |
| Buffer.MisshapenLosesTick | shared/ingestion/buffer.py:153-165 | A tick behind a `null` payload is taken from Redis and not returned |
| Buffer.DrainLimit | shared/ingestion/buffer.py:134-148 | A drain of n >= 0 returns at most n ticks; a negative n returns all but the last -n ticks of memory and nothing from Redis, so nothing if and only if memory holds at most -n |
| Buffer.DrainExact | shared/ingestion/buffer.py:134-168 | A drain of n >= 0 takes the oldest payloads of memory up to n and as many of the oldest in Redis as n leaves, unless a Redis call fails; what is taken is returned, parsed, and gone from its store |
| Buffer.UnlimitedDrain | shared/ingestion/buffer.py:109-134 | A drain without a limit is one of as many payloads as the queue reports, which is memory alone when Redis cannot say |
| Buffer.NegativeDrainReturns | shared/ingestion/buffer.py:138-140 | A drain of -1 returns the older of two ticks in memory |
| Buffer.DrainAll | shared/ingestion/buffer.py:123-168 | An unlimited drain with working calls empties both stores, memory first |
| KiteFeed.KiteAdapter.HandleTicks | shared/ingestion/kite_ws.py:155-181 | The ticks delivered and the remembered cumulative volumes after a batch |
| KiteFeed.DeliversOne | shared/ingestion/kite_ws.py:155-181 | Over any entries: one without a positive price is skipped, any other delivers one tick with its price and time, under the mapped instrument or its own number on NSE, whose volume is the growth since the token's last positive-price entry |
| KiteFeed.DigitsAreDecimal | shared/ingestion/kite_ws.py:170 | The text of a token is its decimal representation |
| KiteFeed.DeltasTelescope | shared/ingestion/kite_ws.py:155-181 | The delivered volumes of a token sum to last minus first cumulative volume plus its total falls |
| KiteFeed.VolumeTelescopes | shared/ingestion/aggregator.py:67-148 | Through one aggregator, emitted plus flushed volume is last minus first cumulative value if and only if the cumulative volume never falls |
| KiteFeed.RefusedVolumeIsLost | shared/ingestion/kite_ws.py:155-181 | With the validator in between, candle volume is last minus first cumulative value plus the falls minus the volume of the refused ticks; without falls it telescopes if and only if the refused ticks carry no volume |
| IngestionAgent.DataIngestionAgent.InjectTick | shared/ingestion/agent.py:151-193 | A refused tick changes nothing; an accepted one is aggregated at both sizes, recorded as latest and buffered, and a completed 5-minute candle is the merge of the 1-minute candles since the last 5-minute roll |
| IngestionAgent.DataIngestionAgent.FlushOpenBars | shared/ingestion/agent.py:212-220 | Returns the 5-minute bar of every key with an open bar and leaves both aggregators empty |
| Orders.DeadLetterQueue.Enqueue | shared/execution/dead_letter.py:45-100 | Appends one entry and keeps the earlier ones |
| Orders.DeadLetterQueue.Peek | shared/execution/dead_letter.py:102-123 | A suffix of the entries, of the length a negative slice gives; zero returns all |
| Execution.ExecutionEngine.Submit | shared/execution/engine.py:230-385 | A halted or non-compliant order reaches neither broker nor dead-letter queue and is rejected field by field; otherwise broker and call log are those of the retry loop, a fill is the broker's report with attempt and audit id, and exactly without one a rejection is returned and a dead-letter entry appended |
| Execution.ExecutionEngine.PlaceWithRetry | shared/execution/engine.py:305-367 | The retry loop follows the specification against any broker behaviour; `Execution.CallsDecideResult` and `Execution.CallsAreTruthful` say what that is, call by call |
| Execution.SubmitIsSafe | shared/execution/engine.py:260-385 | Whatever the broker does, one submission adds the compliance-tagged order of that intent at most once and nothing else, and its calls are disciplined |
| Execution.RetryDisciplined | shared/execution/engine.py:308-335 | Attempts stay within max_retries + 1, and every placement after the first attempt follows a query that found nothing in the same attempt |
| Execution.RetryAddsAtMostOne | shared/execution/engine.py:308-335 | Once the broker holds the id, later attempts add nothing |
| Execution.ResubmissionDuplicates | shared/execution/engine.py:308-335 | Submitting an id the broker already holds adds a second order if and only if its first attempt, which no query precedes, takes effect |
| Execution.RunRecordsCopies | shared/execution/engine.py:230-385 | Over any run of submissions the broker gains, of each id, one order if the id is new to it and one for each such duplicate |
| Execution.DistinctIdsOnce | shared/execution/engine.py:230-385 | Over any run of submissions with distinct ids each new id is recorded at most once |
| Execution.LostMeansRecorded | shared/execution/engine.py:361-385 | A loop without a fill has changed the broker's book exactly when its calls show a placement that took effect and only failed queries after it |
| Execution.DeadLetterMayHoldOrder | shared/execution/engine.py:361-385 | A dead-lettered order is at the broker if and only if its last placement took effect and was followed by failed queries only |
| Execution.DeadLetteredButPlaced | shared/execution/engine.py:361-385 | A timeout on the last attempt leaves a rejected, dead-lettered order at the broker |
| Execution.EventuallyFills | shared/execution/engine.py:308-335 | If some attempt within the limit meets a working broker and no permanent error comes before it, the submission fills by then |
| Execution.CallsDecideResult | shared/execution/engine.py:305-367 | The loop goes on only after a query that found nothing or a transient error, from attempt to attempt without gaps; its last call's report, permanent error or last transient error is its result, so it stops nowhere else |
| Execution.PermanentErrorIsFinal | shared/execution/engine.py:337-345 | A permanent error of a placement or a query is the last call, and the result is no fill with its message and attempt |
| Execution.FirstErrorRejects | shared/execution/engine.py:337-345 | A permanent error of the first placement ends the submission after this one call |
| Execution.CallsAreTruthful | shared/execution/engine.py:308-335 | Placements have the effect the broker chose, an answered query finds the order if and only if the broker held the id before or an earlier placement took effect, and the broker ends with the order exactly when one did |
| Differ.DiffPositions | shared/reconciliation/differ.py:30-120 | The loops over the two dictionaries produce the report of the specification, whose records `Differ.PositionRecordsInFull` gives |
| Differ.DiffOrders | shared/reconciliation/differ.py:123-195 | The loops over the two dictionaries produce the report of the specification, whose records `Differ.OrderRecordsInFull` gives |
| Differ.LastWinsIsLast | shared/reconciliation/differ.py:54-55 | Looking up a key in a dictionary built from a list gives the last item with that key |
| Differ.LastWithIsLastListing | shared/reconciliation/differ.py:54-55 | The value of a key is the listing after which no other has that key, and there is none only if no listing has it |
| Differ.KeysInFirstOrder | shared/reconciliation/differ.py:54-57 | A dictionary is walked in the order in which its keys first occur |
| Differ.PositionReportIsExact | shared/reconciliation/differ.py:54-112 | The records that carry a key are exactly the findings for its last broker and internal listing: none missing, none twice, and no two on the same field |
| Differ.PositionRecordsInFull | shared/reconciliation/differ.py:57-112 | A record is reported if and only if it is owed by the last listings of its key: one listed side that is not flat; of two sides the quantities if they differ and, besides, the prices if they differ by more than 0.1 percent of a positive internal price; with the internal value first |
| Differ.PositionReportEmpty | shared/reconciliation/differ.py:54-120 | The position report is empty if and only if every key reconciles |
| Differ.OrderReportIsExact | shared/reconciliation/differ.py:146-187 | Every record occurs in the order report as often as there are order ids whose last listings amount to that very finding; there is one record for each id that does not reconcile |
| Differ.OrderRecordsInFull | shared/reconciliation/differ.py:149-187 | A record is owed to an order id exactly when one side alone lists it, or both do with statuses that differ beyond their case, and it carries the internal value first |
| Differ.UpperIgnoresCase | shared/reconciliation/differ.py:164 | Comparing upper-cased statuses is comparing them letter by letter up to the case of ASCII letters |
| Differ.OrderReportEmpty | shared/reconciliation/differ.py:146-195 | The order report is empty if and only if every order id reconciles |
| Reconciliation.BlockRegistry.Block | shared/reconciliation/block_registry.py:59-87 | Records the block in Redis, or in memory when Redis is absent or fails |
| Reconciliation.BlockRegistry.Clear | shared/reconciliation/block_registry.py:89-111 | Removes the block from memory, and from Redis when the deletion works |
| Reconciliation.BlockRegistry.IsBlocked | shared/reconciliation/block_registry.py:113-131 | True for a block in memory or one that Redis can be read to hold |
| Reconciliation.ReconciliationAgent.RunCycle | shared/reconciliation/agent.py:126-194 | Mismatches, blocks, remembered keys and the newly blocked list after a cycle are those of the specification; the cleared list holds each previous key that is no longer mismatched once |
| Reconciliation.CycleRecords | shared/reconciliation/agent.py:151-177 | From any state and under any failures, recorded blocks become the current mismatches, the earlier blocks that were not stale, and the stale ones whose Redis deletion failed |
| Reconciliation.MismatchedIsRecorded | shared/reconciliation/agent.py:155-161 | After every run of cycles each currently mismatched symbol is recorded as blocked in Redis or in memory |
| Reconciliation.RecordedIffMismatchedOrStuck | shared/reconciliation/agent.py:171-177 | From an empty start a key is recorded if and only if it is mismatched now or its last deletion from Redis failed |
| Reconciliation.StuckStays | shared/reconciliation/block_registry.py:97-106 | Such a block survives every later cycle in which its key is not mismatched: no deletion is retried |
| Reconciliation.BlockedIsMismatched | shared/reconciliation/agent.py:151-177 | Without Redis, or when every attempted deletion succeeds, the blocked set equals the current mismatch keys after each cycle |
| Reconciliation.FailedDeleteLeavesBlock | shared/reconciliation/agent.py:171-177 | A concrete run ends with no mismatch and a block recorded |
| Reconciliation.ReportsNewBlocks | shared/reconciliation/agent.py:155-161 | Every mismatched key that was not recorded is reported as newly blocked, and only mismatched keys are |
| Reconciliation.ReportsExactlyNewBlocks | shared/reconciliation/agent.py:155-161 | When reads work the reported keys are exactly the set difference, each once |
| EntryBlocks.MismatchBlocksSignal | shared/orchestrator/nodes.py:187-197 | A signal on a mismatched symbol is blocked if and only if the registry's Redis read works or its block is in memory, and then it is not counted |
| EntryBlocks.CountedIffReconciled | shared/orchestrator/nodes.py:187-199 | With no failed deletion and working reads, a signal that passes the other gates is counted if and only if its symbol is not mismatched |
| Nodes.FirstLargeIsFirst | shared/orchestrator/nodes.py:290-312 | The approval request concerns the first position over the threshold, if there is one |
| Nodes.RiskNodeDecides | shared/orchestrator/nodes.py:274-313 | At a loss of 2 percent or more the breaker is set and nothing else happens; halted, nothing; otherwise the request names the first position worth more than 5 percent of a positive capital, with its value, share and time, and stays as it was when there is none |
| Nodes.ReconciliationNodeCounts | shared/orchestrator/nodes.py:227-248 | The mismatch count never falls and becomes at least the number listed, of which at most 100 are read; the time is stamped in any case |
| Orchestrator.OrchestratorGraph.RunCycle | shared/orchestrator/graph.py:184-211 | The checkpoint is that of an invocation from the input or the local state, as `Orchestrator.CycleOutcome` describes it; its values are returned and adopted unless it paused in a library that hands nothing back, when nothing is |
| Orchestrator.OrchestratorGraph.ApproveHitl | shared/orchestrator/graph.py:213-225 | The local state and the checkpoint after resuming, or an exception without a checkpoint |
| Orchestrator.OrchestratorGraph.RejectHitl | shared/orchestrator/graph.py:227-240 | The local state and the checkpoint after clearing the request and taking the routing step again |
| Orchestrator.OrchestratorGraph.TriggerKillSwitch | shared/orchestrator/graph.py:242-262 | The local flags are set first; then the checkpoint is updated, rerouted and resumed |
| Orchestrator.DriveKeepsFlags | shared/orchestrator/nodes.py:144-396 | No node lowers the kill or the breaker flag at any point of an invocation |
| Orchestrator.FlagsNeverLowered | shared/orchestrator/graph.py:184-262 | Over any run of API calls from the graph's own state neither flag is lowered, and the checkpoint never falls behind the local flags |
| Orchestrator.EveryRunSettles | shared/orchestrator/graph.py:135-174 | In every run, whatever states are passed in, an ended invocation has nothing pending and no tripped breaker without the kill switch, a pause is one routed to approval, and the approval node runs only unhalted and with a request |
| Orchestrator.KillPreemptsApproval | shared/orchestrator/graph.py:242-262 | Triggering at a pause runs the kill node alone and ends with the kill switch on and no request |
| Orchestrator.KillIsFinal | shared/orchestrator/graph.py:184-262 | After a trigger at any point, even one that raised, every later own-state run stays killed with nothing pending, never executes the approval node and counts no signal |
| Orchestrator.CycleNeverResumes | shared/orchestrator/graph.py:200-201 | A cycle without input depends on the local state only, never on a paused checkpoint |
| Orchestrator.CycleCountsAdmitted | shared/orchestrator/nodes.py:144-202 | A cycle counts one signal if and only if every gate is open and the newest entry is not blocked, and otherwise none |
| Orchestrator.CycleOutcome | shared/orchestrator/graph.py:135-174 | A flag, the halt key or a loss of 2 percent or more ends a cycle in the kill node; otherwise a request, pending before or raised by the first large position, makes it pause before the approval node, or run that node when approvals are off; with neither it ends after the risk node |
| Orchestrator.LargePositionPauses | shared/orchestrator/nodes.py:290-312 | With approvals on, a position worth more than 5 percent of the capital pauses every cycle that nothing halts, for that position or an earlier one over the threshold |
| Orchestrator.CycleCounts | shared/orchestrator/nodes.py:83-202 | The regime and the signal count a cycle ends with, from the flags, Redis and the newest entries: an unreadable or unnamed regime leaves the old one, and the gates read the regime of this cycle |
| Orchestrator.AtMostOneSignalPerCycle | shared/orchestrator/graph.py:184-262 | Over any own-state run the count is at most the number of cycle calls |
| Orchestrator.SignalsCountedExactly | shared/orchestrator/graph.py:200-204 | Over any own-state run the latest count is the number of admitted signals less those a cycle drops after a pause that handed nothing back; when pauses hand their values back, the local state counts exactly the admitted signals |
| Orchestrator.ApprovalClears | shared/orchestrator/nodes.py:337-343 | An approval at a pause runs the approval node alone and changes nothing but the request |
| Orchestrator.RejectionClears | shared/orchestrator/graph.py:227-240 | A rejection at a pause clears the request and runs no node |
| WorkingMemory.WorkingMemoryStore.Put | shared/orchestrator/memory.py:82-93 | The entry becomes the most recent and the oldest entries are evicted as the budget requires; list and dictionary keep representing the same entries |
| WorkingMemory.WorkingMemoryStore.Delete | shared/orchestrator/memory.py:106-114 | Removes the key from list and dictionary and nothing else |
| WorkingMemory.WorkingMemoryStore.Prune | shared/orchestrator/memory.py:124-134 | Terminates, leaving the entries from the first affordable position on |
| WorkingMemory.WorkingMemoryStore.TokenCount | shared/orchestrator/memory.py:116-118 | The tokens of the stored values, in whatever order they are visited |
| WorkingMemory.KeepsLongestSuffix | shared/orchestrator/memory.py:124-134 | What pruning keeps is the longest suffix that fits the budget |
| WorkingMemory.MemoryIsRecentSuffix | shared/orchestrator/memory.py:82-134 | Over any run the contents are a suffix of the unbudgeted recency-ordered history, each key once |
| WorkingMemory.UnbudgetedAreLastPuts | shared/orchestrator/memory.py:82-114 | That history holds exactly the entries whose key was last put, not deleted, with the value of that put |
| WorkingMemory.UnbudgetedInOrder | shared/orchestrator/memory.py:82-93 | Its entries are in the order in which they were last put |
| WorkingMemory.BudgetHolds | shared/orchestrator/memory.py:82-134 | The budget holds after every operation of every run |
| Clustering.Cluster | shared/patterns/support_resistance.py:43-67 | The loop computes the specified clustering, or raises when a running mean is zero |
| Clustering.GroupsPartition | shared/patterns/support_resistance.py:59-66 | The groups cut the sorted prices into contiguous runs; each price was within tolerance of the mean before it, and each new group's first price was not |
| Clustering.GreedyIsUnique | shared/patterns/support_resistance.py:59-66 | No other partition has that property |
| Clustering.LevelsSeparated | shared/patterns/support_resistance.py:57-67 | On positive prices clustering never raises and its levels are strictly increasing and more than the tolerance apart |
| Clustering.LevelsInsideGroups | shared/patterns/support_resistance.py:57-67 | Groups are ascending, each level lies between the least and the greatest price of its group, and the groups together are a permutation of the prices |
| Clustering.ClusteringIdempotent | shared/patterns/support_resistance.py:43-67 | Clustering the levels again gives the same levels |
| Clustering.FixedIffSeparated | shared/patterns/support_resistance.py:43-67 | A list is its own clustering if and only if it is ascending and separated |
| SupportResistance.FindPivots | shared/patterns/support_resistance.py:109-126 | The loop finds the prices of exactly the strict swing highs and lows |
| SupportResistance.SwingsApart | shared/patterns/support_resistance.py:113-126 | All swing bars are found, in order, and any two of a kind are more than the window apart |
| SupportResistance.PivotsApart | shared/patterns/support_resistance.py:113-126 | The pivot prices are those of all the swing bars of their kind, and any two of these bars are more than the window apart |
| SupportResistance.FewSwings | shared/patterns/support_resistance.py:113-126 | So m swings of a kind need at least (m - 1)(w + 1) + 2w + 1 bars |
| SupportResistance.FillBuckets | shared/patterns/support_resistance.py:135-140 | The array filled in place holds the volume of the bars of each bucket, unless an index is out of range |
| SupportResistance.HistogramHoldsTotal | shared/patterns/support_resistance.py:135-140 | The buckets add up to the total volume |
| SupportResistance.BucketsInRange | shared/patterns/support_resistance.py:133-140 | For well-formed candles every bucket index is in range without wrapping |
| SupportResistance.AddPeaks | shared/patterns/support_resistance.py:143-152 | The loop adds the middles of exactly the interior local maxima, each to the side its midpoint lies on |
| CandidateLevels.CandidatesAre | shared/patterns/support_resistance.py:113-152 | A price is a resistance candidate if and only if it is the high of a strict swing high, or the middle of an inner bucket with more volume than both neighbours, at or above the last close; a support candidate with a strict swing low, or below the last close |
| CandidateLevels.SlotInNumbers | shared/patterns/support_resistance.py:137-140 | A close counts in the bucket around it, just below the range in the first one, and m sizes below it m buckets from the end, or raises |
| CandidateLevels.VolumeIsSum | shared/patterns/support_resistance.py:137-140 | The volume of a bucket is the sum of the volumes of its bars |
| CandidateLevels.TouchesCounted | shared/patterns/support_resistance.py:159-169 | The touches of a level are the number of wicks within the tolerance of it |
| SupportResistance.TouchCount | shared/patterns/support_resistance.py:159-169 | The loop counts the touching wicks and remembers the last |
| SupportResistance.LastTouchIsLast | shared/patterns/support_resistance.py:159-169 | The reported bar touches and no later one does; without a touch it is bar 0 |
| SupportResistance.DetectSrLevels | shared/patterns/support_resistance.py:70-203 | The whole detection, with its early return and its exceptions, follows the specification |
| SupportResistance.LevelsSound | shared/patterns/support_resistance.py:154-194 | Every level is a cluster representative of its kind, rounded to six decimals, with the touches recounted and at least the minimum |
| SupportResistance.LevelsComplete | shared/patterns/support_resistance.py:174-194 | Every representative touched often enough is reported |
| SupportResistance.LevelsAscending | shared/patterns/support_resistance.py:196 | Levels come in ascending order of price |
| SupportResistance.ReportedLevelsApart | shared/patterns/support_resistance.py:154-196 | On well-formed candles, of any two reported levels of one kind the higher is more than the cluster tolerance above the lower, up to price rounding |
| SupportResistance.StrengthsNormalised | shared/patterns/support_resistance.py:171-195 | Strengths are proportional to touches, lie in [0, 1], are positive exactly for touched levels, and reach 1 exactly when some level is touched; with a minimum of one touch a non-empty result has all of them positive and one equal to 1 |
| SupportResistance.LevelsWithinRange | shared/patterns/support_resistance.py:92-203 | On well-formed candles detection never raises and every level lies between the lowest low and the highest high, up to price rounding |
| Correlation.CauchySchwarz | shared/risk/correlation.py:43-44 | The square of a dot product is at most the product of the squared norms, for any length |
| Correlation.PearsonInRange | shared/risk/correlation.py:36-44 | The correlation lies in [-1, 1], and the guard's comparison is decided by comparing squares |
| Correlation.PearsonSymmetric | shared/risk/correlation.py:36-44 | Swapping the series changes neither the correlation nor any comparison |
| Correlation.SelfCorrelation | shared/risk/correlation.py:36-44 | A series correlates fully with itself unless it is too short or flat |
| Correlation.PearsonFormula | shared/risk/correlation.py:36-44 | Over up to 20 aligned returns, n times covariance and variances are n times the dot products less the products of the sums; fewer than two returns or a constant series give zero |
| Correlation.OlderReturnsIgnored | shared/risk/correlation.py:36-40 | Only the latest 20 returns count, and of a longer series only the latest as many as the other has |
| Correlation.CheckCorrelationGuard | shared/risk/correlation.py:47-109 | The search loop returns the skip, the first breach or the pass of the specification |
| Correlation.GuardExact | shared/risk/correlation.py:83-109 | The check passes if and only if the proposed history is too short or every open position is within the threshold, and otherwise names the first one beyond it |
| Correlation.GuardRejectsTwin | shared/risk/correlation.py:83-100 | An open position with the proposal's own returns fails the guard unless they are flat |
| Sizing.SharesAreLargest | shared/risk/sizing.py:62-70 | The quantity is the largest whose loss fits the budget, and one share when none fits |
| Sizing.AtrSizeExact | shared/risk/sizing.py:51-90 | Refused exactly for an entry price that is not positive or a stop nearer than 0.05 percent; otherwise the most shares within the budget, at least one, with notional, risk and percentage to four decimals |
| Sizing.KellySizeExact | shared/risk/sizing.py:124-171 | Refused exactly for a win rate outside (0, 1), a ratio that is not positive or a stop nearer than 0.05 percent; otherwise the most shares within the budget, described likewise |
| Sizing.FullKellyIsEdge | shared/risk/sizing.py:131-135 | The full fraction is the win rate less the loss rate over the ratio where that is positive, and zero elsewhere |
| RiskEngine.CheckThreeFiveSeven | shared/risk/engine.py:68-156 | The list holds the three rules up to the first that fails |
| RiskEngine.CheckDailyLossLimit | shared/risk/circuit_breaker.py:48-84 | Passes exactly for a positive capital and a P&L above minus 2 percent of it |
| RiskEngine.Evaluate | shared/risk/engine.py:166-311 | The evaluation with its early exits reaches the decision determined by the gates, whose conditions `RiskDecisions.DecisionInNumbers` gives |
| RiskEngine.ApprovedIffAllGates | shared/risk/engine.py:183-311 | Approved if and only if capital is positive and every gate passes on its own, if and only if every recorded check passed; a size is returned exactly then |
| RiskDecisions.DecisionInNumbers | shared/risk/engine.py:183-311 | The recorded checks are the documented nine in order up to the first that fails, each with the outcome its condition in numbers gives; approval, size and rejection follow from the last of them |
| RiskDecisions.ApprovedInNumbers | shared/risk/engine.py:183-311 | Approved if and only if the capital is positive and all nine conditions hold: not halted, loss under 2 percent, fewer than 10 trades, 5 and 7 percent with the regime's estimate, correlation within 0.7, a size, and at most 3 percent |
| RiskDecisions.DailyLossStops | shared/risk/circuit_breaker.py:48-84 | A loss of 2 percent of the capital or more always rejects, at the breaker or before; a smaller one never does so at the breaker |
| RiskDecisions.RulesInNumbers | shared/risk/engine.py:68-156 | The 3, 5 and 7 percent rules on any amount, in order and up to the first that fails; one failure under its own name without a positive capital |
| RiskDecisions.SizeInNumbers | shared/risk/engine.py:233-258 | The budget behind a size is 1, 0.5625, 0.25 or 0 percent of the capital by regime, or a quarter of the Kelly edge by regime, halved in the snapshot window; Kelly needs its switch and both inputs |
| RiskDecisions.FinalCapInNumbers | shared/risk/engine.py:276-287 | The final cap passes if and only if the loss at the stop is at most 3.00005 percent of the capital, which still rounds to 3 |
| RiskDecisions.HeatIsSum | shared/risk/engine.py:117-141 | Open risk is the sum of the recorded amounts, a sector's that of its positions |
| RiskEngine.PerTradeRuleNeverFails | shared/risk/engine.py:97-114 | The 3 percent rule on the estimate can never fail |
| RiskEngine.ChaosApprovesOneShare | shared/risk/sizing.py:51-67 | In HIGH_VOL_CHAOS, on the fixed-risk and on the Kelly path, a proposal is approved if and only if the other gates pass, the sizing accepts its inputs and one share's loss is within the cap, and then for one share |
| PortfolioHeat.HeatKeptIff | shared/risk/engine.py:140-155 | For a proposal of any sizing, the 7 percent limit survives it over every book if and only if the risk it would record over the empty book fits beside the fullest book the gate admits |
| PortfolioHeat.SectorsKeptIff | shared/risk/engine.py:116-138 | The same for the 5 percent limit of the sectors |
| PortfolioHeat.OneShareOversteps | shared/risk/sizing.py:66-67 | In HIGH_VOL_CHAOS, with capital 100 and full books, one approved share takes heat from 7 to 10 and a sector from 5 to 8 |
| PortfolioHeat.RunWithinLimits | shared/risk/engine.py:97-156 | Over any run of closures and of proposals of any sizing that meet both conditions, heat stays within 7 percent and each sector within 5 percent |
| HeatRounding.AffordableKeepsCap | shared/risk/engine.py:212-256 | With a capital that is safe for a limit, every fixed-risk proposal that affords a share meets its condition |
| HeatRounding.HeatKeptIffSafe | shared/risk/engine.py:140-155 | The 7 percent limit survives every such proposal over every book if and only if the capital is safe for it |
| HeatRounding.SectorsKeptIffSafe | shared/risk/engine.py:116-138 | The same for the 5 percent limit of the sectors |
| HeatRounding.HeatRunsKeptIffSafe | shared/risk/engine.py:97-156 | From the empty book, heat stays within 7 percent over every run of such proposals and of closures if and only if the capital is safe: an unsafe capital has a run of approvals that oversteps |
| HeatRounding.SectorRunsKeptIffSafe | shared/risk/engine.py:97-156 | The same for the 5 percent limit of the sectors |
| HeatRounding.WholeCentsAreSafe | shared/risk/sizing.py:82-90 | Every capital in whole cents is safe for both limits |
| HeatRounding.UnsafeCapital | shared/risk/sizing.py:82-90 | A concrete capital, books and proposal for which an approval oversteps the 7 percent limit and the 5 percent limit |
| PortfolioHeat.BudgetWithinEstimate | shared/risk/engine.py:212-256 | The sizing budget never exceeds the estimate the rules were applied to |
| PortfolioHeat.ApprovedRiskCapped | shared/risk/engine.py:276-287 | No approved size risks more than 3 percent, up to the rounding of its percentage |
| PortfolioHeat.RunBounded | shared/risk/engine.py:212-287 | Over any run with any sizing heat never exceeds 10 percent plus the rounding slack, and with affordable fixed-risk sizing 7 percent plus one rounding; the excess does not accumulate |
| PortfolioHeat.RunSectorBounded | shared/risk/engine.py:212-287 | Over any run with any sizing a sector never exceeds 8 percent plus the rounding slack, and with affordable fixed-risk sizing 5 percent plus one rounding |
| Dispatcher.AlertDispatcher.IsRateLimited | shared/alerts/dispatcher.py:78-82 | Drops the expired times at the front and compares what is left with the limit |
| Dispatcher.AlertDispatcher.Dispatch | shared/alerts/dispatcher.py:84-116 | The answer and the recorded times after one alert |
| Dispatcher.WindowNeverOverfull | shared/alerts/dispatcher.py:78-116 | With a running clock, any closed 60-second window holds at most the limit of accepted alerts that do not bypass it, over any run |
| Dispatcher.LimitedIffWindowFull | shared/alerts/dispatcher.py:78-82 | The lazily pruned deque reports the limit reached exactly when the accepted alerts of the last 60 seconds reach it |
| Dispatcher.DispatchExact | shared/alerts/dispatcher.py:84-116 | Over any run an alert goes out if and only if a channel takes it and it is a safety alert or fewer than the limit went out in the 60 seconds up to its check |
| Drawdown.PeakIsMaximum | shared/backtesting/metrics.py:100 | The running peak is the largest value so far and one of them |
| Drawdown.WorstOverAllPairs | shared/backtesting/metrics.py:97-102 | The drawdown of a positive curve is the maximum over all pairs i <= j of the loss from i to j, and some pair attains it |
| Drawdown.DrawdownRange | shared/backtesting/metrics.py:97-102 | It lies in [0, 1) and is 0 if and only if the curve never falls |
| Drawdown.ScaleInvariant | shared/backtesting/metrics.py:97-102 | It does not change when the curve is scaled |
| Drawdown.ReportedPct | shared/backtesting/metrics.py:65-134 | The reported percentage lies in [0, 100], within half a unit of its fourth decimal of the fraction, and with trades it is 0 if and only if the fraction is at most half a millionth |
| Drawdown.SmallFallUnseen | shared/backtesting/metrics.py:97-134 | A curve that falls and is reported as 0 |
| Adjustment.AdjustedCandles | shared/instruments/adjustment.py:20-75 | The nested loops adjust every candle, in order, by the compounded ratios of the later actions |
| Adjustment.OneAction | shared/instruments/adjustment.py:45-73 | A split or bonus scales every earlier price by denominator over numerator and every earlier volume the other way, to the nearest whole share; from its ex-date on it changes nothing, and other actions never do |
| Adjustment.AdjustmentComposes | shared/instruments/adjustment.py:50-71 | Adjusting prices by A and then by B is adjusting them by A and B together |
| Adjustment.VolumesComposeIffWhole | shared/instruments/adjustment.py:61-72 | Adjusting volumes by A and then by B is adjusting them by A and B together for every B if and only if A takes the volume to a whole number of shares |
| Adjustment.VolumesMayNotCompose | shared/instruments/adjustment.py:72 | One share consolidated 1:3 and split 3:1 is a volume that does not compose |
| Adjustment.OrderDoesNotMatter | shared/instruments/adjustment.py:45-62 | The order in which actions are listed does not matter |
| Adjustment.LaterCandlesUnchanged | shared/instruments/adjustment.py:55-62 | A candle on or after the last ex-date is untouched |
| Adjustment.TurnoverKept | shared/instruments/adjustment.py:61-72 | Close times volume is kept up to half the adjusted close |

## Left out

- IEEE rounding: all arithmetic is over exact reals, with the four- and six-decimal roundings of the code modelled; NaN and infinities do not occur.
- Aggregator.CandleAggregator.Ingest: locks and threads are left out; one call runs at a time.
- AggregationTheorems.OnlineIsBatch: assumes exchange codes without a colon; with a colon two instruments can share a key.
- KiteFeed.KiteAdapter.HandleTicks: entries arrive with integer and real fields; the conversion of missing or odd raw values to defaults is not modelled.
- KiteFeed.VolumeTelescopes: every delivered tick reaches the aggregator; KiteFeed.RefusedVolumeIsLost drops this for refused ticks.
- Buffer.TickBuffer.Drain: JSON text is a payload that parses back into its tick, is skipped, or raises past the skipping handler; the encoding itself is not modelled, and what the buffer serialized always parses back.
- IngestionAgent.DataIngestionAgent.InjectTick: the watchdog thread and the DEGRADED mode are not modelled.
- Execution.ExecutionEngine.Submit: rejection texts carry the error without its wording, back-off delays are not modelled, one clock reading serves a whole submission, and broker exceptions other than the two declared kinds would escape.
- Execution: the individual compliance rules are a parameter; an approval is assumed to carry the tagged form of the order it was given, as shared/compliance/engine.py:130-164 builds it.
- Orders.DeadLetterQueue.Enqueue: the in-memory list only; the Redis list of the queue is not modelled.
- Differ.DiffOrders: upper-casing is that of ASCII letters, and values are compared before they are rendered as text.
- Reconciliation.BlockRegistry.Block: keys do not expire; a time to live on the Redis key is not modelled.
- Reconciliation.ReconciliationAgent.RunCycle: publishing, the mismatch callback and the timer are left out; broker and internal state are parameters.
- Orchestrator.OrchestratorGraph.RunCycle: the graph library is modelled by the edges, the pause before the approval node, and update-then-resume from the last node; whether it hands values back at a pause or when nothing is left to run is a configuration, and the theorems hold for both. An input is a full state, as its type says; partial overrides merged onto the checkpoint are not modelled.
- Orchestrator.OrchestratorGraph.TriggerKillSwitch: without a checkpoint the library is taken to raise; state dictionaries are values, so aliasing between caller and graph is not modelled.
- Orchestrator.CycleCountsAdmitted: an exception while reading the halted or degraded key escapes the signal node and is not modelled.
- Orchestrator: shutdown and restore of the state through Redis are JSON round trips and left out.
- WorkingMemory.WorkingMemoryStore.Put: keys are of any type with equality; reading a key and the other memory tiers are left out.
- SupportResistance.DetectSrLevels: exceptions are one outcome, not told apart; logging is left out.
- Correlation.PearsonInRange: the coefficient is kept as covariance and variances; the quotient by the square root is any real that denotes it.
- RiskEngine.Evaluate: the detail texts of the checks are left out, and the rejection reason is the name of the failing check.
- PortfolioHeat.RunWithinLimits: the caller is taken to record the returned risk amount of an approved size and to pass all open positions; changes of capital during a run are not modelled.
- Dispatcher.AlertDispatcher.Dispatch: message formatting and the daily e-mail report are left out; the clock does not go back.
- Drawdown.WorstOverAllPairs: curves with zero or negative equity are left out; Sharpe, Sortino and the other metrics use square roots and powers.
- Adjustment.AdjustedCandles: dates are day numbers, and split and bonus ratios are positive as the record's own validation ensures.
- API, dashboard, command lines, reports, model training, regime classification and concrete broker adapters are not part of this model.
