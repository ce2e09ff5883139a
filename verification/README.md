# Verified models of valkey-timeseries

A Dafny 4.11 project that models the aggregation engine of valkey-timeseries and its distributed
push-down, and proves that each layer computes what the simpler layer above it means. Three
smaller models stand beside it: the over-aligning allocator, the compaction-rule graph, and the
series-option parser with the replication of counter commands.

`dafny verify dfyconfig.toml` checks the whole project.

## What is modelled

- **Aggregators** (`Aggregators`, `Kahan`, `Moments`, `BucketMeaning`). The per-bucket state
  machines with their "accepted a sample" result. `BucketMeaning` says what each type reports,
  from its config and the samples, without its accumulator.
- **The bucketing iterator** (`BucketGrid`, `AggregateIterator`, `BucketOutput`, `Columns`, `Reports`).
  The streaming state machine is a class with the source's fields and methods; it refines "cut the
  stream into grid buckets, aggregate each, fill the gaps". `BucketOutput` proves that this
  specification is a grouping, and with EMPTY one gap-free progression; `Reports` what stands in
  every row of it.
- **The single node's group reduce** (`Timeline`, `Streams`, `Iterators`). The k-way merge and the
  column-wise reducer, as classes, refine "at each timestamp, reduce the members' values".
- **Partial states** (`Partials`, `GroupReduction`, `Streams`, `Supply`). Shards pre-reduce; the
  states they ship stand for exactly the values they accepted, so merging and finalizing them is
  the single-node reduction.
- **The coordinator** (`Coordinator`, `MergeOrder`, `Pipelines`, `ScatterGather`, `Descending`,
  `MixedVersions`, with `Bags` underneath). The merge loops, the COUNT push-down, and the
  compensation for peers that ignored a request flag. `MixedVersions.ScatterGatherExact` is the
  main theorem: the reply of the cluster is the reply of one node, and `Replies` says what that
  reply is, group by group and row by row.
- **The allocator** (`Alloc`), **the rule graph** (`RuleGraph`, `RuleRename`, `RulePruning`,
  `RuleCommands`), **options** (`SeriesOptions`, `IncrBy`, `RangeOptions`).

## How values and state are modelled

- A value is NaN or an exact real. The two operations whose rounding matters, the running sum of a
  compensated sum and the square root, are arbitrary functions (`Machine`), so every theorem holds
  for every rounding; the compensation terms are exact.
- A series has strictly ascending timestamps from 0 on, as the store keeps them.
- Integers are unbounded, and 64-bit wrap-around, saturating addition and the saturating 32-bit
  count of `avg` are written out where the source has them.
- What the outside world answers is a parameter: malloc's pointer, a shard's order of groups and
  its protocol version, how option operands are read, the order of arrival.
- Objects the source updates in place are classes (`MultiAggregateIterator`, `PartialRowReducer`,
  `RowReducer`, `MultiSeriesIter`, `AlignedAlloc`, `RuleStore`, `ArgIterator`, `Arguments`,
  `RepeatedOptions`). Accumulators and partial states are small values inside a reducer there; they
  are datatypes with update functions here. A `BTreeMap` is its keys in order together with a map.

## Where the code does less than it promises

- A bucket duration of 1 ms skips the first bucket of every interior gap, because the gap is
  entered one millisecond behind the bucket end (`OneMillisecondSkips`; exact condition in
  `EmptyFillProgression`).
- A sample at i64::MAX lies outside its own saturated bucket (`MaxOutsideItsBucket`; exact condition
  in `SaturatedMembership`), and durations above 2^62 can overflow the grid arithmetic
  (`MachineStartFails`; exact condition in `MachineStartIff`). The iterator's theorems are stated for
  timestamps below i64::MAX and durations up to 2^62.
- `avg` counts in a saturating 32-bit number while partial states count in 64 bits; beyond
  2^32 - 1 accepted values the two differ unless the sum is zero (`AvgMeaningFails`; exact condition
  in `AvgMeaningIff`).
- RENAME relinks a series' partners without looking at what they already say about the new name. It
  can make a series its own live source (`RenameCanCloseCycle`), and it can give a source two rules
  for one destination, of which the next compaction pass drops the renamed one although the comment
  there says a second rule can never have been valid (`RenameCanDouble`). When live rules follow the
  name is in `RenameFollowsIff`; when a RENAME keeps the keyspace sound is in `RenameSoundIff`, and
  over whole runs in `RuleCommands.RunsAreSound`.
- The comment on COUNT push-down says it carries no version hazard. That needs peers that never limit
  the raw samples of an AGGREGATION query: one that did would hand over a bucket with samples missing
  (`LimitedSamplesCorrupt`). `MixedVersions.Understands` states this as the assumption it is.

## Model

| member | source | states |
|---|---|---|
| `Kahan.KahanInc` | src/aggregators/kahan.rs:176-189 | Whatever the rounded step becomes, sum plus compensation grows by exactly the increment |
| `Kahan.KahanSum.Add` | src/aggregators/kahan.rs:72-78 | Adding a number adds it to the compensated value, exactly |
| `Kahan.KahanSum.Merge` | src/aggregators/kahan.rs:80-90 | Merging adds the two compensated values, exactly |
| `Kahan.SummationConserves` | src/aggregators/kahan.rs:85-89 | Any mix of single adds and merges, in any tree, ends at the exact total of its terms |
| `Kahan.MergeTreeIrrelevant` | src/aggregators/kahan.rs:85-89 | Two merge trees over the same terms, in any order, report the same value |
| `Moments.WelfordStep` | src/aggregators/handlers.rs:554-563 | One Welford step keeps mean * n = sum and M2 = sum of squared deviations |
| `Moments.DescribesMeaning` | src/aggregators/handlers.rs:571-573 | The two numbers are the mean and the sum of squared distances from it, which is not negative |
| `Moments.ChanCombine` | src/aggregators/partial_reducer.rs:251-260 | Chan's combination of the states of two lists is the state of their concatenation |
| `Moments.ChanAlgebra` | src/aggregators/partial_reducer.rs:251-260 | The same on any (count, sum, sum of squares), so also on states no list of numbers produces |
| `Aggregators.EmptyGroupValueByType` | src/aggregators/handlers.rs:1247-1260 | The value of a group nothing was accepted from is 0 exactly for the types `reduces_empty_to_zero` names, and a created aggregator is fresh |
| `Aggregators.UpdateKeepsIdentity` | src/aggregators/handlers.rs:25-44 | No update changes what an aggregator resets to or reports when empty |
| `Aggregators.FeedKeepsIdentity` | src/aggregators/handlers.rs:25-44 | The same over a whole list |
| `Aggregators.RefusedWhileFresh` | src/aggregators/handlers.rs:949-975 | A fresh accumulator that refuses a value stays fresh, `irate` included |
| `Aggregators.NothingAcceptedNothingReported` | src/aggregators/handlers.rs:25-44 | For every handler: if nothing was accepted since reset, the state is still the fresh one, `current` is none and `finalize` is the empty value |
| `BucketMeaning.DecomposableMeaning` | src/aggregators/handlers.rs:49-747 | A bucket of samples, at whatever timestamps, reports the declarative sum, count, extreme, average, variance, deviation, first or last of the values it accepted |
| `BucketMeaning.ConditionMeaning` | src/aggregators/filtered.rs:314-368 | `all`, `any` and `none` report whether every, some or no sample meets the condition, the early verdicts notwithstanding |
| `BucketMeaning.ShareMeaning` | src/aggregators/filtered.rs:211-231 | `share` counts all samples and the matching ones |
| `BucketMeaning.CounterMeaning` | src/aggregators/handlers.rs:798-831 | `increase` and `rate` hold the sum of the upward steps between consecutive numbers |
| `BucketMeaning.IncreaseTelescopes` | src/aggregators/handlers.rs:798-813 | For a counter that never drops, the increase is last minus first |
| `BucketMeaning.InstantRateMeaning` | src/aggregators/handlers.rs:948-982 | `irate` reports the slope between the last two numbers, nothing after a drop or of one number, and accepts as soon as there is a number |
| `Values.CompareMeaning` | src/common/binop.rs:199-208 | Each operator admits exactly the sides of the comparand its name says; NaN equals NaN only, and the default condition is "is a number" |
| `BucketMeaning.ReportMeaning` | src/aggregators/handlers.rs:1115-1141 | For each of the twenty-three types, from its config: what a column reports for any samples (counts and sums of the values that pass, extremes, averages, `all`, `any`, `none`, `share`, `increase`, `rate` over its window, `irate`), 0 or NaN when there is nothing, and exactly when it has accepted a sample |
| `BucketMeaning.GroupMeaning` | src/iterators/sample_reducer.rs:31-48 | The same for the values of one timestamp reduced on one node: `rate` has no window and `irate` no slope there, and a plain `sum` of nothing is NaN |
| `Partials.ForConfig` | src/aggregators/partial_reducer.rs:101-137 | A config has a partial form exactly when its type is decomposable |
| `Partials.AddRepresents` | src/aggregators/partial_reducer.rs:156-218 | If a state accumulates exactly a list of numbers, after one more number it accumulates the longer list, for all fourteen kinds |
| `Partials.MergeRepresents` | src/aggregators/partial_reducer.rs:228-274 | Merging the accumulations of two lists is the accumulation of their concatenation |
| `Partials.FinalizeRepresents` | src/aggregators/partial_reducer.rs:278-326 | Finalizing an accumulation is the declarative reduction of its list |
| `Partials.ReduceIgnoresOrder` | src/aggregators/partial_reducer.rs:225-227 | The reduction is a function of the bag of values for every kind but first and last |
| `Partials.AccumulateRepresents` | src/aggregators/partial_reducer.rs:156-218 | A shard folding `update` over its values accumulates exactly those it accepts |
| `Partials.MergeAllConservesCount` | src/aggregators/partial_reducer.rs:228-237 | Merging any list of states conserves the number of accepted values |
| `Partials.MergeAllRepresents` | src/aggregators/partial_reducer.rs:228-274 | Folding `merge` over shards accumulates the concatenation of their lists |
| `GroupReduction.AcceptanceAgrees` | src/aggregators/partial_reducer.rs:143-154 | Handler and partial reducer of a config accept the same values; the flag of `update` says so, except that `sumif` and `countif` also flag numbers they pass over |
| `GroupReduction.FeedTracks` | src/aggregators/handlers.rs:49-747 | Every decomposable handler, fed any list, holds exactly the accepted values |
| `GroupReduction.HandlerMeaning` | src/iterators/sample_reducer.rs:30-45 | The single-node group reducer computes the declarative reduction of the accepted values |
| `GroupReduction.AvgMeaningIff` | src/aggregators/kahan.rs:119-141 | `avg` on one node is the mean if and only if the accepted count fits a u32 or the sum is zero |
| `GroupReduction.AvgMeaningFails` | src/aggregators/kahan.rs:119-141 | The average of 2^32 ones is not one |
| `GroupReduction.PushDownExact` | src/aggregators/partial_reducer.rs:97-326 | For every decomposable config and every split of the values over shards, empty ones included, merging in order and finalizing equals the single-node result |
| `Timeline.KMergeStable` | src/iterators/multi_series_sample_iter.rs:51-96 | The k-way merge yields, at each timestamp, the sources' items, source after source, losing and adding none |
| `Timeline.KMergeSorted` | src/iterators/multi_series_sample_iter.rs:51-96 | The merge of sorted sources is sorted |
| `Timeline.KeptByPart` | src/series/mrange.rs:30-50 | What a head or tail limit keeps of a whole stream it keeps of every part that has it |
| `Timeline.KeepOfBetween` | src/series/mrange.rs:30-50 | A stream with everything the limit keeps and nothing foreign is limited to the same |
| `BucketGrid.BucketStart` | src/aggregators/aggregate_iterator.rs:223-231 | The start of the bucket of `ts` is on the grid, with start <= ts < start + d |
| `BucketGrid.StartUnique` | src/aggregators/aggregate_iterator.rs:223-231 | There is one such start |
| `BucketGrid.StartMonotone` | src/aggregators/aggregate_iterator.rs:223-231 | Later timestamps have later or equal buckets |
| `BucketGrid.MachineStartIff` | src/aggregators/aggregate_iterator.rs:228-230 | In wrapping 64-bit arithmetic the double remainder gives the true start if and only if the intermediate sum does not overflow |
| `BucketGrid.AfterOverflow` | src/aggregators/aggregate_iterator.rs:228-230 | What the machine computes when it does overflow: a start at or after the timestamp, or below zero |
| `BucketGrid.MachineStartFails` | src/aggregators/aggregate_iterator.rs:228-230 | A timestamp and duration at which it does |
| `BucketGrid.HalfRangeDurationsFit` | src/aggregators/aggregate_iterator.rs:228-230 | Durations up to 2^62 never overflow |
| `BucketGrid.SaturatedMembership` | src/aggregators/aggregate_iterator.rs:191-200 | With saturated bucket ends the membership test is right if and only if it is not asked about i64::MAX with an end that saturates |
| `BucketGrid.MaxOutsideItsBucket` | src/aggregators/aggregate_iterator.rs:191-200 | On every grid i64::MAX fails the test of its own bucket |
| `BucketGrid.RenderAscends` | src/aggregators/aggregate_iterator.rs:213-216 | Reported timestamps of successive buckets ascend strictly exactly as long as the earlier report does not saturate |
| `BucketGrid.RenderPlaces` | src/aggregators/mod.rs:29-35 | A bucket is reported at its start, at the start of the next bucket, or half way there rounded down; a start below 0 counts as 0 |
| `Reports.RenderedAt` | src/aggregators/mod.rs:29-35 | The same of an AGGREGATION by its BUCKETTIMESTAMP |
| `Reports.ColumnMeaning` | src/aggregators/aggregate_iterator.rs:62-80 | What each column of the iterator reports for a filled, an ignored and an empty bucket, by its own type and the bucket duration |
| `Reports.SlotSamples` | src/aggregators/aggregate_iterator.rs:191-200 | A reported bucket holds exactly the samples of its grid bucket, a filled gap none, and no bucket with samples is left out |
| `Reports.OutputMeaning` | src/aggregators/aggregate_iterator.rs:62-200 | Every row reports a grid bucket at the place asked for, each column by its type over exactly the samples there; every bucket with a sample some column considers, or with EMPTY any sample, has its row |
| `AggregateIterator.MultiAggregateIterator.Update` | src/aggregators/aggregate_iterator.rs:183-189 | Every column takes the sample, its acceptance is remembered, the pending output does not change |
| `AggregateIterator.MultiAggregateIterator.QueueRun` | src/aggregators/aggregate_iterator.rs:24-39 | A gap is queued only when no queued gap is left; the cursor then stands for exactly that gap |
| `AggregateIterator.MultiAggregateIterator.CloseBucket` | src/aggregators/aggregate_iterator.rs:123-169 | The closed bucket is reported, with which values, or not at all, as the specification says, and the accumulators are fresh again |
| `AggregateIterator.MultiAggregateIterator.CompleteBucket` | src/aggregators/aggregate_iterator.rs:123-181 | Closing at the next sample reports the bucket and queues the gap in front of that sample |
| `AggregateIterator.MultiAggregateIterator.PopEmptyBucket` | src/aggregators/aggregate_iterator.rs:340-352 | The next queued empty bucket, if any, and the rest of the output |
| `AggregateIterator.MultiAggregateIterator.EnqueueLeading` | src/aggregators/aggregate_iterator.rs:364-378 | The leading fill reaches from the fill start to the first sample's bucket |
| `AggregateIterator.MultiAggregateIterator.EnqueueFullRange` | src/aggregators/aggregate_iterator.rs:383-397 | Without samples the whole window is queued when both bounds are set |
| `AggregateIterator.MultiAggregateIterator.EnsureInitialized` | src/aggregators/aggregate_iterator.rs:400-414 | The first call reads ahead and queues the leading fill; nothing of the output is lost |
| `AggregateIterator.MultiAggregateIterator.ProcessBucket` | src/aggregators/aggregate_iterator.rs:416-434 | Reads samples to the next bucket boundary and reports the bucket behind it |
| `AggregateIterator.MultiAggregateIterator.FinalizeLastBucket` | src/aggregators/aggregate_iterator.rs:439-458 | Reports the last bucket and queues the trailing fill |
| `AggregateIterator.MultiAggregateIterator.Next` | src/aggregators/aggregate_iterator.rs:461-487 | Every call takes the first row off the remaining specified output, and returns none exactly when nothing remains |
| `AggregateIterator.Collect` | src/aggregators/aggregate_iterator.rs:290-487 | The rows of repeated `next` calls are the specified output, finitely many |
| `BucketOutput.OutputIsGrouping` | src/aggregators/aggregate_iterator.rs:123-188 | Without EMPTY the output is one row per grid bucket with samples of which some aggregator accepted one, each column aggregating all of the bucket, in bucket order |
| `BucketOutput.EmptyFillProgression` | src/aggregators/aggregate_iterator.rs:171-177 | With EMPTY the bucket starts form one gap-free progression, from fill start or first sample to fill end or last sample, if and only if the duration is at least 2 or the samples' buckets are adjacent |
| `BucketOutput.OneMillisecondSkips` | src/aggregators/aggregate_iterator.rs:171-177 | With 1 ms buckets the first bucket of an interior gap is skipped: samples at 0 and 2 yield no bucket at 1 |
| `BucketOutput.EmptyWindowProgression` | src/aggregators/aggregate_iterator.rs:383-397 | A window without samples yields rows if and only if both bounds are set, and they form one progression |
| `BucketOutput.EverySlotARow` | src/aggregators/aggregate_iterator.rs:144-169 | With EMPTY every bucket of the progression is one row |
| `BucketOutput.OutputAscends` | src/aggregators/aggregate_iterator.rs:213-216 | For every valid query the reported timestamps strictly increase |
| `Columns.ColumnsAgree` | src/aggregators/aggregate_iterator.rs:1047-1056 | Column i of a multi-aggregation pass equals the pass of aggregator i alone where that one emits, and holds its empty value elsewhere |
| `Columns.TimestampsAreUnion` | src/aggregators/aggregate_iterator.rs:1047-1056 | The timestamps of the multi-aggregation pass are the union of the single passes' timestamps |
| `Streams.PerTimestampGroups` | src/iterators/sample_reducer.rs:47-110 | Grouping a sorted stream by timestamp gives one item per timestamp that occurs, made of all its rows, in order |
| `Streams.RowReduceGroups` | src/iterators/row_reducer.rs:39-114 | Reducing a sorted row stream gives one row per timestamp that occurs, over all its rows, in order |
| `Streams.PartialReduceGroups` | src/aggregators/partial_reducer.rs:388-445 | The same for partial states |
| `Streams.PartialRowReducer.UpdateColumns` | src/aggregators/partial_reducer.rs:411-416 | Every column accumulates its own value of the row |
| `Streams.PartialRowReducer.Pull` | src/aggregators/partial_reducer.rs:425-428 | The row read ahead comes first |
| `Streams.PartialRowReducer.Absorb` | src/aggregators/partial_reducer.rs:433-440 | Exactly the following rows of the same timestamp are absorbed; the next one is kept |
| `Streams.PartialRowReducer.Next` | src/aggregators/partial_reducer.rs:424-445 | Each call takes the first bucket off the remaining reduction and starts every column over |
| `Streams.ReducePartially` | src/aggregators/partial_reducer.rs:388-445 | Draining the reducer yields the whole partial reduction |
| `Iterators.MultiSeriesIter.Prime` | src/iterators/multi_series_sample_iter.rs:67-75 | Seeding the heap loses and adds nothing |
| `Iterators.MultiSeriesIter.Least` | src/iterators/multi_series_sample_iter.rs:27-37 | The popped source has the least timestamp, ties to the earlier series |
| `Iterators.MultiSeriesIter.Take` | src/iterators/multi_series_sample_iter.rs:86-95 | The popped source gives its first item and is refilled; the others stay |
| `Iterators.MultiSeriesIter.Next` | src/iterators/multi_series_sample_iter.rs:81-96 | Each call takes the first item off the remaining merge |
| `Iterators.MergeSources` | src/iterators/multi_series_sample_iter.rs:51-96 | Draining the iterator yields the specified k-way merge |
| `Iterators.RowReducer.Update` | src/iterators/row_reducer.rs:38-50 | A row reaches every column, with its acceptance |
| `Iterators.RowReducer.FinalizeGroup` | src/iterators/row_reducer.rs:52-70 | The reduced row of the group: finalized where something was accepted, the group empty value elsewhere; every column starts over |
| `Iterators.RowReducer.Absorb` | src/iterators/row_reducer.rs:97-112 | Exactly the following rows of the same timestamp are absorbed; the next one is kept |
| `Iterators.RowReducer.Next` | src/iterators/row_reducer.rs:79-113 | Each call takes the first row off the remaining reduction |
| `Iterators.ReduceRows` | src/iterators/row_reducer.rs:73-114 | Draining the reducer yields the specified reduction |
| `Coordinator.ChunksOfRowMajor` | src/series/mrange.rs:59-61 | Unpacking row-major states inverts packing them |
| `Coordinator.MergeRow` | src/commands/ts_mrange_fanout_command.rs:550-552 | Column-wise merge of one bucket |
| `Coordinator.MergeEntry` | src/commands/ts_mrange_fanout_command.rs:545-553 | Merging one bucket changes one cell row of one group and nothing else |
| `Coordinator.OpenGroup` | src/commands/ts_mrange_fanout_command.rs:538-539 | A group is opened empty or found, and its sources grow by the partial's |
| `Coordinator.IngestPartial` | src/commands/ts_mrange_fanout_command.rs:538-554 | A partial adds each of its buckets to its own group |
| `Coordinator.HandleGroupPartials` | src/commands/ts_mrange_fanout_command.rs:488-608 | Refuses exactly the lists with a malformed partial; otherwise one reply per group with the union of sources, whose every cell finalizes the merge of exactly the states addressed to it, ordered and limited as asked |
| `MergeOrder.MergeAllSummarizes` | src/aggregators/partial_reducer.rs:228-274 | What merged states hold is the sum, extreme or moments of the parts, whatever a peer sent |
| `MergeOrder.MergeOrderIrrelevant` | src/aggregators/partial_reducer.rs:225-274 | Reordering any states changes nothing that is reported, for every kind but first and last |
| `MergeOrder.ArrivalOrderIrrelevant` | src/commands/ts_mrange_fanout_command.rs:519-586 | The coordinator's reply does not depend on the order in which partials arrive |
| `MergeOrder.CountConserved` | src/commands/ts_mrange_fanout_command.rs:519-554 | Over all cells together the merge counts exactly what the shards counted |
| `Supply.SuppliedValue` | src/aggregators/partial_reducer.rs:228-326 | States that together stand for some values, in any order, finalize to the single-node reduction of those values |
| `Pipelines.CarryMeaning` | src/iterators/utils.rs:460-500 | The EMPTY carry reports in a `last` column the most recent number, or the seed, and leaves other columns alone |
| `Pipelines.SeriesRowsShape` | src/iterators/utils.rs:150-236 | The per-series pipeline yields strictly ascending rows of the query's width |
| `Reports.AggregatedRows` | src/iterators/utils.rs:455-520 | A series' rows are the iterator's; with EMPTY exactly the `last` columns show the most recent number, from the one carried into the query on |
| `Reports.AggregatedMember` | src/iterators/utils.rs:150-236 | A member of an AGGREGATION query has a row at a timestamp exactly when one of its buckets is reported there, and the row is that bucket's |
| `Pipelines.FillIrrelevant` | src/commands/ts_mrange_fanout_command.rs:313-338 | Without EMPTY, aggregating raw samples with the default bounds gives the shard's own rows |
| `ScatterGather.MergedRowsAt` | src/series/mrange.rs:431-463 | A group's merged stream has at each timestamp exactly its members' rows |
| `ScatterGather.PackRoundTrip` | src/series/mrange.rs:141-148 | What a shard packs row-major the coordinator unpacks bucket by bucket, never refusing it |
| `ScatterGather.LimitedRowsAt` | src/commands/ts_mrange_fanout_command.rs:72-78 | Limiting a member series loses no row the limited group needs |
| `ScatterGather.OwnCell` | src/series/mrange.rs:69-182 | A shard's partial gives each cell the limited result looks at exactly its rows' accumulation |
| `ScatterGather.BatchCell` | src/commands/ts_mrange_fanout_command.rs:538-554 | Of a shard's partials only the group's own reaches the group's cells |
| `ScatterGather.GatheredFills` | src/commands/ts_mrange_fanout_command.rs:519-554 | All partials together supply every such cell with exactly the rows of all members |
| `ScatterGather.CollectIsLimit` | src/series/mrange.rs:495-542 | Reversing and truncating is the reversal of the tail, truncating the head |
| `ScatterGather.GroupExact` | src/commands/ts_mrange_fanout_command.rs:488-608 | COUNT push-down is exact: limiting each shard's stream never changes the coordinator's limited reply of the group, in either direction |
| `MixedVersions.NormalizedIsLimited` | src/commands/ts_mrange_fanout_command.rs:303-342 | Whichever way a series travels, the coordinator holds its full rows or a limit of them |
| `MixedVersions.ShardCovers` | src/commands/ts_mrange_fanout_command.rs:350-418 | The series of a shard that ignored a flag stand in for its full streams |
| `MixedVersions.Partition` | src/commands/ts_mrange_fanout_command.rs:256-293 | Every series reaches the coordinator through exactly one path |
| `MixedVersions.GroupReplyExact` | src/commands/ts_mrange_fanout_command.rs:256-293 | For one group: same rows, same presence, same sources as on one node |
| `MixedVersions.ScatterGatherExact` | src/commands/ts_mrange_fanout_command.rs:256-293 | For every assignment of shards to raw samples, buckets or group partials, every honoring of COUNT and every order of arrival, the reply is that of one node holding all series |
| `Replies.CollectedRows` | src/series/mrange.rs:431-463 | A reply lists rows in its direction, at most COUNT, and leaves out only what comes behind them |
| `Replies.ReplyMeaning` | src/series/mrange.rs:431-463 | One node's reply from the series: a group per label with its members' keys, one row per timestamp at which a member has one, each column reducing exactly the members' values there |
| `Replies.RawMembers` | src/iterators/utils.rs:150-236 | Without AGGREGATION the members' values are those of their own samples, and there is a row exactly where a member has a sample |
| `Replies.RawReply` | src/iterators/utils.rs:150-236 | A raw query that pushes down: each row is the declarative reduction of what the reducer accepts among the members' samples at that timestamp |
| `MixedVersions.CollectedEitherWay` | src/commands/ts_mrange_fanout_command.rs:795-831 | Sorting the collected rows downward and truncating the reduction gives the same rows as merging upward and reversing |
| `MixedVersions.CollectedExact` | src/commands/ts_mrange_fanout_command.rs:444-466 | For every reducer, also those without a partial form: from any mix of buckets, raw samples and limited streams the coordinator computes what one node computes that lists the series in order of arrival |
| `MixedVersions.PeerConsistent` | src/commands/ts_mrange_fanout_command.rs:98-181 | A peer of any version that acts on some of the flags, but not on COUNT without AGGREGATION, answers in a form the theorem covers |
| `MixedVersions.CurrentPeerUnderstands` | src/commands/ts_mrange_fanout_command.rs:60-87 | The flags the coordinator sends can all be acted on: COUNT is only pushed down for raw queries or together with AGGREGATION |
| `MixedVersions.ClusterExact` | src/commands/ts_mrange_fanout_command.rs:60-293 | With any mix of such peers the cluster answers like one node |
| `MixedVersions.LimitedSamplesCorrupt` | src/commands/ts_mrange_fanout_command.rs:72-78 | For numbers in one bucket, limiting the raw samples of an AGGREGATION query before bucketing gives the same rows if and only if the limit drops none of them |
| `Descending.SortDownStable` | src/commands/ts_mrange_fanout_command.rs:798-800 | The stable downward sort keeps every timestamp's rows in their order |
| `Descending.GroupsReversed` | src/commands/ts_mrange_fanout_command.rs:798-809 | Reducing a downward stream gives the reversal of reducing the upward one |
| `Alloc.MaskRoundsDown` | src/common/alloc.rs:54-55 | Clearing, bit by bit, the bits of a power of two less one rounds down to a multiple of that power |
| `Alloc.RoundsUp` | src/common/alloc.rs:54-55 | The masked address is the next multiple of the alignment |
| `Alloc.WordRoundTrip` | src/common/alloc.rs:56 | A pointer written to the hidden word is read back |
| `Alloc.Placement` | src/common/alloc.rs:26-37 | Rounding up from a 16-aligned base leaves the hidden word below and the block inside the padded allocation |
| `Alloc.Separation` | src/common/alloc.rs:41-58 | User blocks do not overlap each other or any hidden word |
| `Alloc.AllocStep` | src/common/alloc.rs:41-58 | A new block is aligned, fresh and placed; all other blocks keep their bytes |
| `Alloc.WriteStep` | src/common/alloc.rs:51-57 | A write inside a live user block touches no hidden word and no other block |
| `Alloc.DeallocStep` | src/common/alloc.rs:71-77 | The hidden word leads back to the raw pointer and its size |
| `Alloc.AlignedAlloc.Alloc` | src/common/alloc.rs:41-58 | Aligned fresh block or null, invariant kept, other blocks unchanged |
| `Alloc.AlignedAlloc.AllocZeroed` | src/common/alloc.rs:60-69 | The same, with every byte of the block zero |
| `Alloc.AlignedAlloc.Write` | src/common/alloc.rs:51-57 | The owner's bytes change, the invariant is kept |
| `Alloc.AlignedAlloc.Dealloc` | src/common/alloc.rs:71-77 | Exactly the block malloc handed out goes back, with the size it was asked for |
| `Alloc.RunsAreSafe` | src/common/alloc.rs:41-77 | At every moment of every run of allocations, writes and frees, all blocks are aligned, disjoint, clear of every hidden word, and find their raw pointer again |
| `RuleGraph.DependencyReaches` | src/series/compaction.rs:1492-1529 | The search answers true only for reachable targets; otherwise everything it visited is closed under live rules and misses the target |
| `RuleGraph.CheckNewRuleCircularDependency` | src/series/compaction.rs:1468-1490 | The check passes if and only if the destination does not reach the source through live rules |
| `RuleGraph.LiveSource` | src/series/compaction.rs:1398-1414 | A live source is reported exactly when some series feeds this one and it links back |
| `RuleGraph.OneMoreAcyclic` | src/commands/ts_createrule.rs:82-93 | Adding one live rule whose destination does not reach its source closes no cycle |
| `RuleGraph.LinkedEdges` | src/commands/ts_createrule.rs:82-93 | Creating a rule makes exactly one rule live; stale halves stay stale |
| `RuleGraph.UnlinkedEdges` | src/commands/ts_deleterule.rs:60-72 | Deleting a rule ends exactly that live rule, and none when it was stale |
| `RuleGraph.DeletedEdges` | src/series/compaction.rs:1398-1414 | Deleting a key ends exactly the live rules it took part in |
| `RuleGraph.CreatedEdges` | src/series/compaction.rs:1398-1414 | Re-creating a key revives nothing |
| `RuleGraph.AcyclicAround` | src/series/compaction.rs:1492-1529 | A graph that is acyclic without a key is acyclic if and only if no cycle goes through that key: out of it, along live rules, and back into it |
| `RuleRename.RenamedLive` | src/series/compaction.rs:1437-1465 | Which pairs are live after RENAME, in terms of the rules and links before it |
| `RuleRename.RenameFollowsIff` | src/series/compaction.rs:1437-1465 | RENAME carries every live rule over to the new name, with its duration, once and no other, if and only if nothing about that name waits at the series, its source or its destinations |
| `RuleRename.RenameAcyclicIff` | src/series/compaction.rs:1437-1465 | RENAME closes a cycle if and only if the series links to and feeds its own new name, or a series it will feed reaches the one that will feed it through live rules away from both names |
| `RuleRename.RenameDistinctIff` | src/series/compaction.rs:1437-1465 | RENAME leaves two rules for one destination if and only if the source holds rules for both names |
| `RuleRename.RenameSoundIff` | src/series/compaction.rs:1437-1465 | RENAME keeps a keyspace sound if and only if it does neither |
| `RuleRename.NoLeftoversIsSafe` | src/series/compaction.rs:1437-1465 | Without leftovers RENAME does neither |
| `RulePruning.RemoveFromBack` | src/series/compaction.rs:1181-1185 | Removing ascending positions from the back removes exactly those |
| `RulePruning.PruneRules` | src/series/compaction.rs:1153-1225 | The rules that stay are those of series the pass holds, and the first rule for each destination that links back |
| `RulePruning.PruningKeepsLive` | src/series/compaction.rs:1153-1225 | In a sound keyspace a compaction pass removes no live rule, and every rule left for a series it does not hold is live |
| `RuleCommands.StepIsSound` | src/commands/ts_createrule.rs:54-93 | RENAME apart no command closes a cycle or doubles a rule, and only `TS.CREATERULE` brings a rule to life, the one it names; RENAME is sound if and only if it is safe |
| `RuleCommands.LinkedRules` | src/commands/ts_createrule.rs:82-93 | Every rule of every series, by destination and duration, and every link, after `TS.CREATERULE` |
| `RuleCommands.UnlinkedRules` | src/commands/ts_deleterule.rs:60-72 | The same after `TS.DELETERULE` |
| `RuleCommands.LiveRulesAfter` | src/series/compaction.rs:1398-1414 | The live rules of every pair, with their durations, after each command that is not RENAME |
| `RuleCommands.RunsAreSound` | src/commands/ts_createrule.rs:54-93 | Over every run of rule, key, RENAME and pruning steps the keyspace stays sound throughout if and only if each RENAME is safe where it happens; a series never has two live sources |
| `RuleCommands.RuleStore.CreateRule` | src/commands/ts_createrule.rs:42-101 | Each refusal exactly in its case; success adds exactly one live rule |
| `RuleCommands.RuleStore.DeleteRule` | src/commands/ts_deleterule.rs:32-80 | Succeeds exactly when the source holds the rule; removes exactly that one |
| `RuleCommands.RuleStore.DeleteKey` | src/series/compaction.rs:1398-1414 | The other live rules are untouched |
| `RuleCommands.RuleStore.CreateKey` | src/series/compaction.rs:1398-1414 | The live rules are untouched |
| `RuleCommands.RuleStore.RenameKey` | src/series/compaction.rs:1437-1465 | The two relinking loops give the renamed keyspace of the lemmas, sound if and only if the RENAME is safe |
| `RuleCommands.RuleStore.Prune` | src/series/compaction.rs:1153-1187 | The pruned keyspace of the lemmas; every pair keeps its live rules |
| `RuleCommands.RenameCanCloseCycle` | src/series/compaction.rs:1437-1465 | A run of seven commands after which RENAME makes a series its own live source |
| `RuleCommands.RenameCanDouble` | src/series/compaction.rs:1207-1215 | A run of five commands, nothing stale in it, after which RENAME doubles a rule, and the next compaction pass drops the renamed rule and keeps the other |
| `SeriesOptions.SeriesOptionKeywords` | src/commands/ts_create.rs:253-269 | The walk yields the option keywords at option boundaries, LABELS last |
| `SeriesOptions.WalkUpToLabels` | src/commands/ts_create.rs:92-118 | Cutting the list at LABELS leaves the walk in front of it unchanged |
| `SeriesOptions.ArgIterator.Skip` | src/commands/ts_create.rs:136-143 | Skipping a repeat takes its operands, or stops where the list ends |
| `SeriesOptions.ArgIterator.IgnoreOperands` | src/commands/command_parser.rs:722-747 | IGNORE reads its first operand before it takes the second, and has taken two when it succeeds |
| `SeriesOptions.ArgIterator.Take` | src/commands/ts_create.rs:163-222 | Each arm takes its own arguments; one that succeeds has taken as many as the walk steps over |
| `SeriesOptions.Turn` | src/commands/ts_create.rs:129-223 | One turn leaves the iterator where the walk steps to, or at the end of the list when a repeat runs out |
| `SeriesOptions.ParseOptions` | src/commands/ts_create.rs:120-227 | Taking arguments one by one, the parser reads its keywords exactly where the table-driven walk finds them |
| `SeriesOptions.ParseSeriesOptions` | src/commands/ts_create.rs:85-227 | The keywords read are those the walk yields before LABELS; shared options hold their first occurrence's value, ENCODING beats bare keywords, the labels are those behind LABELS or what METRIC says, the rounding what its keyword says, and otherwise the base; accepted if and only if the label list can be read and every keyword is fine |
| `SeriesOptions.SharedFirstWins` | src/commands/ts_create.rs:123-145 | A shared option ends at the value of its first occurrence, later ones are not even validated |
| `SeriesOptions.ExplicitEncodingWins` | src/commands/ts_create.rs:147-161 | An explicit ENCODING decides wherever it stands; without one the first bare keyword does |
| `SeriesOptions.ExtrasResolve` | src/commands/ts_create.rs:175-222 | METRIC and the rounding options: given at most once, and kept as read |
| `SeriesOptions.LabelsResolution` | src/commands/ts_create.rs:98-118 | With LABELS the labels are what stands behind it, explicitly none when nothing does, and METRIC is not given too |
| `SeriesOptions.AcceptedIff` | src/commands/ts_create.rs:129-227 | A list is accepted if and only if every keyword is known and allowed, counting operands can be read, and METRIC and rounding are given at most once |
| `IncrBy.Arguments.HandleParseTimestamp` | src/commands/ts_incr_decr_by.rs:132-148 | Strips the first TIMESTAMP of the option region, refuses it without an operand, touches nothing otherwise |
| `IncrBy.StripLeavesWalk` | src/commands/ts_incr_decr_by.rs:132-148 | The keyword walk of the stripped list is the original walk minus that keyword |
| `IncrBy.ReplicationRoundTrip` | src/commands/ts_incr_decr_by.rs:232-255 | Re-parsing the replicated list recovers the primary's timestamp, key, delta and option list |
| `RangeOptions.RepeatedOptions.Accept` | src/commands/command_parser.rs:839-848 | Stores always in extended mode, only on first occurrence in strict mode, and records the token |
| `RangeOptions.ResolvedMeaning` | src/commands/command_parser.rs:814-824 | First and last occurrence of a slot, by position |
| `RangeOptions.ParseRangeOptions` | src/commands/command_parser.rs:870-921 | Strict mode leaves each slot at its first occurrence, extended mode at its last, ALIGN..AGGREGATION and bare AGGREGATION sharing one slot |

## Left out

- ScatterGatherExact: EMPTY together with a shard that sends raw samples is excluded, because the
  coordinator then fills from the samples it has and equality is not intended
  (`src/commands/ts_mrange_fanout_command.rs:323-326`).
- ScatterGatherExact: `first` and `last` are excluded as reducers; the parser refuses them, and their
  ties across shards are documented as arbitrary. `PushDownExact` covers them for shards merged in order.
- ScatterGatherExact: reducers without a partial form are covered by `CollectedExact` instead, for one
  order of the series, since `increase` and `irate` depend on it.
- Merge, Add: accumulators and partial states are values that an update returns anew, not objects
  updated in place; each reducer owns its own there, so nothing is shared.
- AlignedAlloc: `ValkeyAlloc` is modelled as malloc of exactly the layout's size; its rounding of the
  size only adds slack.
- RuleStore: keys that hold something other than a time series, access control, and what a rule computes.
- RuleStore: RESTORE, which can bring links of its own along.
- ParseRangeOptions: starts from options whose operands have been read; operand syntax, the order of
  errors, and what happens behind the loop (the check of ALIGN against the range bounds, and dropping
  the filter timestamps outside the range) are not modelled.
- KahanInc: the branch for a sum that has become infinite is not modelled, since values are reals.
- ParseSeriesOptions: which error is reported, only whether one is.
- ReportMeaning: `irate` is stated for samples at strictly ascending timestamps, as a series has them, and
  in `GroupMeaning` for samples at one timestamp; other orders reach no aggregator.
- MultiSeriesIter: the min-max heap is a map from source to pending item; its internal order is not modelled.
- `SampleReducer` and `PartialSampleReducer` are modelled as the one-column case of their row twins.
- IEEE-754 infinities, signed zero and rounding outside the compensated sum and the square root.
- Ungrouped multi-series replies, EXCLUDEEMPTY, labels and reply order: per-series passes without a merge.
- The request codec, which narrows the bucket duration and COUNT to 32 bits, and label interning.
- Storage, chunk encodings, the index, joins, outlier detection, TS.READ, serialization to RDB,
  keyspace events, access control lists, configuration.
