# Quant data center: verified core

A Dafny model of the parts of a Chinese stock-market data warehouse whose correctness rests on a fast or
incremental path agreeing with a slow, simple one, or on a stateful protocol.

| module | what it models |
|---|---|
| `Fenwick`, `Percentile`, `PercentileMeaning`, `FieldPercentiles`, `PercentileUpdate` | rolling valuation percentiles: Fenwick trees on two's-complement bit arithmetic, evicting date windows, the expanding-rank and slice forms, full, append-only and `--start` updates |
| `DailyWorker`, `Dispatcher`, `DispatcherRecords`, `DispatcherOutcomes`, `DispatcherLoop` | the Baostock daily update: a bounded producer over a FIFO pool whose workers block on earlier tasks, re-submission while collecting, records in submission order, per-code worker state; the protocol as a step relation, and the main thread as nested calls on shared variables |
| `Adjustments`, `DailyMerge` | the data side of the daily update: lookback merge or refetch, as-of adjusted prices |
| `Workflow`, `WorkflowSafety`, `WorkflowRows`, `WorkflowExit` | the resumable daily workflow, its state file, crashes between any two events, exit codes, recovery |
| `DailyBars`, `Derived`, `DerivedMeaning` | canonical daily bars from six sources; full and incremental builds driven by signatures |
| `KeyedTable`, `MetadataBatch` | batched metadata rows with concurrent adders, written in transactions any statement of which can fail |
| `Sorting`, `Upsert`, `UpsertMeaning`, `Checkpoints` | sorting with keep-first and keep-last, keyed Parquet upserts and merges, the in-memory checkpoint index |
| `FetchKernel`, `FetchRun` | AkShare fetching: adaptive concurrency, circuit-open cut-off, one record per task |
| `QlibFeatures` | the two readers of Qlib feature files |

Prices, percentiles and rates are real numbers; dates are integers or calendar dates ordered by a key; missing
values are options; hashes are the values they hash. A pandas sort by several columns is stable; one by a single
column leaves rows that tie in any order, and what is proved about it holds for every such order. A concurrent protocol is a step relation
whose steps are the critical sections of the program, and a theorem about it speaks of every interleaving.
Code that updates variables or fields in loops is written as methods and classes, each proved against a function
on values, and the theorems are about those functions. What such a function computes is in turn said without it:
percentiles by sets of rows, bars by offers and preferences, rows of the state file by exit codes and dependencies,
upserts by cells and columns, records by what went wrong.

## Where a claim needs a condition

Some properties one would like to have fail on part of their inputs. The model keeps the behaviour of the
program and states when the property holds.

- A forced run of the percentiles from a start date gives the full computation exactly when every source row
  before that date is already stored; otherwise it leaves a hole, and later partial runs never fill it
  (`StartRunEqualsFullIff`, `HolesStay`).
- A final metadata flush leaves nothing behind exactly when the counted list is not empty or all lists are
  empty: status and checkpoint rows alone are never flushed by a run-counted batch (`FinalFlushCompletesIff`).
- An upsert or merge into existing rows is map override on every table, whatever a sort does with ties, exactly
  for dataset definitions whose sort columns are unique columns and which sort by several columns unless the key is
  the whole row; writing the same rows twice is writing them once exactly under the second half of that
  (`OverrideIff`, `UpsertTwiceIff`). The definitions the program merges or upserts meet it, except the trading
  calendar: its single sort column is its key, its default mode is "merge", and nothing in the sort keeps a refetched
  day from losing to the stale row (`MergedDefinitions`, `CalendarKeepsStaleDay`). The delist definitions,
  whose sort column `market` is not a unique column, are only written in "replace" mode.
- The checkpoint index and the table scans look at the same row exactly when the matching rows all have an update
  time or none has, and one of them is the only newest: the index sorts missing times first, the scans last, and
  neither has a rule for equal times. On the full key under which the store replaces rows they always agree; for a
  date without start date they need not (`IndexAgreesIff`, `FullKeyAgrees`, `MissingTimeDisagrees`,
  `EqualTimesOpen`). Every row the program writes has a time; a missing one can come from a migrated table
  (src/storage/metadata_store.py:446-505).
- Adjusted prices are determined by the rows exactly as far as the factor of a code and date is: with one, as the
  validator of the factor dataset demands, there is one outcome (`OneAdjustment`).
- An incremental build leaves the whole derived dataset as a full build would exactly when no stored security has
  left the master (`IncrementalEqualsFullIff`).
- A partial daily run leaves the provider's history exactly when it refetched or the stored rows outside the
  lookback were the provider's (`PartialRunIsFullIff`).
- The exit code looks up rows by step id, where the last step of an id wins. Whatever its steps depend on, the code
  of a schedule is 0 exactly for final rows none of which is failing or blocked if and only if the steps of an id
  agree on their state key policy and only optional ones are followed by another of their id (`ExitTruthfulIff`);
  otherwise a run can exit 0 over a blocked row, or nonzero over success rows (`TwoPoliciesHideBlock`,
  `DuplicateIdsHideFailure`). With the dependencies given, it is enough that such a row can never be blocked
  (`ExitTruthful`), but not necessary: the reported row may be blocked in the same runs (`BlockedTogether`).

## Model

| member | source | states |
|---|---|---|
| `Fenwick.AndNegationIsLowBit` | src/sources/baostock/valuation_percentile.py:39-53 | `n & -n`, computed bit by bit on two's complement, is the largest power of two dividing n, so both index loops move |
| `Fenwick.ClimbCovers` | src/sources/baostock/valuation_percentile.py:39-43 | the nodes visited while adding are exactly those whose range contains the index |
| `Fenwick.FenwickTree.Add` | src/sources/baostock/valuation_percentile.py:39-43 | adds the delta to one abstract count, or to none past the end; every node stays the sum of its range; the loop ends |
| `Fenwick.FenwickTree.PrefixSum` | src/sources/baostock/valuation_percentile.py:45-53 | the sum of all counts up to the index, 0 below zero, clamped above |
| `Percentile.SubtractYearsShape` | src/sources/baostock/valuation_percentile.py:242-246 | the shifted date exists and keeps month and day, except that 29 February becomes the 28th in a common year |
| `Percentile.KeyOrder` | src/sources/baostock/valuation_percentile.py:242-246 | the integer keys order dates by year, month and day |
| `Percentile.SubtractYearsMonotone` | src/sources/baostock/valuation_percentile.py:242-246 | shifting years back is monotone and strictly earlier |
| `Percentile.PercentileRange` | src/sources/baostock/valuation_percentile.py:367-380 | for a sampled value no division meets zero, and the percentile exists and lies in (0, 100] |
| `Percentile.RankInvariance` | src/sources/baostock/valuation_percentile.py:207-213 | ranks by position in the compressed value table are ranks among the values, whatever the table |
| `Percentile.HistogramPrefix` | src/sources/baostock/valuation_percentile.py:95-114 | a prefix sum of a sign's histogram counts the samples of that sign below the position |
| `Percentile.RollingCounts.Add` | src/sources/baostock/valuation_percentile.py:85-88 | appends one sample; trees and counters keep describing exactly the window |
| `Percentile.RollingCounts.EvictBefore` | src/sources/baostock/valuation_percentile.py:90-93 | drops exactly the leading samples before the threshold; trees and counters follow |
| `Percentile.RollingCounts.AddSample` | src/sources/baostock/valuation_percentile.py:106-114 | one step in either direction moves trees and counters from one sample list to the next |
| `Percentile.RollingCounts.TreeRanks` | src/sources/baostock/valuation_percentile.py:95-104 | the three tree queries are the ranks that the naive definition counts |
| `Percentile.RollingCounts.Percentile` | src/sources/baostock/valuation_percentile.py:95-104 | equals the naive percentile of the window's values in all three sign cases |
| `PercentileMeaning.WindowMeans` | src/sources/baostock/valuation_percentile.py:367-380 | the naive percentile of a window, by sets of dated rows: a negative value ranks above the positive ones, beside a negative one a positive value ranks among the positive ones, else among all |
| `PercentileMeaning.WindowCellMeans` | src/sources/baostock/valuation_percentile.py:214-239 | a fixed-window cell is filled if and only if the row has a value other than 0.0 and some such row is dated at or before the threshold; it is the percentile among those from the threshold to the row |
| `FieldPercentiles.SortedUniqueIs` | src/sources/baostock/valuation_percentile.py:208-209 | the value table is strictly ascending and holds exactly the valid values |
| `FieldPercentiles.IndexValues` | src/sources/baostock/valuation_percentile.py:213 | maps every table value to its position |
| `FieldPercentiles.EvictionMovesThreshold` | src/sources/baostock/valuation_percentile.py:224-226 | evicting from the front equals recomputing the window from the later threshold |
| `FieldPercentiles.CellFromWindow` | src/sources/baostock/valuation_percentile.py:236-239 | the window after adding its own row yields the naive cell, empty until history reaches the threshold |
| `FieldPercentiles.AdvanceRow` | src/sources/baostock/valuation_percentile.py:224-239 | one turn of the row loop moves every window from row to row and computes the row's cells |
| `FieldPercentiles.ComputeFieldPercentiles` | src/sources/baostock/valuation_percentile.py:207-239 | the one-pass loop fills every cell of every column as the rows demand: empty unless the row and some row at or before the threshold have a value other than 0.0, else the percentile among the rows of the window |
| `PercentileUpdate.CellsInRange` | src/sources/baostock/valuation_percentile.py:117-183 | every percentile lies in (0, 100]; a row has an all-history percentile exactly when its value is valid, and no other percentile without one |
| `PercentileUpdate.CellsMean` | src/sources/baostock/valuation_percentile.py:149-239 | the all-history cell is the percentile among all valued rows up to the row; the windows are of one, three, five and ten years |
| `PercentileUpdate.FullMeans` | src/sources/baostock/valuation_percentile.py:117-146 | the full computation has each source row, with its date and values, and such cells for each of its four fields |
| `PercentileUpdate.SliceEqualsExpandingRank` | src/sources/baostock/valuation_percentile.py:309-330 | the naive percentile of the date slice is the expanding-rank value |
| `PercentileUpdate.SliceEqualsFixedWindow` | src/sources/baostock/valuation_percentile.py:333-364 | the naive percentile of the date slice is the Fenwick window's value |
| `PercentileUpdate.AppendOnlyField` | src/sources/baostock/valuation_percentile.py:309-364 | the slice loops give the full computation's cells for every appended row |
| `PercentileUpdate.AppendOnly` | src/sources/baostock/valuation_percentile.py:257-306 | the append-only frame is the full frame's rows after the latest stored date |
| `PercentileUpdate.ComputeField` | src/sources/baostock/valuation_percentile.py:139-142 | the window columns and expanding ranks of one field, row by row, are the full computation's cells |
| `PercentileUpdate.ComputeValuationPercentiles` | src/sources/baostock/valuation_percentile.py:117-146 | field by field and row by row gives the full computation |
| `PercentileUpdate.UpdateStock` | src/sources/baostock/valuation_percentile.py:461-491 | skip, append or compute-and-select, then merge: stores what the run modes specify |
| `PercentileUpdate.FullRunReplaces` | src/sources/baostock/valuation_percentile.py:461-491 | a full run stores the full computation whatever was stored |
| `PercentileUpdate.PartialRunAppends` | src/sources/baostock/valuation_percentile.py:461-491 | whatever is stored, a partial run keeps it in front and appends exactly the computed rows dated after all of it |
| `PercentileUpdate.StartRunHolds` | src/sources/baostock/valuation_percentile.py:705-725 | whatever is stored, a run from a start date keeps exactly the stored rows before it and the computed ones from it on; with no source row from it on it changes nothing |
| `PercentileUpdate.Causality` | src/sources/baostock/valuation_percentile.py:117-239 | a row's percentiles depend on no later row |
| `PercentileUpdate.PartialEqualsFull` | src/sources/baostock/valuation_percentile.py:471-491 | a partial run over a stored full computation of a prefix gives the full computation |
| `PercentileUpdate.DailyRunsEqualFull` | src/sources/baostock/valuation_percentile.py:443-491 | any sequence of daily partial runs over a growing source equals one full run at the end |
| `PercentileUpdate.StartRunResult` | src/sources/baostock/valuation_percentile.py:705-725 | a run from a start date keeps the stored rows before it and recomputes the rest |
| `PercentileUpdate.StartRunEqualsFullIff` | src/sources/baostock/valuation_percentile.py:705-725 | that is the full computation if and only if every source row before the start was stored |
| `PercentileUpdate.HolesStay` | src/sources/baostock/valuation_percentile.py:705-725 | a partial run never adds a row dated up to the latest stored date |
| `KeyedTable.UpsertOverrides` | src/storage/metadata_store.py:177-207 | deleting the matching keys and inserting distinct rows is map override, and keys stay distinct |
| `KeyedTable.DedupeRows` | src/pipeline/lifecycle.py:365-371 | the dictionary loop keeps the last row of each key at the place of its first |
| `KeyedTable.DedupeContents` | src/pipeline/lifecycle.py:365-371 | de-duplication keeps the contents and makes keys distinct |
| `KeyedTable.DedupeOrder` | src/pipeline/lifecycle.py:365-371 | and keeps the keys in the order of their first rows |
| `MetadataBatch.StepConserves` | src/pipeline/lifecycle.py:56-119 | every add, take, commit and rollback conserves stored plus in-flight plus pending rows, per table |
| `MetadataBatch.NothingLost` | src/pipeline/lifecycle.py:56-119 | so does every interleaving with failing transactions |
| `MetadataBatch.BatchedEqualsOneByOne` | src/pipeline/lifecycle.py:74-119 | once nothing is in flight or pending, the tables are those of one write per added row, runs in add order |
| `MetadataBatch.FinalFlushCompletesIff` | src/pipeline/lifecycle.py:74-125 | a successful flush leaves nothing if and only if the counted list, runs or checkpoints, was not empty or all three were |
| `MetadataBatch.FinalFlushStoresAll` | src/pipeline/lifecycle.py:56-125 | with a counted row in every add, the final flush makes the store equal to one-by-one writes |
| `MetadataBatch.PipelineMetadataBatch.AddRows` | src/pipeline/lifecycle.py:56-72 | is the add step, and asks for a flush exactly when the runs, or else the checkpoints, reach the flush size |
| `MetadataBatch.PipelineMetadataBatch.TakeRows` | src/pipeline/lifecycle.py:74-87 | is the take step: hands over all three lists, de-duplicated, and empties them |
| `MetadataBatch.PipelineMetadataBatch.Finish` | src/pipeline/lifecycle.py:100-119 | is the commit step, or puts the rows back in front and raises, as the transaction went |
| `MetadataBatch.MetadataStore.PersistUpdateMetadata` | src/storage/metadata_store.py:156-214 | at whichever statement a failure strikes, the commit included: all three tables change together or not at all, no transaction stays open, and success means that nothing failed |
| `MetadataBatch.MetadataStore.ExecuteAll` | src/storage/metadata_store.py:176-205 | the statements for the non-empty frames, run to the end, are one append and two upserts; the first that fails ends them |
| `FetchKernel.ObserveValid` | src/sources/akshare/eastmoney/modules/valuation_eastmoney.py:209-249 | the target stays between 1 and the maximum through every outcome |
| `FetchKernel.ObserveMeans` | src/sources/akshare/eastmoney/modules/valuation_eastmoney.py:209-249 | what one outcome does, case by case: a run of failures, too large a part of failures in a full window, or a run of successes moves the target by one within its bounds and starts a new window; else it joins the window |
| `FetchKernel.FailuresBackOff` | src/sources/akshare/eastmoney/modules/valuation_eastmoney.py:218-242 | every full run of failures costs at least one worker, down to one |
| `FetchKernel.SuccessesRecover` | src/sources/akshare/eastmoney/modules/valuation_eastmoney.py:231-249 | from a clean state every full run of successes gives back exactly one worker, up to the maximum |
| `FetchKernel.AdaptiveConcurrencyController.RecordFetchResult` | src/sources/akshare/eastmoney/modules/valuation_eastmoney.py:209-249 | one outcome moves deque, streaks and target as the transition function says |
| `FetchRun.SettledOnce` | src/sources/akshare/pipeline/execution.py:176-224 | a legal run settles no task twice, as a result or a skip |
| `FetchRun.InFlightBounded` | src/sources/akshare/pipeline/execution.py:165-172 | at no time are more fetches in flight than workers |
| `FetchRun.NoSubmitAfterOpen` | src/sources/akshare/pipeline/execution.py:208-213 | nothing is submitted once an open circuit stops the run |
| `FetchRun.NoSkipWithoutOpen` | src/sources/akshare/pipeline/execution.py:192-224 | nothing is skipped without an open circuit |
| `FetchRun.SubmitUntilTarget` | src/sources/akshare/pipeline/execution.py:165-172 | submits in task order, only while fewer are pending than the target that the outcomes so far give, and stops only at the target, at the end of the tasks or when stopped |
| `FetchRun.Collect` | src/sources/akshare/pipeline/execution.py:178-223 | turns one finished fetch into a result or a skip; the first open circuit skips the rest |
| `FetchRun.RunConcurrentFetches` | src/sources/akshare/pipeline/execution.py:151-224 | for every completion order the run is legal, settles every task and ends; each submission was made below the target of a controller told exactly the outcomes recorded before it, and the controller ends as one told all of them |
| `FetchRun.RunSequentialFetches` | src/sources/akshare/pipeline/execution.py:123-142 | the one-worker loop is legal, settles every task, and tells the controller exactly the recorded outcomes |
| `DailyWorker.InitialAccounts` | src/sources/baostock/update_daily_worker.py:252-340 | the initial pass records each planned dataset or asks for its refetch, exactly once, with at most one request |
| `DailyWorker.RefetchAccounts` | src/sources/baostock/update_daily_worker.py:186-210 | a refetch that finds its plans records each requested dataset once and requests nothing |
| `DailyWorker.InitialTells` | src/sources/baostock/update_daily_worker.py:167-340 | a record of the initial pass says success if and only if nothing was raised, the dataset is not an adjusted one under a factor error, the provider call did not fail and its write did not, in partial mode no write of a dataset that can run; a refetch is asked for exactly when nothing was raised, some dataset can run, and full mode has fetched nothing up front or partial mode meets a conflict, and then for exactly the datasets that can run |
| `DailyWorker.RefetchTells` | src/sources/baostock/update_daily_worker.py:186-210 | a record of a refetch says success if and only if nothing was raised, the provider call did not fail and no write failed |
| `DailyWorker.DailyUpdateBackgroundWorker.ProcessFactorSuccess` | src/sources/baostock/update_daily_worker.py:73-116 | one record; the fetched factors are kept, or after a failed write the stored ones, with an error only if there are none |
| `DailyWorker.DailyUpdateBackgroundWorker.ProcessFactorFailure` | src/sources/baostock/update_daily_worker.py:118-159 | one failure record; the stored factors are kept, with an error exactly if there are none |
| `DailyWorker.DailyUpdateBackgroundWorker.UseExistingFactor` | src/sources/baostock/update_daily_worker.py:161-165 | keeps the stored factors without an error, if factors are kept at all |
| `DailyWorker.DailyUpdateBackgroundWorker.TryInitial` | src/sources/baostock/update_daily_worker.py:252-340 | the loops of the initial pass give the specified result, or raise where it says all plans fail |
| `DailyWorker.DailyUpdateBackgroundWorker.ProcessDailyInitial` | src/sources/baostock/update_daily_worker.py:167-184 | stores the plans, turns an exception into failures of all plans, and releases the code's state unless it asks for a refetch |
| `DailyWorker.DailyUpdateBackgroundWorker.ProcessDailyFullRefetch` | src/sources/baostock/update_daily_worker.py:186-210 | writes the requested plans that were kept, then releases the code's state |
| `Dispatcher.StepKeeps` | src/sources/baostock/update_daily.py:583-680 | every step keeps the invariant: FIFO pool, pending at most its bound, at most one request per result, records in order |
| `Dispatcher.PoolProgress` | src/sources/baostock/update_daily.py:664-680 | although daily tasks block on factor futures, some worker step is possible while a pending task is unfinished |
| `Dispatcher.DeadlockFree` | src/sources/baostock/update_daily.py:589-680 | before the end some step is always possible, so every blocking drain returns |
| `Dispatcher.NoReentrantDrain` | src/sources/baostock/update_daily.py:589-655 | in every reachable state the pending tasks are within their bound, and below it while a result with a request is collected: no drain is entered from inside a drain |
| `Dispatcher.FlushKeepsOrder` | src/sources/baostock/update_daily.py:657-662 | the flush hands out exactly the consecutive completed results and keeps the record order |
| `Dispatcher.StepDescends` | src/sources/baostock/update_daily.py:697-802 | every step goes down in a well-founded order, so every run ends, the final drains too |
| `Dispatcher.ObligingExists` | src/sources/baostock/update_daily.py:697-802 | some scheduler never gets stuck, so the statements about all of them speak of something |
| `Dispatcher.RunToEnd` | src/sources/baostock/update_daily.py:697-802 | any scheduler's run reaches the end with the invariant |
| `Dispatcher.EndIsFlushed` | src/sources/baostock/update_daily.py:796-802 | at the end nothing is pending, every task has its result, and the records of all results stand in submission order, each once |
| `Dispatcher.InitiallyInv` | src/sources/baostock/update_daily.py:583-587 | the program starts inside the invariant |
| `DispatcherRecords.StepKeepsCells` | src/sources/baostock/update_daily_worker.py:167-210 | no step creates or loses a record to come |
| `DispatcherRecords.StepKeepsBacked` | src/sources/baostock/update_daily_worker.py:231-250 | every live refetch request keeps its plans and the factor frame of its initial pass, against all other tasks |
| `DispatcherRecords.OneRecordPerPlan` | src/sources/baostock/update_daily_worker.py:167-210 | for distinct codes and any interleaving the run records hold what is owed, dataset by dataset |
| `DispatcherOutcomes.StepKeepsTold` | src/sources/baostock/update_daily_worker.py:73-340 | every step keeps that for one answer to each finished task every result tells its own answer, and a daily task works with the factors that the factor task of its own code left, or its job brought along, whatever ran in between |
| `DispatcherOutcomes.RecordsTold` | src/sources/baostock/update_daily.py:697-802 | in every such state each run record is success or failure as the answers that the tasks of its code met make it, and each refetch is one that a daily task of its code asked for |
| `DispatcherRecords.OwedForJob` | src/sources/baostock/update_daily.py:750-794 | what is owed is one record for each planned dataset of a code and none for others |
| `DispatcherRecords.RefetchFindsPlans` | src/sources/baostock/update_daily_worker.py:186-192 | in every reachable state a running refetch finds its plans and the factors its initial pass used |
| `DispatcherRecords.StateReleased` | src/sources/baostock/update_daily_worker.py:247-250 | at the end the worker keeps nothing for any code |
| `DispatcherLoop.ProtocolIsSound` | src/sources/baostock/update_daily.py:583-680 | in the protocol's states every step keeps the invariant and what is owed and goes down, something can finish while something is unfinished, and a dispatched request never waits |
| `DispatcherLoop.UpdateDaily.WaitFirst` | src/sources/baostock/update_daily.py:641-642 | waiting for the first finished future always returns, whatever the threads do |
| `DispatcherLoop.UpdateDaily.SubmitBackground` | src/sources/baostock/update_daily.py:589-605 | the nested call drains while the bound is reached, then hands over exactly the due task; the mutual recursion through the drain ends |
| `DispatcherLoop.UpdateDaily.DrainCompleted` | src/sources/baostock/update_daily.py:638-647 | collects the futures finished by then in sequence order and leaves none of them |
| `DispatcherLoop.UpdateDaily.CollectCompleted` | src/sources/baostock/update_daily.py:649-655 | collects one result, dispatches its requests and flushes, inside the invariant |
| `DispatcherLoop.UpdateDaily.FlushOrderedRunRecords` | src/sources/baostock/update_daily.py:657-662 | the loop on dictionary and counter is the flush step |
| `DispatcherLoop.UpdateDaily.RunJob` | src/sources/baostock/update_daily.py:701-796 | a code's turn: stored or fetched factors, the daily task with its factor future, a drain |
| `DispatcherLoop.RunUpdateDaily` | src/sources/baostock/update_daily.py:697-802 | the whole main thread, with pool steps anywhere in between, ends with run records that hold exactly what the jobs owe, and for some answer to each of its tasks every record is success or failure as the answers to the tasks of its code make it |
| `Adjustments.AsOfIsLatest` | src/sources/baostock/adjustments.py:44-68 | the factor used is the code's latest on or before the date, if there is one |
| `Adjustments.OneAdjustment` | src/quality/validators.py:338-345 | with one factor per code and date, as the validator demands, the open ties make no difference: there is one outcome |
| `Adjustments.MergeAsOf` | src/sources/baostock/adjustments.py:60-66 | the two-cursor merge finds the latest factor for every date of a sorted table |
| `Adjustments.FillCode` | src/sources/baostock/adjustments.py:46-68 | one turn of the grouping loop fills the factor column for one code with as-of factors, however ties are sorted, and leaves the others |
| `Adjustments.CalculateAdjustedDailyBar` | src/sources/baostock/adjustments.py:20-74 | every price there is is the source price times an as-of factor, 1.0 without one, every gap stays one, and code, date and order are kept; the factor is determined if there is one per code and date |
| `DailyMerge.MergeAt` | src/pipeline/common.py:364-377 | under each date the merge holds the fetched row, else the stored one |
| `DailyMerge.MergeAscends` | src/pipeline/common.py:364-377 | the merge has one row per date, in date order |
| `DailyMerge.RefetchIff` | src/pipeline/common.py:380-413 | a full refetch is asked for exactly when the lookback holds no stored row or one the provider lacks or has with other values |
| `DailyMerge.PartialRunIsFullIff` | src/sources/baostock/update_daily_worker.py:342-352 | a partial run leaves the provider's history if and only if it refetched or the rows outside the lookback were the provider's |
| `DailyMerge.PartialEqualsFullMode` | src/sources/baostock/update_daily_worker.py:305-340 | then every planned dataset, adjusted ones too, gets the frame of a full-mode run |
| `DailyMerge.FrameForMeans` | src/sources/baostock/update_daily_worker.py:412-428 | an adjusted dataset gets every row scaled by a latest factor on or before its date, the unadjusted one the rows themselves |
| `DailyMerge.NextDayStays` | src/sources/baostock/update_daily_worker.py:342-352 | over a growing provider history each day's run keeps the stored history equal to it |
| `DailyMerge.RepairedRange` | src/pipeline/common.py:454-467 | a replaced range holds exactly the fetched rows and nothing outside it is lost |
| `Workflow.RewrittenExcludes` | src/tools/run_update_daily.py:1536-1591 | a rewritten build command really excludes the daily bars |
| `WorkflowRows.TargetsAre` | src/tools/run_update_daily.py:1558-1570 | the targets a build command asks for are exactly the values of its target options, in either spelling and read left to right |
| `WorkflowRows.RewriteIs` | src/tools/run_update_daily.py:1536-1591 | a degraded daily bar forbids the step that builds it alone and a command that asks for it and not for all; a command that asks for all gets the exclusion; one that excludes it, or asks for neither, is left as it is |
| `Workflow.BlockedDependencies` | src/tools/run_update_daily.py:1594-1621 | the loop reports nothing exactly when every hard dependency is satisfied under its resolved key |
| `Workflow.DecideStep` | src/tools/run_update_daily.py:794-917 | start-at skips, resumes, blocks and degraded commands, as one verdict |
| `Workflow.RunDailyUpdate` | src/tools/run_update_daily.py:749-1052 | the loop produces exactly the specified events, file content and exit code, rows being reported under the policy of the last step of their id; an unknown start step changes nothing |
| `WorkflowSafety.CrashSafety` | src/tools/run_update_daily.py:771-1037 | after any history of runs, each cut between any two events, a success row on file is backed by the latest runner call for its step under its key having returned 0 |
| `WorkflowSafety.CallsAreProper` | src/tools/run_update_daily.py:824-1037 | every runner call follows the write of its running row over a state with all hard dependencies satisfied; plain success is recorded exactly if the call returned 0 and every dependency, hard or soft, was satisfied without degradation |
| `WorkflowSafety.StepCalledIff` | src/tools/run_update_daily.py:792-917 | a step is called if and only if the run reaches it from the start step on, it is not resumed as a plain success without force, its hard dependencies are satisfied and no soft one forbids it |
| `WorkflowRows.EveryStepTurns` | src/tools/run_update_daily.py:792-1037 | what each turn of the loop writes and calls, by case: not reached, resumed, blocked, or called, and then for every exit code, timeout and optional step the status of its row and whether the run stops |
| `WorkflowRows.CalledExactly` | src/tools/run_update_daily.py:792-917 | a step is called if and only if the run reaches it, does not resume it, and no hard dependency without a success or skip on file and no soft one holds it back |
| `WorkflowRows.BadRowBlocks` | src/tools/run_update_daily.py:86-96 | a step whose hard dependency has a row given up after a timeout, failed, blocked, abandoned or running is not called |
| `WorkflowRows.GoodRowsRun` | src/tools/run_update_daily.py:86-96 | one whose dependencies are hard and have success, degraded success or a plain skip on file is called when reached and not resumed |
| `WorkflowExit.ExitCode` | src/tools/run_update_daily.py:1624-1655 | of any schedule on any file: the first failure the run recorded decides, else 1 stands for a blocked reported row |
| `WorkflowExit.ExitCodeMeans` | src/tools/run_update_daily.py:1624-1655 | the code is the failure recorded, or 1 if some reported row has the status blocked, or 0 |
| `WorkflowExit.FirstFailingMeans` | src/tools/run_update_daily.py:1627-1631 | on any state, the search for a failing row gives the exit code, or 1 without one, of the first step whose reported row is failed, failed over a lock or a cleanup, or abandoned |
| `WorkflowExit.ExitTruthful` | src/tools/run_update_daily.py:1624-1655 | 0 if and only if no scheduled step's own final row is failing or blocked, for every schedule that cannot hide one; distinct ids are one case |
| `WorkflowExit.ExitTruthfulIff` | src/tools/run_update_daily.py:1638-1655 | that holds in every run on every file, whatever the steps depend on, if and only if the steps of an id agree on their policy and only optional ones are followed by another of their id |
| `WorkflowExit.TwoPoliciesHideBlock` | src/tools/run_update_daily.py:1645-1655 | two steps of one id under two policies: exit 0 with the first one blocked on file |
| `WorkflowExit.BlockedTogether` | src/tools/run_update_daily.py:1645-1655 | a schedule that meets no such condition on its given dependencies and is truthful in every run all the same |
| `WorkflowExit.ExitZeroMeansDone` | src/tools/run_update_daily.py:1039-1052 | exit 0 means every step ended with success, degraded success, a skip, or optional and timed out |
| `WorkflowExit.DuplicateIdsHideFailure` | src/tools/run_update_daily.py:1645-1655 | with two steps of one id and policy the run exits nonzero with success as its only row |
| `WorkflowExit.RerunRecovers` | src/tools/run_update_daily.py:794-1037 | whatever a file holds, a run in which every command succeeds leaves plain success in every scheduled row |
| `DailyBars.SourceChoice` | src/sources/derived/stock_daily_bar.py:281-293 | one bar for each date and adjustment any source has, of least rank, in the validators' order |
| `DailyBars.MaterializeMeans` | src/sources/derived/stock_daily_bar.py:261-375 | one bar for each date and adjustment offered by a partition: of Baostock if it offers one, else of a confirmed AkShare row, else of a spot close, else of the first other; with the fields of that row, by adjustment and date |
| `DailyBars.ArrangePicks` | src/sources/derived/stock_daily_bar.py:284-293 | sort, keep first and sort again pick, per key, the first of the rows of least rank |
| `DailyBars.ChosenHasLeastRank` | src/sources/derived/stock_daily_bar.py:368-375 | the row picked without sorting exists exactly for present keys and none of its key ranks lower |
| `Derived.MaterializeBySignature` | src/storage/partition_manifest.py:79-105 | materializing reads nothing that the source signature does not cover |
| `Derived.FilterDropsOnlyEmpty` | src/sources/derived/stock_daily_bar.py:239-258 | the candidate filter keeps exactly the securities with source partitions and drops only empty ones |
| `Derived.HistoryFaithful` | src/sources/derived/update.py:192-235 | over any history of source writes and deletes, master changes and builds, a manifest's signature stands for its partition's content |
| `Derived.UnchangedIsCurrent` | src/sources/derived/update.py:208-234 | what the plan leaves alone is what materializing would give |
| `Derived.IncrementalEqualsFull` | src/sources/derived/update.py:145-235 | after any history an incremental build leaves every security of the master with the partition a full build would give |
| `Derived.IncrementalEqualsFullIff` | src/sources/derived/update.py:145-235 | the whole dataset equals the full build's if and only if every stored security is in the master |
| `Derived.FullBuildSettles` | src/sources/derived/update.py:192-235 | right after a full build no security with bars is due |
| `DerivedMeaning.FullBuildMeans` | src/sources/derived/stock_daily_bar.py:67-111 | after a full build every security of the master has the bars its sources ask for and a manifest that lists exactly its partitions with their rows and the hashed master columns, or neither if it has no source row; nothing else is stored |
| `DerivedMeaning.PartitionBuildMeans` | src/sources/derived/stock_daily_bar.py:126-181 | after a build of given securities the same holds of those, and partitions and manifests of all others are untouched |
| `DerivedMeaning.PlanMeans` | src/sources/derived/update.py:192-235 | the plan picks exactly the listed securities that are stored without sources, or have sources and are not stored, without a manifest that describes the sources, or recently updated |
| `DerivedMeaning.IncrementalBuildMeans` | src/sources/derived/update.py:76-103 | an incremental build rebuilds the explicit securities, or all if nothing was built, or those that are due, and leaves the others untouched |
| `Derived.DerivedStore.MaterializeSecurity` | src/sources/derived/stock_daily_bar.py:261-293 | the loop over the datasets gives one bar for each date and adjustment that a source offers, the preferred one, in order |
| `Derived.DerivedStore.BuildFull` | src/sources/derived/stock_daily_bar.py:67-111 | the staged loop, the swap and the manifest cleanup give the full build |
| `Derived.DerivedStore.BuildPartitions` | src/sources/derived/stock_daily_bar.py:126-181 | the per-partition loop gives the partition build, removing partitions that became empty |
| `Derived.DerivedStore.ChangedSecurityIds` | src/sources/derived/update.py:192-235 | the plan loop names exactly the changed securities |
| `Derived.DerivedStore.BuildIncremental` | src/sources/derived/update.py:76-103 | plan and build together are the incremental build |
| `Upsert.UpsertStoresWinners` | src/storage/parquet_store.py:513-542 | for any columns and however ties fall, an upsert stores one row per key of old and new rows, in sort order, and none of its key sorts strictly after it; sorting by several columns, it is the last of those |
| `Upsert.UpsertIsOverride` | src/storage/parquet_store.py:513-542 | with sort columns among the unique ones and ties decided that is map override, the last incoming row first |
| `Upsert.OverrideIff` | src/storage/parquet_store.py:665-674 | and it is override on every table under every permitted sort only for such definitions |
| `Upsert.MergedDefinitions` | src/storage/dataset_catalog.py:131-143 | of the definitions written into existing rows, the daily bars and the disclosure dates always override, the trading calendar does not |
| `Upsert.CalendarKeepsStaleDay` | src/storage/parquet_store.py:449-460 | for a stored calendar of any length and any day of it fetched again, the merge can leave the calendar as it was |
| `Upsert.StaleWinsIff` | src/storage/parquet_store.py:665-674 | a stored row can survive another one of its key exactly when that is the same row, sorts strictly before it, or ties with it under a single sort column |
| `Upsert.UpsertTwiceIff` | src/storage/parquet_store.py:513-542 | writing the same rows again changes no stored row under any permitted sort if and only if ties are decided |
| `Upsert.SkipKeepsKeys` | src/storage/parquet_store.py:525-526 | a skipped write leaves the same keys as the write would |
| `Upsert.GroupedEqualsPerPartition` | src/storage/parquet_store.py:484-501 | a partition can get from a grouped write exactly what it can get from a write of its own rows |
| `UpsertMeaning.AtMostMeans` | src/storage/parquet_store.py:670-674 | the sort compares rows by the first sort column in which their cells differ |
| `UpsertMeaning.UpsertMeans` | src/storage/parquet_store.py:513-542 | what an upsert leaves: rows in sort order, no two with the same key cells, one for each key there was, and no row of its key sorts after it; sorting by several columns, it is the last of those |
| `UpsertMeaning.OverrideMeans` | src/storage/parquet_store.py:513-542 | where that is map override, each row left is the last incoming one of its key, or the last stored one of a key that no incoming row has |
| `UpsertMeaning.GroupsMean` | src/storage/parquet_store.py:468-511 | after a grouped write each partition holds what an upsert of exactly its own rows, in their order, leaves, and is as before if it has none or all their keys are stored and such are skipped |
| `Upsert.PartitionedDataset.WriteMerged` | src/storage/parquet_store.py:447-460 | a merge combines with a file that is there and only sorts otherwise |
| `Upsert.PartitionedDataset.WritePartition` | src/storage/parquet_store.py:513-542 | one partition is upserted, or skipped when every incoming key exists; the others stay |
| `Upsert.PartitionedDataset.WriteGrouped` | src/storage/parquet_store.py:468-511 | every partition with incoming rows is written as if alone; the others stay (what that means is `GroupsMean`) |
| `Checkpoints.IndexAgreesIff` | src/pipeline/common.py:31-84 | index and scan look at the same row under every permitted sort if and only if the matching rows all have an update time or none has, and one is the only newest |
| `Checkpoints.LookupsMean` | src/pipeline/common.py:31-84 | index and scans look at a row with the fields asked for, with the start date or without, than which no such row has a later update time; a missing time is earliest for the index and latest for a scan |
| `Checkpoints.FullKeyAgrees` | src/storage/metadata_store.py:195-207 | on the full key, under which the store keeps one row, they always do |
| `Checkpoints.EqualTimesOpen` | src/pipeline/common.py:41 | of two rows for one date with equal times, each of them may look at either |
| `Checkpoints.IndexedIsGreatest` | src/pipeline/common.py:41-53 | what an index may look at are exactly the newest matching rows, missing times oldest |
| `Checkpoints.MissingTimeDisagrees` | src/storage/parquet_store.py:772-796 | two rows for one date with different start dates on which every index resumes and no scan does |
| `Checkpoints.PipelineCheckpointLookup.constructor` | src/pipeline/common.py:31-53 | the loop fills both dictionaries with the last status of each key in a table sorted by update time |
| `Checkpoints.PipelineCheckpointLookup.PipelineCheckpointSucceeded` | src/pipeline/common.py:59-71 | answers whether the output exists and a newest row with the fields and the start date asked for says "success" |
| `Checkpoints.PipelineCheckpointLookup.CheckpointSucceededForDate` | src/pipeline/common.py:73-84 | the same for rows with any start date |
| `Checkpoints.ScannedIsGreatest` | src/storage/parquet_store.py:759-769 | what a scan may look at are exactly the newest matching rows, missing times newest |
| `Checkpoints.ScanSucceeded` | src/storage/parquet_store.py:741-796 | filtering, sorting and taking the last row answers whether the output exists and such a row says success |
| `QlibFeatures.LoadSymbolFeatures` | src/sources/qlib/sync.py:241-288 | the frame reaches from the first to the last calendar day for which any file has an entry, and every cell is its file's rounded value for the day, or a gap exactly where the file has none |
| `QlibFeatures.FrameMatchesSeries` | src/sources/qlib/sync.py:291-303 | a cell holds a value exactly if the field's own series lists it on that day, for any start index |
| `QlibFeatures.HullIsExact` | src/sources/qlib/sync.py:255-269 | the first and last day are listed by some series, and no series lists a day outside |
| `QlibFeatures.SeriesHas` | src/sources/qlib/sync.py:291-303 | the series lists exactly the file's values inside the calendar |
| `QlibFeatures.SeriesMeans` | src/sources/qlib/sync.py:291-303 | a day is listed, in order, exactly if the file has an entry for it inside the calendar, with the rounded value or the gap it has there |

## Left out

- Fenwick.FenwickTree.Add: excludes negative indices, for which `current & -current` stays at zero and the loop does not end; the program only passes positions of a table.
- FetchRun.RunConcurrentFetches: excludes a controller whose maximum exceeds the pool size; the program builds both from one number.
- DailyMerge.NextDayStays: assumes that the provider does not change old rows from one day to the next; what happens when it does is `RefetchIff`.
- WorkflowExit.ExitTruthful: goes one way for given dependencies, because whether a row the code does not look at can be blocked while every reported row is fine depends on the dependencies of all steps together (`BlockedTogether` is a schedule for which the other way fails); the exact condition is proved over all dependencies (`ExitTruthfulIff`).
- Floating-point rounding, number parsing, NaN and NaT handling, string trimming: cells are reals or clean keys, or options where the program can meet a gap.
- Duplicate dates in the percentile source and years before 1: dates are unique and shifted years are valid.
- Legacy state keys, the legacy start-at alias, file versions and corrupt state files of the workflow: a run starts from no file or from one written by an earlier run.
- The workflow's process lock, subprocess handling and database lock waiting: the runner is a function giving exit codes, and whether the databases become free after a timeout is an input.
- Which running rows are judged abandoned: the judgement, made from process ids and times, is an input of a run.
- What a worker task does while it runs: its effect on the per-code state happens in one step when it finishes.
- Exceptions inside `collect_completed` and in the AkShare modules' own record functions: they end the program's run.
- The contents of run records beyond dataset, code and success or failure; log lines and counters.
- Failures between a Parquet write and its manifest row, source manifests that are missing or out of step with their files, and the fallback to a full build that a missing source manifest causes.
- The derived valuation dataset and the security master build: the same plan with other sources, and a field merge.
- Validators raising on written frames, write retries, and row groups without a partition value.
- Network clients, adapters, downloads, SQL text, Parquet and Arrow encoding, hashing, command line, reports and the registry.
- Circuit-breaker timers, lock files and the spot-quote modules of AkShare fetching.
