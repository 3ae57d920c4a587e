# Verification model of marketflow

A Dafny model of marketflow's price pipeline, from the exchanges' channels to the aggregated table, and proofs of
what its parts promise together. `dafny verify dfyconfig.toml` checks everything.

## What is modelled

- **Ingestion** (`Pipeline*`, `Worker`, `FanOut*`). FanIn's forwarders and closer, the pool's dispatcher, workers and
  closer and the draining consumer are one step system over unbuffered channels: a send and its receive are one step,
  both branches of a `select` stay enabled when both are ready, any cache or table call may fail, and the context may
  be cancelled at any time. A send on a closed channel, a second close and a negative WaitGroup are explicit panics.
  `Worker.Pool.ProcessOne` is the imperative code of one update, proved to be a sequence of worker steps. `FanOutSteps`
  is the step system of FanOut.
- **Windows and the aggregation cycle** (`Redis`, `Cache`, `Expiry`, `Cycle*`, `Readings`, `Aggregation`,
  `Strategies`). The cache is a map from (exchange, symbol) to a set of updates, compared by whole seconds as the
  source does. `Cycle` interleaves the single commands of repeated cycles with arrivals, expiries and the clock;
  `Aggregation.AggregationService.AggregateAndStore` is the imperative code of one cycle, proved to be a run of it.
- **Table and queries** (`Stats`, `Storage`, `UseCase`). A sequence of rows with its two writers, the three queries
  on it, and the fallback of the queries to the cache.
- **Mode switching** (`Generations`, `Starts`, `App`, `TcpExchange`). Each start is a generation with a context and exchanges;
  reconnecting goroutines of all generations go on while a switch holds the application lock. `App.App` is the
  imperative code over the application's mode, cancel function and exchanges, which are objects of
  `TcpExchange.TCPExchange`; each of its operations is proved to follow a run of the step system.

Prices are reals. Instants and durations are integers in nanoseconds, as in Go. Which commands fail is a parameter of
each method, so contracts hold for every pattern of failures; in the step systems failures are steps.

## Findings

Where the code falls short of what one would expect, the model keeps the code and states exactly when it is right.

- With more than one worker the latest entry can end up older than the last update of its only source, because
  SetLatestPrice overwrites unconditionally (`PipelineRace.SequentialExactlyWithOneWorker`).
- AddPriceToWindow sets the key's time to live by a second command, whose failure it ignores (redis.go:134-138). If the
  key still carries an older deadline, fresh entries can disappear with it; `Expiry.MissedExactly` says when. No command
  need fail for that: the key may expire between the two (`Expiry.LateDeadlineIsNoticed`).
- DeleteOldPrices visits every window, the aggregation only those of configured pairs and exchanges, so other updates
  are deleted unread (`CycleLosses.SavedExactlyIfConfigured`, `CycleLosses.UnconfiguredIsLost`).
- A cycle whose reads fail deletes all the same once its batch is empty or saved, and a slow cycle deletes what arrived
  after its reads. `CycleLosses.SafeExactly` says exactly when no update of a window can be lost.
- The average query treats a non-positive table average as missing, the other two do not, so they may contradict each
  other (`UseCase.AgreeExactly`). The check constraints of init.sql exclude such rows, InitSchema's table does not.
- A mode switch leaves a pipeline if and only if the test mode or a reachable exchange was asked for; otherwise the new
  mode is set without one (`App.App.SwitchMode`, `Starts.SwitchCanFail`), and asking for it again does nothing
  (`Generations.FailedStartIsSticky`).
- The retention is the ticker's interval, so deletions are a retention apart only up to jitter. That does not guarantee
  that an update counts in two batches at most: two is the limit if and only if deletions are at least a retention
  apart, three if and only if they are at least half of one apart (`CycleLimits.NeverMoreExactly`).
- The exchange and timestamp that accompany a cache extreme are zero values when the first price is the extreme
  (`UseCase.PriceUseCase.ComputeHighestFromCache`).

## Model

| member | source | states |
|---|---|---|
| PipelineSafety.CloseSafety | marketflow/internal/concurrency/worker/pool.go:38-74 | In every reachable state, cancelled or not, no enabled step sends on a closed channel, closes one twice or drives a WaitGroup below zero, and each channel is closed only after every goroutine sending on it has finished |
| PipelineSafety.SendsAndCloses | marketflow/internal/concurrency/worker/pool.go:38-95 | Every step that may happen in a reachable state finds the channel it sends on or closes open, and the WaitGroup it counts down above zero |
| PipelineSafety.Conservation | marketflow/internal/concurrency/worker/pool.go:47-95 | What the sources gave up equals, as a multiset, what workers received plus the dispatcher's one update plus what forwarders hold; at most one update per source plus one is in between, at most one per worker is received and not emitted, and nothing is dropped without cancellation |
| PipelineSafety.SourceOrder | marketflow/internal/concurrency/fanin/fanin.go:16-22 | The part of the merged stream that came from one source is a prefix of that source, and the workers receive a prefix of the merged stream |
| PipelineSafety.ExactlyOnce | marketflow/internal/concurrency/worker/pool.go:81-134 | Every received update is in exactly one of: added to a window, written as one fallback row, lost, or still in a worker's hands; the windows and the rows are exactly those the settled updates make |
| PipelineSafety.NeverPanics | marketflow/internal/concurrency/fanin/fanin.go:13-28 | The WaitGroup invariant excludes every step on which Go would panic |
| PipelineSafety.InvStep | marketflow/internal/concurrency/worker/pool.go:38-134 | Every step of every actor keeps closing, conservation, order and accounting together |
| PipelineProgress.Termination | marketflow/internal/concurrency/worker/pool.go:47-95 | Every run, whatever fails and whenever it is cancelled, has at most 7 steps per update plus 3 per source plus 2 per worker plus 6 |
| PipelineProgress.DeadlockFreedom | marketflow/cmd/marketflow/main.go:328-338 | Without cancellation, a reachable state in which nothing can move is exactly a state in which every goroutine has returned and every channel is closed |
| PipelineProgress.StuckExactly | marketflow/internal/concurrency/worker/pool.go:47-95 | Cancelled or not, a reachable state in which nothing can move is exactly one in which pool, consumer and dispatcher have returned, all sources are closed, and each forwarder has returned or holds an update nobody takes; `workCh` and `processed` are closed then, and without cancellation no forwarder is left behind |
| PipelineProgress.DispatcherLeaves | marketflow/internal/concurrency/worker/pool.go:47-56 | A dispatcher that offers an update when the context is cancelled can drop it and close `workCh` by two steps of its own |
| PipelineProgress.DispatcherChooses | marketflow/internal/concurrency/worker/pool.go:50-54 | Cancellation can come at any time, and exactly then allows the dispatcher to leave; it may still hand its update to any idle worker |
| PipelineProgress.SourcesChoose | marketflow/internal/concurrency/fanin/fanin.go:17-22 | An open source may send whenever its forwarder waits and it has something left, and close when it has nothing left or the context is cancelled |
| PipelineProgress.WorkersChoose | marketflow/internal/concurrency/worker/pool.go:77-94 | Exactly which moves each worker has: both branches of its `select` when both are ready, and success or failure of every call |
| PipelineProgress.PoolFinishesAlone | marketflow/internal/concurrency/worker/pool.go:58-95 | After cancellation the workers, the closer and the consumer reach their ends by steps of their own, with forwarders and dispatcher left wherever they are |
| PipelineProgress.Shutdown | marketflow/internal/concurrency/worker/pool.go:58-95 | After cancellation no worker is ever blocked, the pool's own steps run out exactly when all workers are gone and `processed` is closed and drained, and at most one result per worker is processed but not emitted |
| PipelineResults.CompleteRun | marketflow/internal/concurrency/fanin/fanin.go:11-31 | A complete uncancelled run has read all input, and both the merged stream and the emitted stream are permutations of it |
| PipelineResults.LossNeedsBothFailures | marketflow/internal/concurrency/worker/pool.go:98-134 | For each update in every run: it is lost exactly as often as its own write to the table failed, and written, lost or on the way to the table exactly as often as one of its own cache calls failed |
| PipelineResults.ReachableTable | marketflow/internal/concurrency/worker/pool.go:119-134 | In every reachable state the rows are the aggregates of the single updates that fell back, in the order of the writes, and each has minimum, average and maximum in order |
| PipelineResults.Confluence | marketflow/internal/concurrency/worker/pool.go:38-117 | For every interleaving and worker count, a complete run without cancellation or cache errors leaves exactly the windows of a plain loop over the inputs, and no rows |
| PipelineResults.LatestWithOneWorker | marketflow/internal/concurrency/worker/pool.go:76-113 | With one worker, the final latest entry of a key that only one source sends is the one sequential processing of that source leaves |
| PipelineRace.LatestCanBeStale | marketflow/internal/adapter/cache/redis.go:41-52 | With two or more workers, any two updates of one key from one source have a complete run without failures that leaves the first as the latest entry |
| PipelineRace.SequentialExactlyWithOneWorker | marketflow/internal/concurrency/worker/pool.go:60-65 | The latest entries follow their sources in all clean runs if and only if the pool has one worker |
| Worker.Pool.constructor | marketflow/internal/concurrency/worker/pool.go:23-33 | The pool keeps its adapters and the corrected number of workers |
| Worker.Pool.FallbackWrite | marketflow/internal/concurrency/worker/pool.go:120-134 | One row with average, minimum and maximum equal to the price, the aggregate of the one update, or nothing when the write fails |
| Worker.Pool.ProcessOne | marketflow/internal/concurrency/worker/pool.go:98-117 | For each pattern of failing calls: the outcome, the new cache, the new table and what stands behind it; and the call is a sequence of worker moves of the step system with the same effect |
| FanOut.Distribute | marketflow/internal/concurrency/fanout/fanout.go:8-31 | The distribution loop sends what dealing the input in turn defines, with non-positive widths read as one |
| FanOutSteps.DealtInEveryRun | marketflow/internal/concurrency/fanout/fanout.go:18-31 | With unbuffered channels, in every run: no send on a closed channel and no second close, the readers have exactly the dealing of what was taken except the item in hand, and channels are closed only after all input was distributed, in the end all of them |
| FanOutSteps.StuckExactly | marketflow/internal/concurrency/fanout/fanout.go:25-28 | The goroutine can go no further if and only if it has returned or the reader whose turn it is has stopped reading |
| FanOut.DealtByIndex | marketflow/internal/concurrency/fanout/fanout.go:24-28 | Channel j carries exactly the items whose index is j modulo n, in order |
| FanOut.RoundRobin | marketflow/internal/concurrency/fanout/fanout.go:24-28 | Item i is at position i / n of channel i % n, so reading the channels in turn gives the input back |
| FanOut.Even | marketflow/internal/concurrency/fanout/fanout.go:24-28 | The lengths of two channels differ by at most one |
| FanOut.DealKeepsAll | marketflow/internal/concurrency/fanout/fanout.go:8-31 | Dealing neither loses nor repeats an item |
| FanOut.FanOutThenFanIn | marketflow/internal/concurrency/fanin/fanin.go:11-31 | FanOut followed by FanIn yields a permutation of the input in every complete uncancelled run, and keeps each channel's order |
| Redis.AddAllContents | marketflow/internal/adapter/cache/redis.go:122-140 | After a loop of additions a window holds exactly the updates of its key |
| Redis.AddAllOrderFree | marketflow/internal/adapter/cache/redis.go:122-140 | The windows do not depend on the order of the additions nor on repetitions |
| Redis.PurgeKeysMembers | marketflow/internal/adapter/cache/redis.go:190-204 | Purging keys removes exactly the entries of those keys up to the given second |
| Cache.RedisAdapter.SetLatestPrice | marketflow/internal/adapter/cache/redis.go:41-52 | The entry is replaced whatever its timestamp, with a time to live of its own; a failed call changes nothing |
| Cache.RedisAdapter.AddPriceToWindow | marketflow/internal/adapter/cache/redis.go:122-140 | The update joins the set under the key of its own fields and the second command renews the key's deadline, or is ignored when it fails: the two events of the expiry model |
| Cache.RedisAdapter.GetLatestPrice | marketflow/internal/adapter/cache/redis.go:54-75 | The entry under the key; a missing entry is no error |
| Cache.RedisAdapter.GetLatestPriceAny | marketflow/internal/adapter/cache/redis.go:78-120 | For any pages, order and repetition of keys: an entry of the symbol that can be read, such that no such entry is newer, and none exactly when there are none; an error exactly when a page cannot be fetched |
| Cache.RedisAdapter.GetPricesInWindow | marketflow/internal/adapter/cache/redis.go:142-188 | Key by key and by second, exactly the members from the second of now - ttl to the second of now |
| Cache.RedisAdapter.DeleteOldPrices | marketflow/internal/adapter/cache/redis.go:190-211 | Every scanned key before a failing one, and with no failure every window, is left with no entry up to the second of `before`; exactly those keys are purged, and a key that is emptied loses its deadline |
| Expiry.InvisibleExactly | marketflow/internal/adapter/cache/redis.go:129-172 | Readers cannot tell at any point of a run that keys expire if and only if every drop of a key finds only members older than ttl in whole seconds |
| Expiry.ExpiryIsInvisible | marketflow/internal/adapter/cache/redis.go:129-172 | If no key is dropped between an addition and the next renewal of its deadline, expiry is invisible at every point of the run |
| Expiry.WaitsForExpire | marketflow/internal/adapter/cache/redis.go:134-138 | An addition waits for the next renewal of its key's deadline and for nothing else, so an addition with its renewal leaves a run refreshed |
| Expiry.MissedExactly | marketflow/internal/adapter/cache/redis.go:134-139 | At any point of a run an update can be missed through the expiry of its key if and only if the key has a deadline at which, or now if that is later, a read would still return it |
| Expiry.LateDeadlineIsNoticed | marketflow/internal/adapter/cache/redis.go:134-139 | Without any failing command: a key that expires between the two commands of an addition takes the new update with it, and reads miss it |
| Cycle.AnythingMayHappen | marketflow/internal/application/service/aggregation_service.go:148-252 | In every state of a cycle time may pass, updates may arrive and keys may expire without disturbing what has been read, and every command may fail |
| Cycle.DeletionClocks | marketflow/internal/application/service/aggregation_service.go:224-249 | A deletion after an empty batch is not one after a save, and an incomplete one not a complete one |
| CycleSafety.TargetsCover | marketflow/internal/application/service/aggregation_service.go:165-193 | The reads of a cycle cover exactly the configured windows |
| CycleSafety.NothingDeletedUnread | marketflow/internal/application/service/aggregation_service.go:148-252 | If DeleteOldPrices removes an update that arrived in time, it stands behind a saved batch, provided that in the cycle that finds it stale some read of its window does not fail, the deletion begins soon enough after the first read, and soon enough after the last complete deletion; whatever else arrives, and whatever fails in that cycle otherwise or in any other cycle |
| CycleLosses.SavedExactlyIfConfigured | marketflow/internal/application/service/aggregation_service.go:165-252 | When the reads of the cycle that finds it stale succeed, a removed update that arrived in time was saved if and only if its pair and exchange are configured |
| CycleLosses.LostWithoutSureRead | marketflow/internal/application/service/aggregation_service.go:169-233 | Without a read of its window that cannot fail, any update can be deleted unsaved in a run that is timely in every other respect |
| CycleLosses.LostAfterRead | marketflow/internal/application/service/aggregation_service.go:169-249 | If a deletion may begin too long after its cycle's first read, an update that arrives after that read is deleted unsaved |
| CycleLosses.LostBetweenDeletions | marketflow/internal/adapter/cache/redis.go:143-172 | If complete deletions may be too far apart, an update that one of them leaves is out of sight for the reads before the next, which deletes it unsaved |
| CycleLosses.NeverLostExactly | marketflow/internal/application/service/aggregation_service.go:165-252 | Within those limits an update is safe in all timely runs if and only if a cycle plans a read of its window that cannot fail |
| CycleLosses.SafeExactly | marketflow/internal/application/service/aggregation_service.go:148-252 | All updates of a window are safe in all timely runs if and only if some planned read of it cannot fail, lag plus the shorter of read-to-delete span and deletion gap plus one second are at most the retention, and the gap is at most ttl minus retention plus one second: exact to the nanosecond |
| CycleCounting.BoundedUses | marketflow/internal/application/service/aggregation_service.go:235-249 | If an update is not added twice, deletions reach its window and those after a save are at least d apart, it counts in at most N saved batches whenever (N - 1) * d is at least the retention, whatever saves and reads fail |
| CycleCounting.AtMostTwice | marketflow/internal/application/service/aggregation_service.go:235-249 | With d the retention: at most two saved batches |
| CycleLimits.NeverMoreExactly | marketflow/internal/application/service/aggregation_service.go:78-79 | For every configured update, every distance d and every N of at least 2: no run with deletions d apart uses the update more than N times if and only if (N - 1) * d is at least the retention, provided that ttl is at least twice the retention |
| CycleLimits.TwiceIsReached | marketflow/internal/application/service/aggregation_service.go:235-249 | Every configured update has a run without failures that uses it twice, for every positive retention and every distance of deletions up to ttl |
| CycleLimits.CloserDeletionsCountMore | marketflow/internal/application/service/aggregation_service.go:235-249 | Every configured update has a run without failures that uses it three times, for every distance of deletions below the retention |
| CycleLosses.OnlyConfiguredIsSaved | marketflow/internal/application/service/aggregation_service.go:165-222 | No batch of any run holds an update outside the configured pairs and exchanges |
| CycleLosses.UnconfiguredIsLost | marketflow/internal/application/service/aggregation_service.go:224-233 | For every configuration with pairs and every unconfigured update, some run in which every read succeeds removes it without ever saving it |
| CycleLosses.FailedReadsLose | marketflow/internal/application/service/aggregation_service.go:169-233 | For every configuration with pairs and any update, a run whose reads fail removes it without ever saving anything |
| CycleRuns.CycleRun | marketflow/internal/application/service/aggregation_service.go:148-252 | Planned reads at increasing clocks, a save that may fail and a purge of any keys make a run of the cycle's step system, without arrivals and expiries, that ends idle with the same windows and saved batches |
| Readings.NothingReadIsDropped | marketflow/internal/application/service/aggregation_service.go:166-222 | The updates behind the groups of a cycle are exactly those its successful reads returned, so the batch is empty exactly when they returned nothing |
| Aggregation.GroupByExchange | marketflow/internal/application/service/aggregation_service.go:203-207 | The map holds, for exactly the exchanges that occur, their prices in the order read |
| Aggregation.AggregationService.AppendGrouped | marketflow/internal/application/service/aggregation_service.go:209-220 | One row for each exchange of a read, with the statistics of its prices and a timestamp taken after the read |
| Aggregation.AggregationService.ReadTarget | marketflow/internal/application/service/aggregation_service.go:168-188 | A failed or empty read contributes nothing, any other the rows of its groups |
| Aggregation.AggregationService.ReadPairs | marketflow/internal/application/service/aggregation_service.go:168-189 | The reads follow the order of the pairs, their faults and the clock |
| Aggregation.AggregationService.ReadAll | marketflow/internal/application/service/aggregation_service.go:163-222 | All reads of the cycle in the order of the loops, and the rows of all their groups |
| Aggregation.AggregationService.StoreAndDelete | marketflow/internal/application/service/aggregation_service.go:224-251 | A failed save leaves table and cache alone; otherwise the batch is stored, then the keys up to a failing one are purged to the clock minus the retention, and an error of the deletion is ignored |
| Aggregation.AggregationService.AggregateAndStore | marketflow/internal/application/service/aggregation_service.go:148-252 | For each pattern of faults: when it is an error, the new table and what stands behind it, what was read and when, and exactly what is left in the windows; and the call is an undisturbed run of the cycle's step system whose recorded batch stands behind the rows |
| Strategies.GroupStats | marketflow/internal/application/service/aggregation_service.go:190-221 | In a read of all exchanges the group of an exchange has the statistics of an explicit read of it, even if the scan names keys repeatedly |
| Strategies.StrategiesAgree | marketflow/internal/application/service/aggregation_service.go:166-221 | Explicit reads of all exchanges present and grouping an all-exchange read at the same instant give the same rows up to order and timestamps |
| Strategies.SameRows | marketflow/internal/application/service/aggregation_service.go:178-218 | What agreement means: rows equal but for their timestamps |
| Stats.ComputeStats | marketflow/internal/application/service/aggregation_service.go:254-272 | Minimum and maximum of the prices, an average whose multiple by their number is their sum, and three zeros for none |
| Stats.MeanIsAverage | marketflow/internal/application/service/aggregation_service.go:270 | The mean times the number of prices is their sum |
| Stats.TotalAdds | marketflow/internal/application/service/aggregation_service.go:268 | The sum starts at zero and grows by each price |
| Stats.Extremes | marketflow/internal/application/service/aggregation_service.go:254-272 | Minimum and maximum bound all prices and occur among them |
| Stats.MeanBetween | marketflow/init.sql:22 | The average lies between the minimum and the maximum |
| Stats.CopiesKeepStats | marketflow/internal/adapter/cache/redis.go:149-185 | Reading the same entries several times over, in any order, changes none of the three statistics |
| Storage.FallbackIsGroupOfOne | marketflow/internal/concurrency/worker/pool.go:120-128 | A fallback row is the aggregate of its one update |
| Storage.RowSumsUp | marketflow/internal/application/service/aggregation_service.go:178-186 | A row names its pair, exchange and time and carries the average and the extremes of the prices behind it |
| Storage.PostgresAdapter.SaveAggregatedPrices | marketflow/internal/adapter/storage/postgres.go:59-89 | All rows are appended or none, and a table of aggregates stays one if the rows are; an empty batch always succeeds |
| Storage.PostgresAdapter.GetHighestPrice | marketflow/internal/adapter/storage/postgres.go:91-119 | A row of the table for the pair, at the exchange if one is given, and no older than the period, such that no such row has a greater maximum; none exactly when there is no such row |
| Storage.PostgresAdapter.GetLowestPrice | marketflow/internal/adapter/storage/postgres.go:121-149 | The same with no lesser minimum |
| Storage.PostgresAdapter.GetAveragePrice | marketflow/internal/adapter/storage/postgres.go:151-173 | One pass over the table whose result times the number of matching rows is the sum of their averages; zero for none or after an error |
| Storage.AverageGrows | marketflow/internal/adapter/storage/postgres.go:156-159 | One more matching row changes the average as it changes a mean, so all rows weigh the same |
| Storage.MatchingOccurrences | marketflow/internal/adapter/storage/postgres.go:96-106 | Each row of the pair, at the exchange if one is given, from the given time on is found as often as it is in the table, and no other row |
| Storage.TableInvariant | marketflow/init.sql:18-22 | On every table that the two writers keep, each row has minimum, average and maximum in order, all positive when the raw prices behind the table are |
| Storage.AnswersInOrder | marketflow/internal/adapter/storage/postgres.go:91-173 | The lowest answer, the average and the highest answer are in order |
| Storage.HierarchicalAggregation | marketflow/internal/adapter/storage/postgres.go:91-173 | The highest and lowest answers are the maximum and minimum of all raw prices behind the matching rows, and the average of averages lies between them |
| UseCase.SeenIs | marketflow/internal/application/usecase/price_usecase.go:143-162 | What a query sees in the cache, entry by entry: the pair's entries at the exchange if one is given, within the cache's window by seconds and, for periods below a minute, newer than the period to the nanosecond |
| UseCase.ListsShown | marketflow/internal/adapter/cache/redis.go:142-188 | A successful read lists what the cache shows, the entries of one key equally often, and exactly once when an exchange is given |
| UseCase.PriceUseCase.GetPricesFromCache | marketflow/internal/application/usecase/price_usecase.go:143-162 | Lists what the query can see, short periods cut to the nanosecond at a second clock reading |
| UseCase.PriceUseCase.ComputeHighestFromCache | marketflow/internal/application/usecase/price_usecase.go:79-104 | Extremes and mean of what the query can see; exchange and timestamp are those of the first holder of the maximum, and zero values if that is the first price |
| UseCase.FirstHolder | marketflow/internal/application/usecase/price_usecase.go:85-99 | The exchange and timestamp reported with a maximum are those of its first holder, and zero values if that is the first price |
| UseCase.PriceUseCase.ComputeLowestFromCache | marketflow/internal/application/usecase/price_usecase.go:106-131 | The same for the minimum |
| UseCase.PriceUseCase.ComputeAverageFromCache | marketflow/internal/application/usecase/price_usecase.go:133-141 | The mean of what the query can see, zero for nothing or after a cache error |
| UseCase.PriceUseCase.FoundIs | marketflow/internal/application/usecase/price_usecase.go:52-77 | What a query can find in the table, row by row |
| UseCase.PriceUseCase.GetHighestPrice | marketflow/internal/application/usecase/price_usecase.go:52-59 | A highest row of the table if one matches, else the aggregate of what the cache shows, for each pattern of failing calls |
| UseCase.PriceUseCase.GetLowestPrice | marketflow/internal/application/usecase/price_usecase.go:61-68 | The same for the lowest |
| UseCase.PriceUseCase.GetAveragePrice | marketflow/internal/application/usecase/price_usecase.go:70-77 | The table's average if it is positive, else the mean of what the cache shows |
| UseCase.PriceUseCase.GetLatestPrice | marketflow/internal/application/usecase/price_usecase.go:23-50 | The cache's entry; without one, or after a cache error, a non-zero table average over rows of the last sixty seconds as a price at the current time; an error exactly when the cache has no answer and the table fails |
| UseCase.AgreeExactly | marketflow/internal/application/usecase/price_usecase.go:52-77 | Lowest, average and highest exist together and in order whatever windows the cache holds, if and only if no row matches or the matching rows' average is positive |
| UseCase.PositivePricesAgree | marketflow/internal/application/usecase/price_usecase.go:52-77 | With positive raw prices behind it, any table the writers make lets the three queries agree |
| Generations.InvStep | marketflow/cmd/marketflow/main.go:177-341 | Every step of the switch and of reconnecting goroutines keeps the generations apart |
| Generations.GenerationSafety | marketflow/cmd/marketflow/main.go:222-255 | Whenever the lock is free, a running uncancelled pipeline is the newest generation's, its kind is the current mode's, and every exchange with a connection is one the next switch will close |
| Generations.OldExchangesStayClosed | marketflow/cmd/marketflow/main.go:177-255 | An exchange of an earlier generation has no connection and never gets one again, whatever reconnects and switches follow |
| Generations.FailedStartIsSticky | marketflow/cmd/marketflow/main.go:226-254 | After a start that connected nothing, asking for the same mode never starts a pipeline |
| Starts.SwitchCanFail | marketflow/cmd/marketflow/main.go:222-255 | With exchanges configured, the application can start, switch to the test mode and back, and be left in the live mode without a pipeline |
| Starts.SwitchRun | marketflow/cmd/marketflow/main.go:222-255 | From every quiet state some run makes the switch with exactly the given exchanges reachable, and leaves a pipeline if and only if the target is the test mode or one of them is |
| App.App.FinishReconnect | marketflow/cmd/marketflow/main.go:187-191 | A reconnecting dial that ends is that one step of the system, successful exactly if the exchange is reachable and the context was not cancelled when the dial began |
| App.App.CloseAll | marketflow/cmd/marketflow/main.go:237-240 | Every exchange in use is closed, each once its mutex is free, while reconnects go on |
| App.App.ConnectAll | marketflow/cmd/marketflow/main.go:305-321 | Every source of the new generation is dialled in turn while reconnects go on, and exactly the reachable ones are connected and watched |
| App.App.StartDataProcessing | marketflow/cmd/marketflow/main.go:286-341 | A start is an error exactly when no exchange of a live start is reachable; then no source is in use and no pipeline runs, otherwise one of the current mode does, its sources connected exactly as far as reachable and each connected one read under the new context |
| App.App.SwitchMode | marketflow/cmd/marketflow/main.go:222-255 | Over the application's own fields, with reconnects interfering anywhere: the fields follow a run of the step system, the old context is cancelled, no source of an earlier generation has a connection, asking for the current mode changes nothing, and there is a pipeline afterwards if and only if the target was already set and there was one, or the start reaches a source, whose connected exchanges are read under the new context |
| TcpExchange.TCPExchange.Dial | marketflow/internal/adapter/exchange/tcp_exchange.go:42-53 | The mutex is held from here on, and a dial under a cancelled context is known to fail |
| TcpExchange.TCPExchange.Dialed | marketflow/internal/adapter/exchange/tcp_exchange.go:53-66 | A failed dial changes nothing; a successful one leaves its connection as the only open one of all ever made |
| TcpExchange.TCPExchange.Connect | marketflow/internal/adapter/exchange/tcp_exchange.go:42-66 | The two halves of the dial without interruption |
| TcpExchange.TCPExchange.ReadPrices | marketflow/internal/adapter/exchange/tcp_exchange.go:78-99 | Reads the current connection under a context derived from the given one; without a connection that context is cancelled and nothing is read |
| TcpExchange.TCPExchange.EndReader | marketflow/internal/adapter/exchange/tcp_exchange.go:103-111 | A reader that ends closes its own connection and cancels the latest reader |
| TcpExchange.TCPExchange.Close | marketflow/internal/adapter/exchange/tcp_exchange.go:207-229 | Every connection ever made is closed and the latest reader cancelled, whether or not closing the socket is an error |

## Left out

- CycleSafety.NothingDeletedUnread: speaks of updates whose timestamp is not in the future when they arrive; the parsers of exchange lines accept others.
- CycleCounting.AtMostTwice: assumes that the update is not re-added after its removal, which would make it a new entry.
- Aggregation.AggregationService.AggregateAndStore: runs against windows that nobody changes meanwhile; the interleaving with arrivals, expiry and the clock is in the cycle's step system, which the call is proved to be a run of.
- Worker.Pool.ProcessOne: runs without other workers in between; the interleaving is in the pipeline's step system.
- Cache.RedisAdapter.GetPricesInWindow: leaves open in which order members of one second come, where Redis compares their text, and scans a fixed set of keys; a scan during concurrent changes is modelled in the cycle's step system by the keys it must list.
- FanOut.Distribute: records what each channel is sent; blocking and the closing of channels are in the step system of `FanOutSteps`.
- Pipeline.Exec: sources are arbitrary finite sequences; a source may close early only after cancellation, and the test generator's random prices, ticker and shutdown are not modelled.
- App.App.SwitchMode: takes from its caller which dials succeed; the sockets, the readers' loops and the goroutines of the pipeline are not part of it, and a failed dial is one that the caller's choice or a cancelled context makes fail.
- Generations.GenerationSafety: starts when the application has made its first context; `shutdown`, which reads the application's fields without the lock, is not modelled, nor is whether a reconnect ever succeeds or how long it backs off.
- Storage.TableInvariant: is about exact reals; with floating point `sum / n` may round outside the bounds.
- Float rounding, NaN and infinities; JSON, Redis, Postgres and TCP internals; the identity of JSON members is equality of updates.
- Key names are assumed to contain neither `:` nor glob characters, so that keys are pairs.
- Cache.RedisAdapter.SetLatestPrice: records the entry's time to live, but the expiry of latest entries is not followed over runs; a missing entry is one of the states the readers are proved for.
- The parsers of exchange lines, their wall-clock defaults and the truncation of log lines.
- Start, Stop, the ticker and the setters of the aggregation service; a cycle may start at any time, with a fixed configuration. The mode service is the `mode` of `Generations.State`.
- HTTP handlers, server, configuration, logging, signals and the entry point.
- Parameter limits and schema differences of Postgres, and the order of rows within equal keys.
