# Verification of the streaming runtime

This project models the runtime of a Solana event-streaming SDK and proves what its protocols promise: the consumer's
receive/parse/deduplicate/filter/commit loop, the client loop that routes events, the bounded batch pipeline with its
backpressure signal, the two circuit breakers, the LRU deduplicator, the retry loop and the histogram statistics.

`dafny verify dfyconfig.toml` checks all of it.

## How it is built

* Components that update their fields in place are classes (`ResourceManager`, `EventCollector`, `Worker`,
  `CircuitBreaker`, `LruCache`, `MessageDeduplicator`, `StreamConsumer`, `BitqueryClient`, `RetryStrategy`,
  `MetricsRegistry`). Each method is proved equal to a function on values (`Check`, `Complete`, `Allow`, `Process`,
  `Next`, `Turn`, ...), and the theorems are about those functions over whole histories and runs.
* The concurrent parts are transition systems. `Pipeline` interleaves the consumer, the collector, any number of
  workers, `shutdown()` and dropping the processor, with every `ResourceManager` method indivisible. `Interleaved`
  repeats the resource protocol with every atomic load, add and subtract a step of its own, and `BreakerConcurrent` does
  the same for any number of concurrent `execute` and `reset` calls. Both are tied back: the steps of one method that
  nobody interrupts do what the method does on values.
* `EndToEnd` composes the consumer with the pipeline, so that what the processor is offered is stated in terms of the
  Kafka messages received.

| module | subject |
|---|---|
| `Events`, `Words`, `Sequences`, `Arithmetic` | events, machine words and instants, facts about sums, concatenations and products |
| `Resources` | in-flight accounting, the resource check, the backpressure signal |
| `Pipeline`, `PipelineInvariant`, `PipelineTheorems` | the batch pipeline, its inductive invariant, its guarantees |
| `Drain`, `Wedge` | draining after shutdown; exactly when backpressure gets stuck |
| `Interleaved`, `Contention` | the resource protocol between any two atomic operations; exactly when it gets stuck or underflows |
| `Collector`, `CollectorRefinement`, `BatchWorker` | the collector's loop with its clock, and without it the pipeline's collector; one worker's loop |
| `CircuitBreakerSdk`, `BreakerHistory`, `BreakerRuns` | the three-state breaker, one method after the other |
| `BreakerConcurrent`, `BreakerCalls`, `BreakerRaces` | the same breaker between any two accesses to its fields |
| `SimpleBreaker` | the two-state breaker against its log |
| `Deduplicator` | the LRU cache and the time-window deduplicator against their call history |
| `Messages`, `Consumer`, `ConsumerPipeline`, `Epochs`, `Redelivery` | parsing, the receive loop, the pipeline it refines, the seen-set's epochs, failed commits |
| `Client`, `EndToEnd` | routing, and the composition from message to processor |
| `Retry`, `Histogram` | the retry loop; percentiles |

## Modelling decisions

* Counters have the width the source gives them and wrap: `usize` and `u64` at 2^64, `u32` at 2^32, as in a release
  build. Metrics (`u64` counts of requests) are unbounded.
* A pipeline configuration has `batch_size`, `parallel_workers` and the queue size at least 1, as configuration
  validation enforces, and its whole pool at full batches fits the byte estimate:
  `parallel_workers * batch_size * 20480 < 2^64`. `batch_timeout` may be 0; the timer is then off
  (`src/batch_processor.rs:129`). In `Pipeline` the timer may fire at any time a batch is being collected, which
  includes every run of the real one; `Collector` has the real clock.
* The four points that `ResourceManager` derives by truncation are kept as integers; `Limits.Points` proves what the
  truncation guarantees about them.
* `process` returns success or failure and does not panic. Waiting in `send` or `recv` is a step that is not enabled.
* The client's and the consumer's backpressure gates read the same counter; in `Pipeline` one `Gate` step stands for
  both, and the consumer may be sent back to it from there any number of times.
* `BatchProcessor` keeps its own batch sender beside the collector's, so workers stay parked after `shutdown()` and exit
  only when the processor is dropped. The comment in `shutdown` says otherwise; the model follows the code.
* Kafka is a script of polls (a closed gate, a failed receive, a message whose commit succeeds or fails, another task's
  `set_filter`) and a log of commits. What decompression and decoding make of a payload is part of the message.
  Signatures are the strings the source obtains by hex encoding.
* Time is a natural number of ticks read by the caller and passed in. Durations in `Retry` and samples in `Histogram`
  are real numbers.
* `should_process` refreshes the stored time of a suppressed repeat, although its documentation mentions recording only
  for accepted messages; the window is therefore measured from the last call, and the theorems say so.
* The comment on the open-without-a-time branch of the simple breaker's `is_open` says it assumes open; the code answers
  closed. The model follows the code and proves the branch dead at method granularity.
* Every lemma turns Dafny's automatic induction off, so each inductive step is written out.

## What does not hold, and exactly when it does

* Backpressure can get stuck for good. With every `ResourceManager` method atomic this happens exactly when truncation
  makes a release point 0 (`Wedge.WedgesExactlyWhenUnreleasable`, `Wedge.WedgingLimits`). Between atomic operations it
  can happen exactly when a resource check can fail at all (`Contention.WedgesExactlyWhenTight`): every worker completes
  after the consumer's failing load and before its signal.
* Between atomic operations the signal counter can wrap below zero exactly when there are two workers, a check can fail,
  and both release points are positive (`Contention.UnderflowsExactlyWhenContended`, in terms of the limits
  `Contention.UnderflowLimits`): two completions see one signal and both lower it.
* A recovered service is let back in exactly when `success_threshold <= half_open_max_requests + 1`; otherwise the
  three-state breaker admits its quota and then rejects everything until `reset()` (`BreakerRuns.RecoveryExactlyWhen`,
  `BreakerRuns.QuotaThenNothing`, `BreakerRuns.StuckForever`). Configuration validation does not exclude this.
* Under concurrency a request can leave Open before `reset_timeout` has passed, in every configuration whose timeout is
  not 0 (`BreakerRaces.LeavesEarlyExactlyWhen`): opening writes the state before the time of the change, and a request in
  between measures from the previous change. Likewise no configuration keeps its half-open quota, nor any other bound:
  any number of requests that pass the timeout test before the first of them changes the state are all admitted to one
  episode (`BreakerRaces.OverAdmission`, `BreakerRaces.QuotaNeverHolds`). Both properties hold in every run in which the
  breaker's methods do not interleave, as under a lock around each of them, however the operations overlap
  (`BreakerRaces.OrderlyNeverEarly`, `BreakerRaces.OrderlyKeepsQuota`); calls that do not overlap make such a run
  (`BreakerRaces.SequentialIsOrderly`).
* The collector's wait bound `(batch_size - 1) * batch_timeout` holds exactly when the loop always reads its clock less
  than one timeout after the previous pass, or batches hold one event (`Collector.WaitBound`); a later reading leaves
  the timer off (`Collector.LateTimerStalls`).
* What the filter wants is delivered in full exactly when each of its commits succeeds
  (`ConsumerPipeline.LosslessExactlyWhen`). An event whose commit fails is not delivered, and a redelivery of its message
  is dropped exactly when the seen-set still holds its signature (`Redelivery.DroppedExactlyWhenRemembered`): unless it
  came by again, exactly when no epoch of the seen-set ended in between (`Redelivery.RememberedExactlyWhen`).
* The first retry sleep is not capped: every sleep respects `max_delay` exactly when the initial delay does or there are
  no retries (`Retry.CapExactlyWhen`).
* A simple breaker with threshold 0 behaves as with threshold 1 (`SimpleBreaker.SwitchMatchesLog`).

## Model

| member | source | states |
|---|---|---|
| `Resources.Limits.Points` | src/resource_manager.rs:84-119 | the memory trigger is the whole part of the budget; release points never exceed their triggers, and one is 0 exactly for a limit of one message, or for a memory budget below 1/0.7 bytes |
| `Resources.FailsExactlyWhen` | src/resource_manager.rs:74-95 | in terms of the limits: a check fails exactly at the message limit or when 20480 bytes a message reach the whole part of the budget; it adds one signal then and none otherwise |
| `Resources.LowersExactlyWhen` | src/resource_manager.rs:108-126 | in terms of the limits: a completion lowers a signal that is up exactly when the load left is a whole message below 70% of the message limit and its estimate a whole byte below 70% of the budget |
| `Resources.FailedCheckIsUnreleased` | src/resource_manager.rs:74-123 | hysteresis: a check fails only where the release condition is false, and then adds exactly one signal |
| `Resources.UnreleasedIsMonotone` | src/resource_manager.rs:112-121 | more load never turns a false release condition true while the byte estimate does not wrap |
| `Resources.NoWrap` | src/resource_manager.rs:99-109 | starting then adds and completing takes away exactly the batch size while the word range suffices |
| `Resources.ResourceManager.GetEstimatedCurrentMemory` | src/resource_manager.rs:133-142 | returns and stores the in-flight count times 20 KiB, modulo the word size |
| `Resources.ResourceManager.ActivateBackpressureSignal` | src/resource_manager.rs:146-153 | one signal more, and nothing else changes |
| `Resources.ResourceManager.DeactivateBackpressureSignal` | src/resource_manager.rs:157-164 | one signal less, wrapping at 0, and nothing else changes |
| `Resources.ResourceManager.IsBackpressureActive` | src/resource_manager.rs:167-169 | active exactly when the counter is above 0 |
| `Resources.ResourceManager.CheckResources` | src/resource_manager.rs:74-95 | answer and all three counters are those of the value-level check, which `FailsExactlyWhen` states in terms of the limits |
| `Resources.ResourceManager.StartProcessing` | src/resource_manager.rs:99-104 | the in-flight counter grows by the batch size, modulo the word size |
| `Resources.ResourceManager.CompleteProcessing` | src/resource_manager.rs:108-126 | all three counters are those of the value-level completion, which `LowersExactlyWhen` states in terms of the limits |
| `PipelineTheorems.ConservationAndOrder` | src/batch_processor.rs:79-141 | in every reachable state the accepted events are the dispatched batches in order, then the batch in hand, then the queue; the batch channel is a suffix of what was dispatched; no send to it can fail |
| `PipelineTheorems.OnePlace` | src/batch_processor.rs:145-253 | each dispatched batch is in exactly one place: queued, held intact by exactly one worker, or finished |
| `PipelineTheorems.InFlightAccounting` | src/batch_processor.rs:205-226 | the in-flight counter equals the sizes of the batches between start and complete, at most workers times batch size |
| `PipelineTheorems.UnfinishedBound` | src/batch_processor.rs:51-56 | accepted but unfinished events are at most queue size + batch size * (1 + max(2 workers, 10) + workers); every dispatched batch has 1 to batch-size events |
| `PipelineTheorems.BackpressureNeverWedges` | src/resource_manager.rs:74-126 | with both release points at least 1: at most one signal; an active one means load above a release point and a worker still to complete; a resting pool means none |
| `PipelineTheorems.SignalNeverUnderflows` | src/resource_manager.rs:108-126 | a completion takes exactly its batch off the counter, leaves no signal when below the release points, and otherwise leaves the signals alone |
| `PipelineTheorems.ChecksNeverFail` | src/resource_manager.rs:74-95 | when the full pool stays under both triggers no check fails in any run |
| `Pipeline.Config.BatchQueueCapacity` | src/batch_processor.rs:55 | the larger of twice the workers and 10 |
| `PipelineTheorems.WaitsExactlyWhenFull` | src/batch_processor.rs:51-56 | the collector waits to send exactly while the batch channel holds max(2 workers, 10) batches, and `add_event` exactly while the queue holds its size |
| `PipelineTheorems.FullWithoutTimer` | src/batch_processor.rs:129 | with a timeout of 0 every batch is full, but for the one that closing flushes |
| `PipelineTheorems.SingleWorkerOrder` | src/batch_processor.rs:194-223 | one worker offers a prefix of the accepted events, in order |
| `PipelineInvariant.StepInv` | src/batch_processor.rs:79-253 | every step of every task keeps the whole invariant |
| `PipelineInvariant.SendNeverFails` | src/batch_processor.rs:108-136 | the collector never finds all workers gone, so its failure branches are dead |
| `Drain.InternalStepDecreases` | src/batch_processor.rs:92-253 | every collector and worker step lowers the remaining work |
| `Drain.ExternalStepKeepsCost` | src/batch_processor.rs:166-181 | after shutdown no other step adds work or accepts an event |
| `Drain.DrainTerminates` | src/batch_processor.rs:260-273 | from any state after shutdown, under any interleaving, the number of collector and worker steps is bounded by the work left |
| `Drain.QuiescentIsDrained` | src/batch_processor.rs:194-273 | when no internal step is left after shutdown both channels are empty, workers rest, everything accepted was offered exactly once (in order for one worker), nothing is in flight and, release points permitting, no signal is left |
| `Drain.QuiescentIsFinished` | src/batch_processor.rs:194-253 | then every dispatched batch is finished, and after dropping every worker has exited |
| `Drain.CanDrain` | src/batch_processor.rs:260-273 | from any state after shutdown the pipeline reaches that end on its own steps |
| `Drain.DrainedIsQuiescent` | src/batch_processor.rs:260-273 | conversely a drained pipeline that was not dropped has no step left: its workers stay parked |
| `Wedge.WedgedForever` | src/consumer.rs:109-119 | once the signal is up with nothing left to complete, no later run accepts an event |
| `Wedge.ReleasableNeverWedges` | src/resource_manager.rs:114-125 | with both release points at least 1 no reachable state is stuck |
| `Wedge.UnreleasableWedges` | src/resource_manager.rs:114-125 | with a release point of 0, in every such configuration, a run ends stuck |
| `Wedge.WedgesExactlyWhenUnreleasable` | src/resource_manager.rs:74-126 | a stuck state is reachable if and only if a release point is 0 |
| `Wedge.WedgingLimits` | src/resource_manager.rs:84-119 | the same in terms of the configured limits |
| `Interleaved.ReachableAccounted` | src/resource_manager.rs:99-109 | between any two atomic operations the counter equals the load of the batches in work; with room for the full pool no check fails and no signal is raised |
| `Contention.WedgedForever` | src/consumer.rs:109-119 | a stuck state never changes again |
| `Contention.TightWedges` | src/resource_manager.rs:76-125 | every configuration without that room has an interleaving that gets stuck |
| `Contention.WedgesExactlyWhenTight` | src/resource_manager.rs:76-125 | between atomic operations a stuck state is reachable if and only if a check can fail |
| `Interleaved.CheckAlone` | src/resource_manager.rs:74-95 | the loads and the signal of one check in a row are the value-level check |
| `Interleaved.CompleteAlone` | src/resource_manager.rs:108-126 | the operations of one completion in a row are the value-level completion |
| `Contention.UnderflowWraps` | src/resource_manager.rs:157-158 | lowering a signal that is no longer there leaves the largest word |
| `Contention.ContendedUnderflows` | src/resource_manager.rs:108-123 | with two workers, a check that can fail and positive release points, some run gets there |
| `Contention.UncontendedNeverUnderflows` | src/resource_manager.rs:108-123 | without one of the three no run does |
| `Contention.UnderflowsExactlyWhenContended` | src/resource_manager.rs:121-123 | a worker about to lower a missing signal is reachable if and only if the configuration is contended in that sense |
| `Contention.UnderflowLimits` | src/resource_manager.rs:74-123 | the same in terms of the configured limits |
| `Collector.EventCollector.Send` | src/batch_processor.rs:108-134 | the current batch is sent whole, the next one starts empty, and time passes while the batch channel is full |
| `Collector.EventCollector.Run` | src/batch_processor.rs:85-139 | over any sequence of wake-ups and waits for room the batch, the timer and the dispatches are those of the timed loop |
| `Collector.ArrivalIsCollect` | src/batch_processor.rs:101-115 | forgetting the clock, an arrival does what the pipeline's collector does |
| `CollectorRefinement.OnePass` | src/batch_processor.rs:88-138 | each pass, by arrival, timeout or disconnection, is a run of the pipeline from any state its collector agrees with |
| `CollectorRefinement.ForgettingTheClock` | src/batch_processor.rs:85-139 | so is every run of the timed loop: same events received, same batches dispatched, same events left in hand |
| `Collector.WaitIsBounded` | src/batch_processor.rs:89-129 | while the clock is read in time, the timer is armed and the oldest event waits at most its batch's length times the timeout |
| `Collector.TurnsOnTime` | src/batch_processor.rs:88-138 | over any run with prompt passes every batch has 1 to batch-size events and leaves within the bound |
| `Collector.WaitBound` | src/batch_processor.rs:88-138 | no event ever waits longer than (batch size - 1) timeouts if and only if every lag is below the timeout or batches hold one event |
| `Collector.LateTimerStalls` | src/batch_processor.rs:129 | a lag of one timeout leaves the timer off, so the event may wait any time |
| `Collector.WaitBoundAttained` | src/batch_processor.rs:104-129 | some run waits exactly that long, because the timer restarts on each event |
| `BatchWorker.Worker.ProcessBatch` | src/batch_processor.rs:210-223 | every event of the batch is considered once, in order, under the in-flight load of the moment, and the two counts are those of the processor's answers |
| `BatchWorker.Worker.Serve` | src/batch_processor.rs:194-253 | the loop considers the concatenation of the batches, each between its start and its completion, and leaves the manager's counters as these prescribe |
| `BatchWorker.EveryWantedEventIsTallied` | src/batch_processor.rs:207-223 | successes plus failures grow by exactly the number of wanted events |
| `BatchWorker.CountsMatchAnswers` | src/batch_processor.rs:210-223 | the first count grows by the calls that succeeded, the second by those that failed |
| `BatchWorker.OwnBatchInFlight` | src/batch_processor.rs:205-226 | every event is offered while its own batch is in flight, on top of what other workers have |
| `BatchWorker.ServingRestoresInFlight` | src/batch_processor.rs:205-226 | serving any batches brings the in-flight counter back to where it was, even when it wraps in between |
| `CircuitBreakerSdk.BreakerConfig.Validate` | src/core/utils/circuit_breaker_sdk.rs:117-139 | accepts exactly the configurations whose four settings are positive, and otherwise names the first that is 0 |
| `CircuitBreakerSdk.CircuitBreaker.Create` | src/core/utils/circuit_breaker_sdk.rs:178-198 | a breaker, closed and with zero counters, exactly when validation finds no fault |
| `CircuitBreakerSdk.CircuitBreaker.TransitionToOpen` | src/core/utils/circuit_breaker_sdk.rs:359-377 | unless open: open, stamped, one more transition, counters untouched |
| `CircuitBreakerSdk.CircuitBreaker.TransitionToHalfOpen` | src/core/utils/circuit_breaker_sdk.rs:379-400 | only from open: half-open with fresh quota and success count |
| `CircuitBreakerSdk.CircuitBreaker.TransitionToClosed` | src/core/utils/circuit_breaker_sdk.rs:402-424 | unless closed: closed with all three counters cleared |
| `CircuitBreakerSdk.CircuitBreaker.AllowRequest` | src/core/utils/circuit_breaker_sdk.rs:211-239 | answer and new state are those of the value-level breaker |
| `CircuitBreakerSdk.CircuitBreaker.RecordSuccess` | src/core/utils/circuit_breaker_sdk.rs:242-273 | the new state is that of the value-level breaker |
| `CircuitBreakerSdk.CircuitBreaker.RecordFailure` | src/core/utils/circuit_breaker_sdk.rs:276-304 | the new state is that of the value-level breaker |
| `CircuitBreakerSdk.CircuitBreaker.ExecuteOperation` | src/core/utils/circuit_breaker_sdk.rs:307-326 | asks, records exactly one outcome if and only if it was admitted, and answers by it (`OutcomeMatchesMetrics`) |
| `CircuitBreakerSdk.CircuitBreaker.ResetBreaker` | src/core/utils/circuit_breaker_sdk.rs:334-345 | closed, counters cleared, stamped; metrics untouched |
| `BreakerHistory.CountersMatchHistory` | src/core/utils/circuit_breaker_sdk.rs:211-304 | after every history the wrapping breaker has the mode, counts and time that unbounded look-ups in the history give, and admits the same requests |
| `BreakerHistory.FailureRun` | src/core/utils/circuit_breaker_sdk.rs:242-304 | closed: the failure count is the failures since the last success or reset, and below the threshold |
| `BreakerHistory.EpisodeCount` | src/core/utils/circuit_breaker_sdk.rs:228-236 | within a half-open episode, admissions are one more than the slot counter, which never exceeds the quota |
| `BreakerHistory.EpisodeAdmissions` | src/core/utils/circuit_breaker_sdk.rs:217-236 | no half-open episode of any history admits more than the quota plus one |
| `BreakerHistory.MetricsMatchHistory` | src/core/utils/circuit_breaker_sdk.rs:211-304 | each metric is a count over the history; transitions are the mode changes no reset made |
| `BreakerHistory.LeavingOpen` | src/core/utils/circuit_breaker_sdk.rs:218-227 | a call leaves Open if and only if it resets, or asks at least the timeout after the last change |
| `BreakerHistory.OutcomeMatchesMetrics` | src/core/utils/circuit_breaker_sdk.rs:307-326 | the caller is told of an open circuit iff the rejections grew, of completion iff the operation succeeded and the successes grew, of failure iff it failed and the failures grew |
| `BreakerHistory.OutcomeMatchesHistory` | src/core/utils/circuit_breaker_sdk.rs:307-326 | after any history: rejected iff the history does not admit the request, otherwise answered as the operation ended |
| `BreakerRuns.PayAll` | src/core/utils/circuit_breaker_sdk.rs:210-304 | in a sequential run against a failing service each admission beyond the threshold is paid for with one timeout |
| `BreakerRuns.AdmissionBound` | src/core/utils/circuit_breaker_sdk.rs:210-326 | such a run admits by time t at most the threshold plus t divided by the timeout |
| `BreakerRuns.AdmissionBoundAttained` | src/core/utils/circuit_breaker_sdk.rs:210-326 | for every number of timeouts some run admits exactly that many |
| `BreakerRuns.RecoveryRun` | src/core/utils/circuit_breaker_sdk.rs:228-261 | mode, admissions and counters after any number of succeeding calls from an expired Open |
| `BreakerRuns.RecoveryExactlyWhen` | src/core/utils/circuit_breaker_sdk.rs:242-261 | the success threshold's call closes the breaker if and only if the threshold is at most the quota plus one, and no earlier call does |
| `BreakerRuns.QuotaThenNothing` | src/core/utils/circuit_breaker_sdk.rs:228-236 | otherwise any longer run admits exactly the quota plus one and ends stuck half-open |
| `BreakerRuns.StuckForever` | src/core/utils/circuit_breaker_sdk.rs:228-236 | a stuck breaker rejects every later sequential call and changes only its metrics |
| `BreakerConcurrent.RequestAccounting` | src/core/utils/circuit_breaker_sdk.rs:210-326 | at every instant of any interleaving: total = successful + failed + rejected + outstanding, and each mode change is counted or about to be |
| `BreakerConcurrent.AtRest` | src/core/utils/circuit_breaker_sdk.rs:329-331 | with no call in progress the metrics are exact |
| `BreakerConcurrent.TestIsRight` | src/core/utils/circuit_breaker_sdk.rs:354-357 | of the timeout test alone: passed with no time still to be written, it is passed at least the timeout after the breaker opened |
| `BreakerCalls.AccessShrinks` | src/core/utils/circuit_breaker_sdk.rs:210-424 | every access brings its call closer to its end, whatever other calls do |
| `BreakerCalls.SoloReachable` | src/core/utils/circuit_breaker_sdk.rs:210-424 | a call running alone is a run of the concurrent breaker |
| `BreakerCalls.SoloAsk` | src/core/utils/circuit_breaker_sdk.rs:211-239 | asking alone is the value-level `Allow`, and leads to the operation exactly when allowed |
| `BreakerCalls.ExecuteAlone` | src/core/utils/circuit_breaker_sdk.rs:307-326 | an uninterrupted `execute` is the value-level `Execute` |
| `BreakerCalls.ResetAlone` | src/core/utils/circuit_breaker_sdk.rs:334-345 | an uninterrupted `reset` is the value-level `Reset` |
| `BreakerRaces.EarlyAdmission` | src/core/utils/circuit_breaker_sdk.rs:359-366 | in every configuration with a positive timeout, a run in which a request leaves Open at the very time the breaker opened |
| `BreakerRaces.LeavesEarlyExactlyWhen` | src/core/utils/circuit_breaker_sdk.rs:354-377 | a request can leave Open early if and only if the timeout is not 0 |
| `BreakerRaces.OverAdmission` | src/core/utils/circuit_breaker_sdk.rs:218-222 | in every configuration and for every n, a run that admits n requests to one half-open episode |
| `BreakerRaces.QuotaNeverHolds` | src/core/utils/circuit_breaker_sdk.rs:218-236 | so no bound on the admissions of an episode holds in any configuration |
| `BreakerRaces.OrderlyNeverEarly` | src/core/utils/circuit_breaker_sdk.rs:217-227 | when methods do not interleave, only a step that itself interleaves could leave Open early |
| `BreakerRaces.OrderlyKeepsQuota` | src/core/utils/circuit_breaker_sdk.rs:217-236 | when methods do not interleave, however operations overlap, no episode admits more than the quota plus one |
| `BreakerRaces.SequentialIsOrderly` | src/core/utils/circuit_breaker_sdk.rs:307-326 | calls that begin when the previous one is over do not interleave |
| `SimpleBreaker.CircuitBreaker.RecordSuccess` | src/core/utils/circuit_breaker.rs:46-54 | closed, counter and time cleared |
| `SimpleBreaker.CircuitBreaker.RecordFailure` | src/core/utils/circuit_breaker.rs:60-84 | the new state is that of the value-level switch |
| `SimpleBreaker.CircuitBreaker.IsOpen` | src/core/utils/circuit_breaker.rs:91-120 | answer and new state are those of the value-level switch |
| `SimpleBreaker.SwitchMatchesLog` | src/core/utils/circuit_breaker.rs:46-120 | open if and only if the failure run since the last success or expiry reached the threshold, with the time of the most recent failure; closed, the counter is that run |
| `SimpleBreaker.AnswerMatchesLog` | src/core/utils/circuit_breaker.rs:91-120 | callers are told open if and only if the run reached the threshold and the most recent failure is younger than the timeout; the inconsistent branch is dead |
| `Deduplicator.LruCache.Find` | src/core/utils/deduplicator.rs:62 | the position of the key, or the length |
| `Deduplicator.LruCache.GetMut` | src/core/utils/deduplicator.rs:62 | a hit returns the stored time and becomes most recent; a miss changes nothing |
| `Deduplicator.LruCache.SetFront` | src/core/utils/deduplicator.rs:65 | rewrites the time of the most recent entry only |
| `Deduplicator.LruCache.Put` | src/core/utils/deduplicator.rs:72 | the key becomes most recent; a new key in a full cache drops exactly the least recent |
| `Deduplicator.Capacity` | src/core/utils/deduplicator.rs:29-30 | the given size, or 10000 for size 0 |
| `Deduplicator.MessageDeduplicator.constructor` | src/core/utils/deduplicator.rs:28-36 | an empty cache of the given size, or of 10000 for size 0 |
| `Deduplicator.MessageDeduplicator.ShouldProcess` | src/core/utils/deduplicator.rs:50-75 | answer and new cache are those of one step on recency lists |
| `Deduplicator.CacheMatchesHistory` | src/core/utils/deduplicator.rs:28-75 | after any history the cache is the capacity-many most recently passed distinct signatures in recency order, each with the time of its last call |
| `Deduplicator.RecentPosition` | src/core/utils/deduplicator.rs:50-75 | in front of a signature are exactly the others passed since its last call |
| `Deduplicator.RecentRank` | src/core/utils/deduplicator.rs:50-75 | its rank is the number of distinct signatures passed since |
| `Deduplicator.SuppressedBy` | src/core/utils/deduplicator.rs:62-69 | given a signature's last call: suppressed if and only if that call is younger than the window and fewer than capacity others were passed since |
| `Deduplicator.SuppressedExactlyWhen` | src/core/utils/deduplicator.rs:50-75 | suppressed if and only if such a last call exists in the history |
| `Deduplicator.LossBound` | src/core/utils/deduplicator.rs:50-75 | a repeat that gets through within the window of any earlier call means at least capacity distinct other signatures since |
| `Messages.FirstIndex` | src/consumer.rs:267-303 | the first qualifying transaction, or the length when there is none |
| `Messages.ParseContent` | src/consumer.rs:267-413 | fails exactly without header or qualifying transaction; otherwise the event is that of the first one, as the three topic lemmas spell out |
| `Messages.TransactionsTopic` | src/consumer.rs:267-303 | on the transactions topic: malformed iff there is no payload, block, header or successful transaction; otherwise a transaction event with the header's slot and the first successful transaction's signature |
| `Messages.TokensTopic` | src/consumer.rs:306-345 | the same on the tokens topic, for the first transaction with a transfer |
| `Messages.DexTopic` | src/consumer.rs:348-413 | the same on the DEX topic, for the first transaction with a trade |
| `Messages.UnhandledExactlyWhen` | src/consumer.rs:206-228 | passed over as unhandled iff there is a payload and the topic is none of the three |
| `Consumer.Capacity` | src/consumer.rs:241 | the larger of the buffer size and 100000 |
| `Consumer.StreamConsumer.SetFilter` | src/consumer.rs:73-77 | replaces the filter and nothing else |
| `Consumer.StreamConsumer.CommitKafkaOffset` | src/consumer.rs:164-170 | the commit log grows by this message |
| `Consumer.StreamConsumer.ParseMessage` | src/consumer.rs:174-230 | dispatches on the topic as the value-level parser does |
| `Consumer.StreamConsumer.InternalProcessKafkaMessage` | src/consumer.rs:174-262 | seen-set and result are those of parsing and deduplicating one message |
| `Consumer.StreamConsumer.NextEvent` | src/consumer.rs:106-161 | outcome, state and unread polls are those of the value-level loop, whose answers `NextAnswers` states; every received message is committed when the method returns |
| `ConsumerPipeline.NextIsFold` | src/consumer.rs:106-161 | where one call stops and the next begins makes no difference to what is delivered |
| `ConsumerPipeline.DriveIsFold` | src/consumer.rs:106-161 | repeated calls amount to handling the polls one by one |
| `ConsumerPipeline.DeliversExactlyWhen` | src/consumer.rs:128-145 | one poll delivers an event iff it is a committed message parsed to it, its signature is new, and the filter lets it through |
| `ConsumerPipeline.FilterIsLastSet` | src/consumer.rs:73-77 | the filter in force is the one last set |
| `ConsumerPipeline.NextAnswers` | src/consumer.rs:106-161 | a call stops at the first poll that throttles, fails or delivers, and answers by it: nothing now iff throttled, a receive error iff the receive failed, a commit error iff the commit failed, an event iff it is new and wanted and committed |
| `ConsumerPipeline.WaitsExactlyWhen` | src/consumer.rs:106-161 | it goes on waiting iff no poll stops it |
| `ConsumerPipeline.FoldIsPipeline` | src/consumer.rs:106-262 | handling polls one by one delivers the staged pipeline's output and leaves its seen-set and receive log |
| `ConsumerPipeline.ConsumerRefinesPipeline` | src/consumer.rs:106-262 | repeated `next_event` calls deliver exactly commit(filter(deduplicate(parse(messages)))) in order, for every stream, throttling, failure and filter change |
| `ConsumerPipeline.EveryMessageCommittedOnce` | src/consumer.rs:128-158 | the commit log gains exactly one entry for each received message, in order of receipt and with its result; all succeed when no commit of the stream fails |
| `ConsumerPipeline.LosslessExactlyWhen` | src/consumer.rs:128-145 | repeated `next_event` calls deliver every new event the filter wants if and only if each of them is committed successfully |
| `Epochs.CutIsGreedy` | src/consumer.rs:241-245 | an epoch ends exactly where one more item would exceed the capacity |
| `Epochs.EpochSizes` | src/consumer.rs:241-245 | the epochs partition the parsed stream and all but the last have exactly capacity distinct signatures |
| `Epochs.DedupIsEpochwise` | src/consumer.rs:232-252 | deduplication with clearing keeps exactly the first occurrences within each epoch, and its set is the last epoch's signatures |
| `Epochs.SeenBounded` | src/consumer.rs:241-245 | the seen-set never exceeds the capacity |
| `Epochs.FirstsAreDistinct` | src/consumer.rs:232-239 | no signature is kept twice within an epoch |
| `Epochs.DeliveredByEpoch` | src/consumer.rs:106-262 | what a fresh consumer delivers, in terms of epochs alone |
| `Redelivery.SeenSinceClear` | src/consumer.rs:232-252 | the seen-set is what it was and what has come by, or what has come by since the last clear |
| `Redelivery.NoClearExactlyWhen` | src/consumer.rs:241-245 | nothing is cleared if and only if all distinct signatures fit |
| `Redelivery.DroppedExactlyWhenRemembered` | src/consumer.rs:128-158 | after a failed commit and anything whatever, a redelivered message yields its event if and only if the seen-set no longer holds it and the filter wants it |
| `Redelivery.RememberedExactlyWhen` | src/consumer.rs:232-252 | unless its signature came by in between, it is forgotten if and only if the signatures since exceed the capacity, that is, an epoch ended |
| `Redelivery.GoodCommitDelivers` | src/consumer.rs:144-145 | with a good commit the new and wanted event is delivered at once |
| `Redelivery.FailedCommitLosesEvent` | src/consumer.rs:144-145 | an immediate redelivery after a failed commit is dropped |
| `Client.BitqueryClient.Route` | src/client.rs:183-199 | in batch mode the event goes to the processor and never to the handler; otherwise the reverse |
| `Client.BitqueryClient.ProcessEvents` | src/client.rs:161-214 | over any polls, what is routed, where it ends and the consumer's state are those of the value-level loop |
| `Client.RoutesThePipeline` | src/client.rs:172-213 | with no failing receive or commit the loop routes the whole pipeline output and goes on waiting |
| `Client.RoutedIsDrive` | src/client.rs:172-213 | then it routes what repeated `next_event` calls deliver |
| `Client.RoutedIsPrefix` | src/client.rs:207-210 | in any case what was routed is a prefix of the pipeline's output |
| `Client.EndsAtFirstFailure` | src/client.rs:172-213 | the loop ends exactly at the first failing receive or commit, with that error, having routed the whole pipeline output of the polls before it |
| `EndToEnd.AcceptedIsExpected` | src/client.rs:181-193 | at every instant, with nothing refused, accepted events and the one in transit are what the received messages amount to |
| `EndToEnd.OfferedIsExpected` | src/batch_processor.rs:101-223 | after shutdown and draining the processor has been offered exactly those events, each once, and in receive order for one worker |
| `EndToEnd.OfferedInReceiveOrder` | src/batch_processor.rs:194-223 | at every instant a single worker has offered a prefix of them |
| `Retry.RetryStrategy.Retry` | src/core/utils/retry.rs:73-132 | the number of calls, the outcome, and every sleep in order |
| `Retry.CallsDetermined` | src/core/utils/retry.rs:85-112 | the operation is called exactly min(first success, max retries + 1) times |
| `Retry.DelayInRange` | src/core/utils/retry.rs:116-128 | every delay is between 0 and the cap and never below the one before |
| `Retry.DelayEnvelope` | src/core/utils/retry.rs:116-128 | for every jitter the k-th sleep lies between the capped k-fold growth by the multiplier and by 1.1 times the multiplier |
| `Retry.SleepIsUncapped` | src/core/utils/retry.rs:116-128 | the k-th sleep is exactly the initial delay multiplied k times by the multiplier and by one plus a tenth of the draw, capped once at the end |
| `Retry.IteratedScale` | src/core/utils/retry.rs:116-120 | that k-fold growth is multiplication by the k-th power |
| `Retry.DelaysOrdered` | src/core/utils/retry.rs:116-128 | sleeps never get shorter |
| `Retry.TotalSleep` | src/core/utils/retry.rs:113-128 | all sleeps together take at most the cap added up max-retries times, which is their product (`RepeatedIsProduct`) |
| `Retry.CapExactlyWhen` | src/core/utils/retry.rs:80-128 | every sleep of every run respects the cap if and only if the initial delay does or there are no retries |
| `Histogram.MetricsRegistry.RecordHistogram` | src/observability/metrics.rs:190-207 | the named histogram gains this sample, count and sum stay exact, the others are untouched |
| `Histogram.MetricsRegistry.GetHistogramStats` | src/observability/metrics.rs:226-247 | statistics exactly for the recorded names |
| `Histogram.Index` | src/observability/metrics.rs:320 | the floor of p(n-1), always a valid index |
| `Histogram.SortSorts` | src/observability/metrics.rs:233-234 | the sorted copy is sorted and a permutation |
| `Histogram.PercentileRank` | src/observability/metrics.rs:315-322 | a percentile is a sample with at least floor(p(n-1))+1 samples at most it and at least n - floor(p(n-1)) at least it |
| `Histogram.StatisticsRanks` | src/observability/metrics.rs:237-241 | p50, p90, p95 and p99 are samples with at least floor(p(n-1))+1 samples at most them and n - floor(p(n-1)) at least them, each at its own p |
| `Histogram.AverageTimesCount` | src/observability/metrics.rs:243 | the average times the number of samples is their sum |
| `Histogram.StatisticsOrdered` | src/observability/metrics.rs:226-247 | p50 <= p90 <= p95 <= p99 <= max, max is the largest sample, and the average lies between the extremes |

## Left out

- Kafka set-up, subscription, SASL/SSL, the binaries and the HTTP server: input, output and plumbing.
- Decompression, protobuf decoding, hex and Base58: library code; a message carries what decoding gives.
- Event timestamps, `data` payloads, event filters and the bundled processors: straight-line code; filters and processors are arbitrary predicates.
- `src/core/utils/base58_cache.rs`: an easy addition once the LRU cache is modelled.
- Configuration validation other than the breaker's: used only as the source of preconditions.
- The resource manager's monitoring loop, logging, tracing and exporters: they change no modelled state.
- Counters, gauges and derived business metrics of the metrics registry: single reads and writes.
- Races in creating a histogram, where a second creator overwrites the first sample: the registry is modelled at method granularity.
- The simple breaker between its atomic accesses: it is modelled at method granularity.
- Task panics, mutex poisoning, cancelled futures and relaxed memory ordering.
- `time_in_open_state`, `last_failure_time` and similar breaker metrics: never read by the breaker.
- Rounding, NaN and nanosecond truncation of `f64` and `Duration`: real numbers are used instead.
- Several consumers sharing one resource manager: the pipeline has one.
- BreakerRaces.OrderlyKeepsQuota: sufficient for the quota, not necessary; how much interleaving a given configuration tolerates before an episode exceeds it is not determined.
