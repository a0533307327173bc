# Elastic Agent shipper: a verified model of the delivery path

The shipper takes events from gRPC clients, numbers them in a bounded queue, hands them in
batches to one output (Kafka, Elasticsearch, Logstash or the console) and tells clients how
far delivery has come through a persisted index. A client may forget an event once the index
has passed the `AcceptedIndex` of the reply that accepted it. This project states what that
promise rests on and proves it for every interleaving of clients, restarts, sender and
workers. Around it stand the pieces with the most arithmetic and state: Kafka partitioning,
the two backoff computations, the Elasticsearch health watcher, the controller's unit
handling, and Logstash failover.

`dafny verify dfyconfig.toml` checks everything.

## How it is built

Concurrent parts are step machines: a state, a datatype of steps, `Enabled` and `Apply`, and
runs as sequences of steps, so a lemma over every run is a lemma over every interleaving.
Objects that the source changes in place (`WrappedBatch`, `MsgRef`, `MessagePartitioner`,
`ESHealthWatcher`, `ServerRunner`, `UnitMap`, `InputHandler`, `clientHandler`,
`LogstashClient`) are classes whose methods are proved against functions on values; the
lemmas are about these functions.

| file | what it models |
|---|---|
| `Basics`, `Division` | events, fixed-width arithmetic, index ranges, quotients and remainders |
| `MemoryQueue` | the queue contract, `PersistedIndex`, `WrappedBatch` |
| `KafkaRound` | one `publishEvents` call: sender, broker, success worker, error worker |
| `KafkaOutput`, `KafkaRetry` | the Kafka output loop over all interleavings, and as a loop on a batch object |
| `ElasticOutput`, `SyncOutputs` | the other outputs: asynchronous settlement, drain |
| `Outputs` | what the four outputs have in common, as one queue generation sees it |
| `Publishing`, `Pipeline` | `PublishEvents`, and the whole path with concurrent calls, restarts, all queue generations and any output in each |
| `Promise`, `Restarts` | the promise to the client: when it holds, and its exact condition across restarts |
| `Stopping` | from whatever it is doing, an output whose queue is closed can stop |
| `RestartHazard` | runs in which a restart breaks the promise |
| `IndexStream` | the `PersistedIndex` stream |
| `Hashing`, `Partitioning`, `RoundRobin` | FNV-1a, the sticky wrapper, the strategies |
| `Backoff` | the doubling loop and the threshold with shift and jitter |
| `Watcher` | the health watcher with racing `Fail` calls |
| `Lifecycle`, `Controller` | runner, gRPC handle and unit events |
| `LogstashClient` | host rotation |

## What is assumed of the libraries

- libbeat memory queue: first in, first out; IDs strictly ascend from a first one, perhaps with
  gaps; `Get` returns a non-empty contiguous range of at most the requested size and fails only
  once the queue is closed; the oldest ID moves only over released batches and is the next ID
  when nothing is left.
- Sarama reports each message it accepted exactly once, as a success or as an error, in any order.
- The bulk indexer calls exactly one callback for an item it accepted and none for an item it refused.

These are the enabling conditions and effects of the steps `Arrive`, `Fetch`, `Acknowledge`,
`Reject`, `Submit`, `Refuse` and `Settle`, and the definition of `PersistedIndex`.

## What turned out not to hold

Each of these is a lemma, with the exact condition where there is one.

- The promise "once the index has passed `AcceptedIndex`, every accepted event of the request is
  settled". Without a new queue generation between the first accepted event and the look at the
  index it holds (`Promise.NoRestartNoLoss`, `Promise.PromiseInOneGeneration`). A restart makes it
  depend on what had been fetched, because IDs begin again under the same server UUID:
  - looking at the index that clients see, after any number of restarts, it holds if and only if
    the events that older generations took had been fetched (`Promise.PromiseAcrossRestarts`, once
    the older outputs have stopped; `Restarts.PromiseWithClosing`, in every run in which `Start`
    comes only with no output in hand, which is how the controller calls it,
    `Controller.StartComesAfterClose`);
  - in such runs it holds for ever if and only if all accepted events have been fetched already
    (`Restarts.PromiseForeverIffFetched`), even if queues number their entries one by one from the
    same ID; once Elasticsearch has skipped an event no further restart can come
    (`Restarts.PromiseAfterSkip`);
  - if `Start` may also come over a running output, as with a second output unit, only what is
    settled already is safe (`RestartHazard.PromiseForeverIffFulfilled`).
  Two runs with an orderly Close and Start show the loss: a restart after the reply
  (`RestartHazard.IndexMisleadsAfterRestart`), and one in the middle of a request
  (`RestartHazard.StraddlingRequestLosesEvent`). In both the event is never settled later.
- The values of the `PersistedIndex` stream need not increase: one is smaller than the one before
  if and only if a restart came between the two polls and the new queue's index has not caught up
  (`IndexStream.StreamGoesBackIff`, `IndexStream.RestartTakesIndexBack`).
- An event that the Kafka output retries becomes a new message, without the partition of the old
  one. The hash strategies send it to the same partition if it has a key or hashable fields
  (`Partitioning.NewMessageKeepsPartition`); round robin and random do so under a condition on the
  groups of the two messages only (`RoundRobin.RetryKeepsPartitionIff`,
  `RoundRobin.RandomKeepsPartitionIff`).
- An event that cannot be serialised for Elasticsearch leaves its batch one short for ever:
  the batch is never released, the index never passes it, and `Wait`, hence `Close`, never
  returns (`ElasticOutput.BatchCompletion`, `ElasticOutput.WaitMeansDrained`,
  `Pipeline.CloseHangsAfterSkip`; `ElasticOutput.OneSkipHangs` is such a run).
- `WrappedBatch.Done` releases again on every call after the count is reached, so a trailing
  `Done(0)` would release twice (`MemoryQueue.ReleasedOnceIffLastCounts`). The output loops
  never make that call.
- A round-robin seed equal to the largest int32 wraps to partition -2147483648
  (`Partitioning.SeedMustNotBeMax`), and when the number of partitions shrinks within a group
  the group keeps a partition that is gone (`Partitioning.GroupMaySurviveItsPartition`,
  `Partitioning.ShrinkingInsideGroup`).
- When the number of partitions changes, a message object that was partitioned under the old count
  keeps that partition, if it still exists, as soon as another message has been partitioned under
  the new one (`Partitioning.OldCountSticks`, with `Partitioning.KeyAnswerIff`).
- The Elasticsearch doubling loop overflows exactly when the first `Init * 2^m`, m >= 1, that
  reaches `Max` does not fit an int64 (`Backoff.DelayCorrectIffNoOverflow`), and attempt 0 is
  not clamped when `Init > Max` (`Backoff.AttemptZero`). The Kafka computation is right exactly
  when its floating-point threshold is the exact ceiling of log2(Max / Init), or one more where
  that logarithm is an integer (`Backoff.KafkaCorrectIff`).
- `Fail` calls that fall between the two loads of a tick are never seen
  (`Watcher.FailCallsConserved` accounts for them separately).
- Removing the output unit leaves queue and output running (`Controller.OutputComesAndGoes`).
- An output unit added while a queue is in hand leaks that queue, and nothing else does
  (`Controller.NeverLeaksIffOrderly`, `Controller.TwoAddsLeak`).
- A stale socket that cannot be removed leaves `startMutex` locked, after which the removal that
  leaves no input units hangs, and so does shutdown (`Controller.MutexIsLeftIff`,
  `Controller.HangsIff`, `Controller.ShutDownIsComplete`; `Controller.StaleSocketHangs` is such a
  sequence of two changes). The only other handler that hangs is one that closes an output whose
  `Wait` does not return.

## Model

| member | source | states |
|---|---|---|
| `KafkaOutput.PersistedMeansSettled` | output/kafka/output.go:46-84 | in every run, an event whose ID is below the persisted index was acknowledged by the broker or dropped for a stated reason, exactly once; never merely failed or pending |
| `KafkaOutput.PersistedMeansDecided` | output/kafka/output.go:46-84 | in every run, an event below the persisted index was decided by exactly one step: an acknowledgement by the broker, a report with an error that is not worth a retry, or a drop before sending |
| `KafkaOutput.WaitMeansDrained` | output/kafka/output.go:46-92 | the wait group is 0 or 1, and when `Wait` can return every fetched batch has been released exactly once and every fetched event is settled |
| `KafkaOutput.RetryAccounting` | output/kafka/output.go:61-81 | at every step of every run: done + remaining = batch size, `completed` does not wrap, a round without progress does not release, the release comes from the round that leaves no failure, never twice, and the branch behind the retry loop is unreachable |
| `KafkaOutput.StopsOnlyWhenClosed` | output/kafka/output.go:51-60 | in every run, an output that was started stops only after its queue was closed |
| `KafkaOutput.BelowIndexIsSettled` | queue/queue.go:109-124 | the state form: in every valid state what is below the index is settled |
| `KafkaOutput.StoppedIffFetched` | output/kafka/output.go:46-60 | once the output has stopped, an event is settled if and only if it had been fetched |
| `KafkaRetry.DeliverBatch` | output/kafka/output.go:61-81 | for every sequence of outcomes of the rounds: the loop ends at the first round without failures, and the batch is released once, exactly then |
| `KafkaRound.RoundConservation` | output/kafka/client.go:140-193 | in every interleaving of sender, broker and workers the wait counter is the number of unresolved events; the call can return exactly when that is 0; then the events given are, as a multiset, the acknowledged plus the dropped plus the returned |
| `KafkaRound.RoundMeaning` | output/kafka/client.go:269-287 | when the call can return: acknowledged are the messages the broker acknowledged; returned are those it reported with a retryable error, in the order of the reports; the cause is the first of these other than an open breaker; dropped are those given up by the sender and those reported otherwise, invalid ones as such and the others as too large |
| `KafkaRound.RejectedComesBack` | output/kafka/client.go:394-404 | a round in which the only message is reported with a retryable error returns it and drops nothing |
| `KafkaRound.Verdicts` | output/kafka/client.go:376-402 | which errors drop a message, for which reason, and which do not |
| `KafkaRound.StepKeepsValid` | output/kafka/client.go:269-287 | no step of any actor loses or copies a message or miscounts |
| `KafkaRound.RecordMeaning` | output/kafka/client.go:374-408 | over any reports, the failed list is exactly the retryable ones in order, the rest is dropped, and `err` is the first cause other than an open breaker |
| `KafkaRound.MsgRefObject.Done` | output/kafka/client.go:370-372 | one count down and nothing else |
| `KafkaRound.MsgRefObject.Fail` | output/kafka/client.go:374-404 | the report is recorded, then counted down once |
| `MemoryQueue.IndexMarksOldest` | queue/queue.go:109-124 | an ID is below the persisted index if and only if its entry lies in front of the oldest remaining one |
| `MemoryQueue.BelowIndexIsReleased` | queue/queue.go:109-124 | what is below the index belongs to a batch that was released together with all earlier ones |
| `MemoryQueue.IndexNeverDecreases` | queue/queue.go:109-124 | more entries, batches and releases never move the index back |
| `MemoryQueue.ReleasedOnceIffLastCounts` | queue/queue.go:150-157 | counts that add up to the batch size release it exactly once if and only if the last one is positive |
| `MemoryQueue.WrappedBatch.Events` | queue/queue.go:142-148 | all entries of the batch, in order |
| `MemoryQueue.WrappedBatch.Done` | queue/queue.go:150-157 | the wrapping uint64 addition; release and callback exactly if the size is reached; the wait group drops once per release |
| `Pipeline.AcceptedPrefix` | grpcserver/server.go:108-174 | in every interleaving of calls, restarts and outputs: a rejected call has enqueued nothing; an accepted one exactly its first `AcceptedCount` >= 1 events in order, and `AcceptedIndex` is the last one's ID |
| `Pipeline.EnqueuedWasAdmissible` | grpcserver/server.go:119-136 | in every run, a call that has put anything into a queue came with the server's UUID or none, and in strict mode with well-formed events only |
| `Pipeline.StepAnswers` | grpcserver/server.go:138-164 | every answer to a call at every step: admitted exactly if a queue is in hand and the request is admissible; then rejected only if the queue has gone, taken otherwise; and answered short of its events only when an attempt was refused |
| `Pipeline.QueuesStayWithinCapacity` | queue/queue.go:83-89 | in every run no queue holds more entries than its capacity |
| `Pipeline.ClosedTakesNothing` | queue/queue.go:74-81 | nothing enters a queue that has been closed |
| `Pipeline.PersistedReplyIsSettled` | grpcserver/server.go:138-164 | in the generation that took a request's last accepted event, `AcceptedIndex` is the largest ID of the request's events there, and once that generation's index has passed it those are settled; for the events elsewhere see `Promise` |
| `Pipeline.CloseDrains` | publisherserver/server.go:104-135 | when `Close` gets past `Wait`, the output, any of the four, has released every batch it fetched exactly once and settled every event in them |
| `Pipeline.CloseHangsAfterSkip` | output/elasticsearch/output.go:118-124 | once the Elasticsearch output being closed has met an event it cannot serialise, `Close` returns in no continuation |
| `Pipeline.StoppedIsFinal` | publisherserver/server.go:123-131 | an event of a generation whose output has stopped is settled if and only if it had been fetched, and in no continuation does that change |
| `Pipeline.IndexGrowsAlongRuns` | publisherserver/server.go:145-152 | whatever the system does, the index of a generation never goes back |
| `Pipeline.StepsMoveHandles` | publisherserver/server.go:55-91 | the delivery path moves queue and output handles as `Start` and `Close` of the lifecycle model do, and no other step moves them |
| `Outputs.BelowIndexIsSettled` | queue/queue.go:109-124 | with any of the four outputs, what is below the index is settled |
| `Outputs.StoppedIsDrained` | publisherserver/server.go:123-131 | with any of the four outputs: once `Wait` can return every fetched batch was released once, and the settled events are exactly the fetched ones |
| `Outputs.Kinds` | publisherserver/server.go:174-188 | each configured output starts as its own machine, with the queue fresh and the wait group at 1 if its start succeeded |
| `Promise.PromiseInOneGeneration` | grpcserver/server.go:138-164 | if all accepted events of a request lie in one generation whose index has passed `AcceptedIndex`, every one of them is settled |
| `Promise.OneGenerationIffNoRestart` | publisherserver/server.go:155-172 | when an event of a call is taken, all its events so far lie in one generation if and only if no generation has begun since the call's first event was taken |
| `Promise.NoRestartNoLoss` | grpcserver/server.go:138-164 | without a new generation between the first accepted event and the look at the index, an index past `AcceptedIndex` means that all accepted events are settled |
| `Promise.PromiseAcrossRestarts` | publisherserver/server.go:104-135 | with the older outputs stopped, and the index of the newest generation, or of the one that took the last accepted event, past `AcceptedIndex`: all accepted events are settled if and only if those in older generations had been fetched |
| `Restarts.PromiseWithClosing` | controller/controller_client.go:91-97 | the same of the index that clients read, in every run in which `Start` comes only with no output in hand, with no hypothesis about stopped outputs |
| `Restarts.PromiseForeverIffFetched` | publisherserver/server.go:104-135 | in every such continuation in which the index passes `AcceptedIndex` all accepted events are settled, if and only if all of them have been fetched already; likewise for the continuations whose queues number their entries one by one from a common first ID |
| `Restarts.PromiseAfterSkip` | output/elasticsearch/output.go:118-124 | once Elasticsearch has skipped an event no generation follows, and the promise depends on the older generations alone |
| `Restarts.CanClose` | publisherserver/server.go:104-135 | from every state of such a run Close can come to its end without anything more being fetched, unless Elasticsearch has skipped an event |
| `Stopping.Moves` | output/kafka/output.go:48-84 | an output whose queue is closed, that has skipped no event and has not stopped, always has a step that fetches nothing and lowers a rank |
| `RestartHazard.PromiseForeverIffFulfilled` | controller/controller_client.go:186-193 | where `Start` may come over a running output too: in every continuation in which the index passes `AcceptedIndex` all accepted events are settled, if and only if they are settled already |
| `RestartHazard.IndexMisleadsAfterRestart` | publisherserver/server.go:145-152 | for every event, first ID and capacity there is a run with an orderly Close and Start after which the current index exceeds the `AcceptedIndex` of an accepted request whose only event was not fetched by its stopped output and is settled in no continuation |
| `RestartHazard.StraddlingRequestLosesEvent` | publisherserver/server.go:165-172 | a request whose two events go to two generations: the second has passed `AcceptedIndex`, and the first event, not fetched, is settled in no continuation |
| `Publishing.WellFormedIffNoProblem` | grpcserver/server.go:248-308 | the validators find nothing if and only if timestamp, data stream fields and input ID are all there |
| `Publishing.ValidateAll` | grpcserver/server.go:129-136 | strict mode passes a request if and only if every event, also a later one, is well formed |
| `Publishing.PublishEvents` | grpcserver/server.go:108-174 | each rejection code if and only if its condition holds, in the order of the checks: no queue, a foreign UUID, no events or in strict mode a malformed one, a failed blocking publish; otherwise the count is the length of the unbroken run of successes and the index the last of their IDs |
| `Publishing.AdmitMeaning` | grpcserver/server.go:108-136 | a request is admitted if and only if the runner is initialised, the UUID is empty or right, there are events, and in strict mode all are well formed |
| `IndexStream.Stream` | grpcserver/server.go:186-229 | the values sent are the first reading and the successful polls without consecutive duplicates; the stream goes on until the first wakeup that ends it; without an interval one value is sent |
| `IndexStream.OutcomeMeaning` | grpcserver/server.go:207-229 | it stays open if and only if no wakeup ends it; it ends because the client has gone, the server stops, or a new value cannot be sent, if and only if the last wakeup was that |
| `IndexStream.SuccessesMeaning` | grpcserver/server.go:215-221 | the successful polls, each of them, in their order |
| `IndexStream.DedupMeaning` | grpcserver/server.go:216-224 | no two equal values in a row, none invented, none lost |
| `IndexStream.DedupIncreases` | grpcserver/server.go:216-224 | polls that never decrease yield strictly increasing messages |
| `IndexStream.StreamIncreasesWithinGeneration` | grpcserver/server.go:207-229 | whatever the pipeline does between polls of one generation, the values sent strictly increase |
| `IndexStream.StreamGoesBackIff` | grpcserver/server.go:215-228 | two values sent one after the other come from successive polls, and the second is smaller if and only if a restart came between them and the new index is behind the old one |
| `IndexStream.RestartTakesIndexBack` | publisherserver/server.go:55-64 | from every state of a run with Close before Start whose index is beyond the first ID there is such a restart, after which clients read the first ID again |
| `ElasticOutput.BatchCompletion` | output/elasticsearch/output.go:111-161 | for every order of successes, failures and refusals: release and callback at most once, only after every event is settled, and in the end if and only if every event could be serialised |
| `ElasticOutput.LastSettlementReleases` | output/elasticsearch/output.go:135-160 | the duty to release falls to the settlement that completes the batch, and to no other |
| `ElasticOutput.WaitMeansDrained` | output/elasticsearch/output.go:97-180 | the wait group is the loop plus the batches without callback, never negative; when it is 0 all batches are released and all events settled; an unserialisable event keeps it above 0 |
| `ElasticOutput.OneSkipHangs` | output/elasticsearch/output.go:118-124 | a run with one unserialisable event that ends with the loop over, nothing left to happen to the batch, and the wait group at 1 |
| `ElasticOutput.PersistedMeansSettled` | output/elasticsearch/output.go:97-168 | an event below the persisted index is settled and its batch had no unserialisable event |
| `ElasticOutput.SettledIffCalledBack` | output/elasticsearch/output.go:118-160 | in every run an event is settled if and only if the indexer has called back for it or refused it, pending if and only if the indexer took it and has not called back, skipped if and only if it could not be serialised |
| `ElasticOutput.PersistedMeansCalledBack` | output/elasticsearch/output.go:135-160 | the index passes an event only after the indexer has called back for it or refused it |
| `ElasticOutput.StopsOnlyWhenClosed` | output/elasticsearch/output.go:101-109 | in every run, an output that was started stops only after its queue was closed |
| `SyncOutputs.WaitMeansDrained` | output/logstash/output.go:38-78 | console and Logstash: the wait group is the loop plus the registered batch, no batch is released twice, and after `Wait` all are released |
| `SyncOutputs.StopsOnlyWhenClosed` | output/console.go:30-38 | the same of console and Logstash |
| `Partitioning.PartitionInRange` | output/kafka/partition.go:104-129 | an answer of any strategy in range is a partition in [0, n), and the strategy stays in range |
| `Partitioning.RunInRange` | output/kafka/partition.go:104-129 | over any run with constant n every answer lies in [0, n) |
| `Partitioning.HashAlwaysInRange` | output/kafka/partition.go:206-263 | the hash strategies answer in [0, n) in every state, for an n that may change from call to call |
| `Partitioning.SeedMustNotBeMax` | output/kafka/partition.go:168-183 | the first round-robin answer is in range if and only if the seed is not the largest int32 |
| `Partitioning.GroupMaySurviveItsPartition` | output/kafka/partition.go:141-183 | a grouped strategy answers in range if and only if it opens a new group or the group's partition still exists |
| `Partitioning.ShrinkingInsideGroup` | output/kafka/partition.go:173-182 | two calls in one group, with three partitions and then with one, both answer 1 |
| `Partitioning.AssignmentSticks` | output/kafka/partition.go:104-129 | over any run with constant n a message that has a partition keeps it, and asking again changes nothing at all |
| `Partitioning.KeyDecidesPartition` | output/kafka/partition.go:206-228 | in every reachable state of the key-hash strategy the cached hash is 0 or the FNV-1a of the key and every call answers (FNV mod 2^31) mod n, so later messages for the same key go to the same place |
| `Partitioning.KeyHashCaches` | output/kafka/partition.go:215-223 | after a call that asked the strategy, the message holds the FNV-1a of its key |
| `Partitioning.NewMessageKeepsPartition` | output/kafka/client.go:199-205 | a new message for the same event keeps its partition under the key hash if and only if it has a key or the draws agree, and under the fields hash if and only if its fields can be hashed, such events are to fail, or the draws agree |
| `Partitioning.FieldsHashAnswer` | output/kafka/partition.go:230-263 | the partition of the field bytes; without them that of a random hash, or partition 0 with nothing remembered |
| `Partitioning.FieldsHashCached` | output/kafka/partition.go:234-261 | a hash that a message already has is used as it is |
| `Partitioning.KeyAnswerIff` | output/kafka/partition.go:108-129 | for any state of the partitioner and a right cache, a keyed message gets the partition of its key if and only if the count is new to the partitioner, or its old partition is out of range or right |
| `Partitioning.OldCountSticks` | output/kafka/partition.go:108-129 | a partition from an old count is kept once another message has been partitioned with the new one |
| `Partitioning.PartitionerObject.Partition` | output/kafka/partition.go:104-129 | the object with its strategy's variables answers and changes as the function the lemmas speak of |
| `Hashing.MaskIsReduction` | output/kafka/partition.go:265-268 | the mask 0x7FFFFFFF is reduction modulo 2^31 for every hash |
| `Hashing.FnvConcat` | output/kafka/partition.go:241-246 | hashing field after field is hashing the concatenation |
| `Hashing.LastByte` | output/kafka/partition.go:217-222 | the last byte of a key is mixed in last |
| `Hashing.KnownHashes` | output/kafka/partition.go:206-222 | the published FNV-1a values of three keys |
| `RoundRobin.ClosedForm` | output/kafka/partition.go:168-183 | call t answers (p0 + t / N) mod n |
| `RoundRobin.Balanced` | output/kafka/partition.go:168-183 | any window of k * N * n calls, aligned or not, picks each partition exactly k * N times |
| `RoundRobin.RetriesDoNotAdvance` | output/kafka/partition.go:104-129 | in every run the strategy has advanced once per message that has a partition, however often Partition was called on these messages again |
| `RoundRobin.FirstAssignments` | output/kafka/partition.go:104-129 | with k messages assigned so far the next new one gets (p0 + k / N) mod n |
| `RoundRobin.RetryKeepsPartitionIff` | output/kafka/client.go:199-205 | two messages, such as those made for one event in two rounds, get the same partition if and only if k / N and k' / N agree modulo n, where k and k' messages had been assigned before them |
| `RoundRobin.RandomKeepsPartitionIff` | output/kafka/partition.go:141-155 | two calls of the random strategy agree if and only if the draws of their groups do |
| `RoundRobin.RandomGroups` | output/kafka/partition.go:141-155 | all calls of a random group answer with the draw of its first call |
| `Backoff.DelayTime` | output/elasticsearch/config.go:70-79 | the loop computes the repeated doubling; without overflow it runs at most max(1, ceil(log2(Max / Init))) times for any attempt |
| `Backoff.DoublingIsClamped` | output/elasticsearch/config.go:70-79 | without overflow the result is min(Init * 2^k, Max) for every k >= 1, and Init for k = 0 |
| `Backoff.DelayCorrectIffNoOverflow` | output/elasticsearch/config.go:70-79 | correct for every attempt >= 1 if and only if the last doubling fits an int64 |
| `Backoff.NoOverflowIffLastFits` | output/elasticsearch/config.go:70-79 | no doubling of the loop overflows if and only if the last one does not |
| `Backoff.SmallSettingsAreSafe` | output/elasticsearch/config.go:70-79 | Init below and Max up to 2^62 never overflow |
| `Backoff.AttemptZero` | output/elasticsearch/config.go:70-79 | attempt 0 is right if and only if Init <= Max |
| `Backoff.KafkaIsClamped` | output/kafka/config.go:289-298 | with the exact threshold, the wrapping uint64 shift gives min(Init * 2^k, Max) for every k |
| `Backoff.KafkaCorrectIff` | output/kafka/config.go:289-298 | whatever threshold the floating-point logarithm yields: every retry gets min(Init * 2^k, Max) if and only if it is the exact one, or one more where Max is Init doubled that often |
| `Backoff.ClampedMonotone` | output/kafka/config.go:289-298 | the delay never shrinks from one attempt to the next |
| `Backoff.TwoBackoffsOneFunction` | output/kafka/config.go:289-305 | with such a threshold and no overflow in the loop, loop and shift agree with each other and with the clamped exponential, and the jittered delay lies between half of it and all of it |
| `Backoff.JitterCovers` | output/kafka/config.go:300-303 | every delay of the upper half comes from exactly one draw |
| `Watcher.ReturnRangeDelta` | output/elasticsearch/watcher.go:152-160 | the sum over the codes in range, for every order of visiting the map |
| `Watcher.TickVerdict` | output/elasticsearch/watcher.go:104-138 | with counters that do not decrease: Degraded iff nothing succeeded and something failed, Recovered iff something succeeded while degraded, and no report otherwise |
| `Watcher.TickExactly` | output/elasticsearch/watcher.go:104-138 | the reports and `didFail` after a tick, whatever the counters do |
| `Watcher.JudgeReports` | output/elasticsearch/watcher.go:116-132 | at most one report a tick, whatever the counters do |
| `Watcher.ReportLanguage` | output/elasticsearch/watcher.go:78-149 | over every run the reports form (Degraded+ Recovered)* Degraded*, and `didFail` holds exactly when they end in Degraded |
| `Watcher.BadTicksAreStutters` | output/elasticsearch/watcher.go:97-101 | removing all ticks without metrics from a run changes nothing |
| `Watcher.FailCallsConserved` | output/elasticsearch/watcher.go:71-74 | over every run, seen deltas + calls between the two loads + calls since the last load = all calls, modulo 2^32; and exactly, as long as no tick had 2^31 calls to see |
| `Watcher.DeltasTelescope` | output/elasticsearch/watcher.go:107-110 | the deltas of all good ticks add up to the cumulative counters last read |
| `Watcher.HealthWatcher.Fail` | output/elasticsearch/watcher.go:71-74 | one increment of the int32 counter |
| `Watcher.HealthWatcher.Tick` | output/elasticsearch/watcher.go:97-138 | the object's tick, with any number of `Fail` calls between its loads, is the specified one |
| `Watcher.TickIsSteps` | output/elasticsearch/watcher.go:97-138 | that tick is the steps Look, Fail, ..., Fail, Note of the interleaved run |
| `Watcher.BadTickIsStep` | output/elasticsearch/watcher.go:97-101 | a tick of the object without metrics is the step that changes nothing |
| `Lifecycle.StartLeaksIffQueueInHand` | publisherserver/server.go:55-91 | `Start` leaks a queue if and only if one is in hand, wherever it fails |
| `Lifecycle.StartLeaves` | publisherserver/server.go:55-91 | what is in hand after each way in which Start ends; it succeeds only with everything in hand |
| `Lifecycle.CloseIsFinal` | publisherserver/server.go:104-135 | from any state `Close` leaves no monitor, queue or output, and a second `Close` changes nothing |
| `Lifecycle.ServerRunner.StartServer` | publisherserver/server.go:55-91 | the fields after each way of failing, and when it succeeds |
| `Lifecycle.ServerRunner.CloseServer` | publisherserver/server.go:104-135 | every handle that is set is given up; if the wait for the output does not return, the output stays and the call hangs |
| `Controller.Controls` | controller/controller_client.go:186-235 | after every sequence of unit events the input map holds exactly the units added and not removed since, and when there are none the gRPC handle is nil, unless a handler hangs |
| `Controller.MutexIsLeftIff` | grpcserver/inputhandler.go:76-84 | over every sequence of events `startMutex` is left locked if and only if an input was added, with no server in hand, to a socket that could not be removed |
| `Controller.HangsIff` | controller/controller_client.go:82-100 | a handler hangs if and only if, with the mutex left locked, a removal left no input units, or a changed output unit closed an output whose Wait does not return |
| `Controller.StaleSocketHangs` | grpcserver/inputhandler.go:76-84 | adding such an input and removing it hangs |
| `Controller.OutputChangesSpareEndpoint` | controller/controller_client.go:82-100 | adding, restarting or stopping the output never touches the gRPC handle |
| `Controller.LevelChangesTouchNothing` | controller/helpers.go:64-72 | an update of the output unit with the stored configuration and a new level changes the level and nothing else |
| `Controller.OutputChanges` | controller/controller_client.go:82-100 | every other update of the output unit stores the configuration, and restarts, closes or leaves the runner according to the expected state |
| `Controller.ChangedConfigRestarts` | controller/controller_client.go:200-219 | a changed configuration of a healthy output unit restarts the output with it |
| `Controller.OutputComesAndGoes` | controller/controller_client.go:186-235 | adding an output unit starts it, over whatever is in hand; removing it leaves queue and output running |
| `Controller.StoredIsLast` | controller/units.go:38-88 | after every sequence of changes without a hang, each unit's stored configuration is that of its last change |
| `Controller.ServerIff` | grpcserver/inputhandler.go:42-58 | after every sequence of changes without a hang, the gRPC handle is set if and only if an input with a readable configuration was added and no removal since has left no inputs |
| `Controller.ShutDownIsComplete` | controller/run.go:139-155 | shutdown hangs if and only if the mutex was left locked or the wait for the output does not return; otherwise endpoint, queue, monitor and output are given up |
| `Controller.NeverLeaksIffOrderly` | controller/controller_client.go:56-100 | over every sequence of events exactly the queue in hand is open if and only if no output unit is added while one is in hand |
| `Controller.AtMostOneQueue` | controller/controller_client.go:56-100 | any changes of input units, then one output unit added, then any changes that add no other: at most one queue is ever open, however `Start` fares |
| `Controller.StartComesAfterClose` | controller/controller_client.go:56-100 | as long as no output unit is added while a queue is in hand, every change that starts the runner finds neither queue nor output in hand |
| `Controller.TwoAddsLeak` | controller/controller_client.go:186-197 | two successful additions leave two queues open |
| `Controller.UnitMap.Add` | controller/units.go:38-48 | the unit's configuration is stored under its kind and ID |
| `Controller.UnitMap.Update` | controller/units.go:51-66 | an unknown input unit is ignored, a known one and the output are replaced |
| `Controller.UnitMap.Delete` | controller/units.go:80-88 | that unit is gone and no other |
| `Controller.UnitMap.GetConfig` | controller/units.go:91-103 | the stored configuration, if there is one |
| `Controller.InputHandler.StartEndpoint` | grpcserver/inputhandler.go:42-110 | a second start is a no-op; every failure leaves the handle set; a failed removal leaves the mutex locked; with the mutex left locked and no handle it hangs |
| `Controller.InputHandler.Stop` | grpcserver/inputhandler.go:120-140 | it clears the handle, or hangs on a mutex left locked |
| `Controller.ClientHandler.HandleAdded` | controller/controller_client.go:186-197 | the object changes as the handler function the lemmas speak of |
| `Controller.ClientHandler.HandleUpdated` | controller/controller_client.go:200-219 | likewise, with the log-level shortcut |
| `Controller.ClientHandler.HandleRemoved` | controller/controller_client.go:222-235 | likewise, with the endpoint stopped after the last input |
| `Controller.ClientHandler.Dispatch` | controller/run.go:137-167 | the dispatch loop over a sequence of changes reaches the state the lemmas speak of |
| `LogstashClient.Client.Publish` | output/logstash/client.go:44-79 | the hosts are tried in ring order from `current`; all but the last fail; the result and `current` are those of the last; failure means all n were tried and `current` is start + n - 1 mod n; state and result are those of `Call` |
| `LogstashClient.TakesIff` | output/logstash/client.go:52-76 | a host takes events if and only if a due reconnect works, it is or can be connected, and sending succeeds |
| `LogstashClient.HostsDiffer` | output/logstash/client.go:49-51 | no host is tried twice in a call |
| `LogstashClient.HostsCovered` | output/logstash/client.go:49-51 | n attempts reach every host |
| `LogstashClient.FailsIffAllFail` | output/logstash/client.go:44-79 | a call fails if and only if every host fails |
| `LogstashClient.HealthyHostSticks` | output/logstash/client.go:49-51 | over every sequence of calls, a host that served one and goes on taking events serves all later ones at the first attempt |
| `LogstashClient.CurrentIsHost` | output/logstash/client.go:49-51 | over every sequence of calls `current` names a host |

## Left out

- Sockets, named pipes, TLS, Kerberos, SASL, configuration unpacking, logging and unit status reports: their outcomes are inputs of the model.
- The internals of libbeat, Sarama, the bulk indexer and go-lumber; they appear as the assumptions above.
- The disk queue: its persisted index is constantly 0.
- Backpressure and liveness: a blocking publish is one step that waits for room, and it is not shown that steps happen. The mutex that it holds meanwhile keeps out the other calls on the runner, which the model allows to go first; this only adds runs.
- The circuit breaker's sleeping, tickers and wall-clock time. A negative polling interval, on which the ticker panics, is excluded.
- JSON encoding and the byte encoding of hashed fields: whether they succeed, and the bytes, are inputs.
- The error texts of strict mode, and the message that `InitHasFailed` stores.
- Data races in the Go memory model: each access is one atomic step; `Start` assigning its fields without the mutex is one step.
- The loops of the output goroutines are step machines rather than Dafny loops, because other actors run between their statements; only the Kafka retry loop is also given as a loop.
- KafkaRetry.DeliverBatch: the rounds' outcomes are a finite sequence and the loop stops when it is used up, because retrying need not end.
- Lifecycle.ServerRunner.StartServer: if the Kafka client cannot be made, the source goes on with a nil client (output/kafka/kafka.go:36-45, output/kafka/output.go:34-42) and panics; here the output fails to start with an error, as the others do.
- Whether the wait inside `Close` returns is an input of the runner and the controller; in `Pipeline` and `Restarts` it follows from the output.
- The value of the floating-point logarithm is an input of the Kafka backoff; which values are right is proved. `rand.Int63n` is an input too.
- RoundRobin.ClosedForm: the number of partitions is constant; for a changing one see `Partitioning.GroupMaySurviveItsPartition`.
- `addDefaults`, output selection, monitoring limits, command-line tools and build scaffolding would only add one-branch facts.
