# Publisher confirms and problem details, modelled in Dafny

This project models two groups of samples from the blog-samples repository.

**RabbitMQ publisher confirms.** Four publishers put a list of envelopes on a confirm-mode
channel and track the broker's acks and nacks:

- the batch-async publisher sends publish batches of `BatchSize`, waits after each, then polls
  until no delivery tag is outstanding and republishes what was nacked;
- the batch-sync publisher publishes one message at a time and waits after every `BatchSize`
  messages;
- the single-async publisher publishes everything, then polls;
- the single-sync publisher waits after every message; a message whose wait throws is
  republished when it is the last one, and otherwise the call throws.

The model keeps the delivery-tag map (`ConcurrentDictionary.TryAdd`/`TryRemove`), the nack
queue, the channel's `NextPublishSeqNo`, what goes on the wire, and the republish recursion.
The broker is a script of confirm events and wait outcomes passed in as parameters. The
message `Metadata` dictionary is modelled with its header round trip.

**ASP.NET Core problem details.** Several samples turn an exception into an RFC 7807 problem:

- the .NET 6 minimal-API and controllers `CustomProblemDetailsFactory`, with the framework's
  `ProblemDetailsDefaults` table;
- the controllers sample's `ProblemDetailsOptions` mapper registry, its registration extension
  and its `ExceptionResponseService`;
- the exception-to-status mappers of the .NET 7 customize sample and the .NET 8
  exception-handler sample;
- the .NET 7 and the simple `ProblemDetailsService`;
- the .NET 8 `DefaultExceptionHandler`;
- the simple .NET 8 `CustomizeProblemDetails` callback.

Exceptions are values with a type name and the type names they derive from, so `e is T` and
the first-match `switch` over exception types are modelled exactly. Problems are values. The
ASP.NET objects the source mutates in place (`ProblemDetails`, `HttpResponse`, the options, the
problem-details context) are classes.

Files:

- `wrappers.dfy`: Option and Outcome (a result or a throw).
- `transport.dfy`: envelopes, confirm events, the channel and its wire log.
- `batching.dfy`: chunking a list into batches.
- `publisher_confirm.dfy`: the delivery-tag bookkeeping shared by the publishers, and its
  conservation proofs.
- `batch_async.dfy`, `batch_sync.dfy`, `single_async.dfy`, `single_sync.dfy`: the four publishers.
- `metadata.dfy`: the message metadata dictionary.
- `exceptions.dfy`: the exception model.
- `problem_model.dfy`: problems, the response, writers and the service collection.
- `status_defaults.dfy`: `ProblemDetailsDefaults`.
- `options.dfy`, `registration.dfy`, `exception_responses.dfy`, `controllers_factory.dfy`: the
  controllers sample.
- `factory_defaults.dfy`, `minimal_factory.dfy`: the minimal-API factory.
- `titled_mapper.dfy`, `status_mapper.dfy`: the two mappers.
- `details_service.dfy`: the .NET 7 service.
- `typed_problem.dfy`, `simple_service.dfy`, `exception_handler.dfy`, `simple_registration.dfy`:
  the .NET 8 and simple samples.

## Behaviour worth knowing

- A cumulative nack resolves every tag up to its own, but the handler enqueues for retry only
  the envelope stored under the tag the nack names. The lower envelopes are dropped without
  retry (`PublisherConfirm.NackEnqueuesOnlyNamedTag`).
- The delivery-tag map is a field of the publisher, not a fresh map per call, and every call
  opens a new channel that numbers from 1. Within one call this does no harm: the async
  publishers republish only after the polling wait saw the map empty. But when a call throws
  and leaves entries in the map, a later call on the same publisher can meet a tag that is
  still outstanding, and `TryAdd` then keeps the old envelope under it
  (`PublisherConfirm.RecordedNeverOverwrites`).
- The batch-sync publisher never republishes: any nack makes its wait throw, and that throw
  leaves the call (`SyncBatchPublisher.NeverRepublishes`).
- The single-sync publisher tracks no delivery tags. A publish or wait failure queues the
  message, but a failed wait also closes the channel, and the next message's `QueueDeclare`
  runs outside the `try`, so the call throws whenever a wait fails before the last message.
  Only a failure on the last message is republished, and a republish round has one message,
  so it never throws (`SyncSinglePublisher.ThrowsOnEarlyFailure`).

## Model

| member | source | states |
|---|---|---|
| PublisherConfirm.TryAdded | messaging/rabbitmq/publisher-confirm/publisher-confirm-batch-async/PublisherConfirmBatchAsync.cs:178 | TryAdd never overwrites: a present tag keeps its envelope, an absent one is added with the new envelope, every other entry is kept |
| PublisherConfirm.Resolved | messaging/rabbitmq/publisher-confirm/publisher-confirm-batch-async/PublisherConfirmBatchAsync.cs:187-201 | a cumulative confirm keeps exactly the tags above it, a single confirm drops exactly its tag, and no envelope changes |
| PublisherConfirm.CumulativeResolvesCompose | messaging/rabbitmq/publisher-confirm/publisher-confirm-batch-async/PublisherConfirmBatchAsync.cs:187-196 | two cumulative confirms, in either order, leave the map the larger tag alone leaves |
| PublisherConfirm.CumulativeAcksCollapse | messaging/rabbitmq/publisher-confirm/publisher-confirm-batch-async/PublisherConfirmBatchAsync.cs:61-75 | any non-empty run of cumulative acks, in any order, leaves the map that an ack of the highest tag alone leaves, and the retry queue untouched |
| PublisherConfirm.ResolveAbsentIsNoop | messaging/rabbitmq/publisher-confirm/publisher-confirm-batch-async/PublisherConfirmBatchAsync.cs:199 | removing a tag that is not outstanding leaves the map unchanged |
| PublisherConfirm.ResolvedIdempotent | messaging/rabbitmq/publisher-confirm/publisher-confirm-batch-async/PublisherConfirmBatchAsync.cs:187-201 | confirming the same tag twice has the effect of confirming it once |
| PublisherConfirm.DuplicateEventIsNoop | messaging/rabbitmq/publisher-confirm/publisher-confirm-batch-async/PublisherConfirmBatchAsync.cs:61-94 | a redelivered ack or nack changes nothing more: no tag removed again and no envelope enqueued twice |
| PublisherConfirm.AckNeverEnqueues | messaging/rabbitmq/publisher-confirm/publisher-confirm-batch-async/PublisherConfirmBatchAsync.cs:61-75 | the ack handler never adds to the retry queue |
| PublisherConfirm.NackEnqueuesOnlyNamedTag | messaging/rabbitmq/publisher-confirm/publisher-confirm-batch-async/PublisherConfirmBatchAsync.cs:77-94 | a cumulative nack enqueues only the envelope under its own tag, while the lower tags it also removes are dropped without retry |
| PublisherConfirm.NackOfAbsentTagEnqueuesNothing | messaging/rabbitmq/publisher-confirm/publisher-confirm-batch-async/PublisherConfirmBatchAsync.cs:90-91 | a nack for a tag that is not outstanding leaves the retry queue alone |
| PublisherConfirm.CumulativeAckOfHighestDrains | messaging/rabbitmq/publisher-confirm/publisher-confirm-batch-async/PublisherConfirmBatchAsync.cs:189-196 | a multiple ack of the highest outstanding tag empties the map |
| PublisherConfirm.StepKeepsAccount | messaging/rabbitmq/publisher-confirm/publisher-confirm-batch-async/PublisherConfirmBatchAsync.cs:61-94 | one callback only removes entries and enqueues only an envelope that was outstanding, so the conservation account is kept |
| PublisherConfirm.RunKeepsAccount | messaging/rabbitmq/publisher-confirm/publisher-confirm-batch-async/PublisherConfirmBatchAsync.cs:61-94 | any sequence of callbacks keeps the conservation account |
| PublisherConfirm.RunConserves | messaging/rabbitmq/publisher-confirm/publisher-confirm-batch-async/PublisherConfirmBatchAsync.cs:61-94 | over any callbacks the retry queue only grows by envelopes that were outstanding and the map only loses entries |
| PublisherConfirm.RecordedSize | messaging/rabbitmq/publisher-confirm/publisher-confirm-batch-async/PublisherConfirmBatchAsync.cs:149-179 | recording a batch adds at most one map entry per envelope |
| PublisherConfirm.RecordedOrigin | messaging/rabbitmq/publisher-confirm/publisher-confirm-batch-async/PublisherConfirmBatchAsync.cs:178 | after recording, every entry is an old entry unchanged or one of the recorded envelopes |
| PublisherConfirm.RecordKeepsAccount | messaging/rabbitmq/publisher-confirm/publisher-confirm-batch-async/PublisherConfirmBatchAsync.cs:178 | recording envelopes keeps the account once they count as added |
| PublisherConfirm.PollAt | messaging/rabbitmq/publisher-confirm/publisher-confirm-batch-async/PublisherConfirmBatchAsync.cs:230-232 | the k-th poll is the script's when present; past the script no event arrives and the limit has passed |
| PublisherConfirm.DrainEndsEmptyOrExpired | messaging/rabbitmq/publisher-confirm/publisher-confirm-batch-async/PublisherConfirmBatchAsync.cs:210-234 | the polling wait succeeds if and only if the tag map has become empty; otherwise it gives up with the timeout |
| PublisherConfirm.DrainKeepsAccount | messaging/rabbitmq/publisher-confirm/publisher-confirm-batch-async/PublisherConfirmBatchAsync.cs:119-123 | the callbacks that arrive during the polling wait keep the account |
| PublisherConfirm.RecordedAboveExisting | messaging/rabbitmq/publisher-confirm/publisher-confirm-batch-async/PublisherConfirmBatchAsync.cs:178 | with all old tags below `start`, recording stores the i-th envelope under `start + i`, adds no other tag and keeps the old entries |
| PublisherConfirm.RecordedNeverOverwrites | messaging/rabbitmq/publisher-confirm/publisher-confirm-batch-async/PublisherConfirmBatchAsync.cs:178 | a tag already present keeps its envelope even when recording reuses it |
| PublisherConfirm.AccountedGrows | messaging/rabbitmq/publisher-confirm/publisher-confirm-batch-async/PublisherConfirmBatchAsync.cs:100-117 | counting more envelopes as added keeps an account valid |
| PublisherConfirm.RunWithoutNacks | messaging/rabbitmq/publisher-confirm/publisher-confirm-batch-async/PublisherConfirmBatchAsync.cs:61-75 | callbacks without a nack never touch the retry queue |
| PublisherConfirm.SentCount | messaging/rabbitmq/publisher-confirm/publisher-confirm-batch-async/PublisherConfirmBatchAsync.cs:112-113 | the number of batches sent is all of them when no wait throws, and up to the first throwing wait otherwise |
| PublisherConfirm.BatchBookIsSent | messaging/rabbitmq/publisher-confirm/publisher-confirm-batch-async/PublisherConfirmBatchAsync.cs:100-117 | the bookkeeping after the batch loop is that of the batches actually sent |
| PublisherConfirm.SentKeepsAccount | messaging/rabbitmq/publisher-confirm/publisher-confirm-batch-async/PublisherConfirmBatchAsync.cs:100-117 | sending batches keeps the account with the sent envelopes counted as added |
| PublisherConfirm.SentFirst | messaging/rabbitmq/publisher-confirm/publisher-confirm-batch-async/PublisherConfirmBatchAsync.cs:112-113 | sending the first batch keeps the account, and the rest continue from the next tag |
| PublisherConfirm.BatchBookKeepsAccount | messaging/rabbitmq/publisher-confirm/publisher-confirm-batch-async/PublisherConfirmBatchAsync.cs:100-117 | the whole batch loop keeps the account with every message of the call counted as added |
| PublisherConfirm.BatchStepKeepsAccount | messaging/rabbitmq/publisher-confirm/publisher-confirm-batch-async/PublisherConfirmBatchAsync.cs:112-113 | recording one batch and the confirms of its wait keep the account |
| PublisherConfirm.BatchFramesLive | messaging/rabbitmq/publisher-confirm/publisher-confirm-batch-async/PublisherConfirmBatchAsync.cs:112-115 | when the first wait succeeds, the wire shows the first batch, its wait, then the rest of the loop |
| PublisherConfirm.BatchFramesDead | messaging/rabbitmq/publisher-confirm/publisher-confirm-batch-async/PublisherConfirmBatchAsync.cs:112-113 | when the first wait throws, the wire shows the first batch and its wait and nothing after |
| PublisherConfirm.BatchDiedFlush | messaging/rabbitmq/publisher-confirm/publisher-confirm-batch-async/PublisherConfirmBatchAsync.cs:112-113 | one flush either ends the loop at a throwing wait or leaves the remaining batches, with the loop's outcome unchanged |
| PublisherConfirm.BatchPhaseAccounted | messaging/rabbitmq/publisher-confirm/publisher-confirm-batch-async/PublisherConfirmBatchAsync.cs:96-117 | the batch loop over the chunks of the messages, from an empty retry queue, keeps the account with the messages as added |
| PublisherConfirm.RetryConserved | messaging/rabbitmq/publisher-confirm/publisher-confirm-batch-async/PublisherConfirmBatchAsync.cs:125-126 | a republish round over the nacked envelopes invents no envelope either |
| PublisherConfirm.RecordNext | messaging/rabbitmq/publisher-confirm/publisher-confirm-batch-sync/SyncBatchPublisherConfirm.cs:103-105 | recording one more envelope is one TryAdd under the next tag |
| PublisherConfirm.OneWaitPerBatch | messaging/rabbitmq/publisher-confirm/publisher-confirm-batch-async/PublisherConfirmBatchAsync.cs:112-113 | sending one batch puts exactly one wait on the wire |
| PublisherConfirm.BatchFramesWaits | messaging/rabbitmq/publisher-confirm/publisher-confirm-batch-async/PublisherConfirmBatchAsync.cs:100-117 | the loop waits once per batch it sends, so once per batch when no wait throws |
| PublisherConfirm.LiveBatchWaitsOnce | messaging/rabbitmq/publisher-confirm/publisher-confirm-batch-async/PublisherConfirmBatchAsync.cs:112-113 | a batch whose wait succeeds adds exactly one wait to the rest of the loop |
| PublisherConfirm.BatchRetriesOnlyOnDeath | messaging/rabbitmq/publisher-confirm/publisher-confirm-batch-async/PublisherConfirmBatchAsync.cs:100-117 | if no wait threw, nothing was enqueued for retry, because a nack makes the wait that collects it throw |
| PublisherConfirm.BatchFramesPublishInOrder | messaging/rabbitmq/publisher-confirm/publisher-confirm-batch-async/PublisherConfirmBatchAsync.cs:100-117 | the wire carries a prefix of the batches laid end to end, numbered in order from the start tag, and all of them when no wait throws |
| PublisherConfirm.SentThenPrefix | messaging/rabbitmq/publisher-confirm/publisher-confirm-batch-async/PublisherConfirmBatchAsync.cs:112-113 | publishing a batch, waiting, then a prefix of the rest publishes a prefix of the whole |
| PublisherConfirm.SentThenRest | messaging/rabbitmq/publisher-confirm/publisher-confirm-batch-async/PublisherConfirmBatchAsync.cs:112-113 | publishing a batch, waiting, then the first m of the rest publishes the first |batch| + m of the whole |
| PublisherConfirm.PrefixedPublications | messaging/rabbitmq/publisher-confirm/publisher-confirm-batch-async/PublisherConfirmBatchAsync.cs:140-185 | publishing x then a prefix of the tail publishes a prefix of x + tail |
| PublisherConfirm.Tracker.constructor | messaging/rabbitmq/publisher-confirm/publisher-confirm-batch-async/PublisherConfirmBatchAsync.cs:18-19 | the tag map starts empty, as does the nack queue |
| PublisherConfirm.Tracker.ResetRetryQueue | messaging/rabbitmq/publisher-confirm/publisher-confirm-batch-async/PublisherConfirmBatchAsync.cs:40 | each publish call starts an empty nack queue and keeps the tag map |
| PublisherConfirm.Tracker.TryAdd | messaging/rabbitmq/publisher-confirm/publisher-confirm-batch-async/PublisherConfirmBatchAsync.cs:178 | the map becomes TryAdded of the old map, and the nack queue is kept |
| PublisherConfirm.Tracker.GetMappedMessage | messaging/rabbitmq/publisher-confirm/publisher-confirm-batch-async/PublisherConfirmBatchAsync.cs:203-208 | the envelope under the tag, or null when absent, and nothing changes |
| PublisherConfirm.Tracker.IsEmpty | messaging/rabbitmq/publisher-confirm/publisher-confirm-batch-async/PublisherConfirmBatchAsync.cs:120 | true exactly when no tag is outstanding |
| PublisherConfirm.Tracker.RemovedConfirmedMessage | messaging/rabbitmq/publisher-confirm/publisher-confirm-batch-async/PublisherConfirmBatchAsync.cs:187-201 | the foreach over the confirmed entries leaves exactly Resolved of the old map |
| PublisherConfirm.Tracker.HandleAck | messaging/rabbitmq/publisher-confirm/publisher-confirm-batch-async/PublisherConfirmBatchAsync.cs:61-75 | the ack handler's new state is the bookkeeping Step for an Ack |
| PublisherConfirm.Tracker.HandleNack | messaging/rabbitmq/publisher-confirm/publisher-confirm-batch-async/PublisherConfirmBatchAsync.cs:77-94 | the nack handler enqueues the envelope under the exact tag, if any, before the removal, as Step for a Nack |
| PublisherConfirm.Tracker.Deliver | messaging/rabbitmq/publisher-confirm/publisher-confirm-batch-async/PublisherConfirmBatchAsync.cs:61-94 | delivering callbacks in order leaves the bookkeeping Run of them |
| PublisherConfirm.Tracker.WaitUntilConditionMet | messaging/rabbitmq/publisher-confirm/publisher-confirm-batch-async/PublisherConfirmBatchAsync.cs:210-234 | the polling loop with a default limit of 300 seconds ends as the Drain specification says: empty map, or a timeout with the state reached |
| Transport.WaitAt | messaging/rabbitmq/publisher-confirm/publisher-confirm-batch-async/PublisherConfirmBatchAsync.cs:113 | the k-th wait is the script's when present; past the script the broker is silent and the wait times out |
| Transport.AnyNackExists | messaging/rabbitmq/publisher-confirm/publisher-confirm-batch-async/PublisherConfirmBatchAsync.cs:77-94 | AnyNack holds if and only if some event is a nack |
| Transport.PublishedFramesNumbered | messaging/rabbitmq/publisher-confirm/publisher-confirm-batch-async/PublisherConfirmBatchAsync.cs:181-182 | publishing from sequence number `start` gives the i-th envelope the number `start + i` |
| Transport.PublishedFramesNext | messaging/rabbitmq/publisher-confirm/publisher-confirm-batch-sync/SyncBatchPublisherConfirm.cs:107-113 | one more publish appends one frame with the next sequence number |
| Transport.PublishedFramesCons | messaging/rabbitmq/publisher-confirm/publisher-confirm-single-sync/SyncSinglePublisherConfirm.cs:94-101 | publishing a first envelope, then the rest from the next number, is publishing them all |
| Transport.Channel.constructor | messaging/rabbitmq/publisher-confirm/publisher-confirm-batch-async/PublisherConfirmBatchAsync.cs:50 | a new channel is open, not in confirm mode, with nothing on the wire |
| Transport.Channel.ConfirmSelect | messaging/rabbitmq/publisher-confirm/publisher-confirm-batch-async/PublisherConfirmBatchAsync.cs:52-53 | entering confirm mode sets the next sequence number to 1 |
| Transport.Channel.QueueDeclare | messaging/rabbitmq/publisher-confirm/publisher-confirm-single-sync/SyncSinglePublisherConfirm.cs:74-80 | QueueDeclare throws exactly when the channel is closed |
| Transport.Channel.BasicPublish | messaging/rabbitmq/publisher-confirm/publisher-confirm-single-sync/SyncSinglePublisherConfirm.cs:94-101 | on an open channel one frame with the current number goes out and the number advances; a closed channel throws and nothing changes |
| Transport.Channel.PublishBatch | messaging/rabbitmq/publisher-confirm/publisher-confirm-batch-async/PublisherConfirmBatchAsync.cs:181-184 | the batch goes out in order, each message taking the next sequence number |
| Transport.Channel.WaitForConfirmsOrDie | messaging/rabbitmq/publisher-confirm/publisher-confirm-single-sync/SyncSinglePublisherConfirm.cs:116 | the wait is logged; it throws on a closed channel, on a nack or on a timeout, and a throw closes the channel |
| Batching.FlattenSplit | messaging/rabbitmq/publisher-confirm/publisher-confirm-batch-async/PublisherConfirmBatchAsync.cs:100-117 | flattening distributes over splitting the chunk list |
| Batching.BatchesPartition | messaging/rabbitmq/publisher-confirm/publisher-confirm-batch-async/PublisherConfirmBatchAsync.cs:100-117 | chunking loses, duplicates and reorders nothing; chunks are non-empty, at most the size, and all but the last are full |
| Batching.BatchesCount | messaging/rabbitmq/publisher-confirm/publisher-confirm-batch-async/PublisherConfirmBatchAsync.cs:104-110 | with a positive size there are ceil(n / size) chunks, otherwise at most one |
| Batching.FlushIsNextBatch | messaging/rabbitmq/publisher-confirm/publisher-confirm-batch-async/PublisherConfirmBatchAsync.cs:104-110 | the queue flushed when full or holding the last message is exactly the next chunk |
| Batching.QueueNext | messaging/rabbitmq/publisher-confirm/publisher-confirm-batch-async/PublisherConfirmBatchAsync.cs:102 | queueing the next message extends the queue by one slot of the list |
| BatchAsyncPublisher.PublisherConfirmBatchAsync.constructor | messaging/rabbitmq/publisher-confirm/publisher-confirm-batch-async/PublisherConfirmBatchAsync.cs:21-31 | TimeOut 60, BatchSize 100, empty tag map |
| BatchAsyncPublisher.PublisherConfirmBatchAsync.PublishMessage | messaging/rabbitmq/publisher-confirm/publisher-confirm-batch-async/PublisherConfirmBatchAsync.cs:33-36 | publishing one message is publishing the one-element list |
| BatchAsyncPublisher.PublisherConfirmBatchAsync.PublishAsync | messaging/rabbitmq/publisher-confirm/publisher-confirm-batch-async/PublisherConfirmBatchAsync.cs:38-138 | outcome, tag map and wire equal PublishSpec: batches with waits, the drain, then republish rounds of the nacked envelopes |
| BatchAsyncPublisher.PublisherConfirmBatchAsync.PublishInBatches | messaging/rabbitmq/publisher-confirm/publisher-confirm-batch-async/PublisherConfirmBatchAsync.cs:96-117 | the foreach loop ends with the wire, bookkeeping and throw state of the batch-phase specification |
| BatchAsyncPublisher.PublisherConfirmBatchAsync.Enqueue | messaging/rabbitmq/publisher-confirm/publisher-confirm-batch-async/PublisherConfirmBatchAsync.cs:102-116 | one loop turn queues the message and flushes exactly when the queue is full or ends at the last message |
| BatchAsyncPublisher.PublisherConfirmBatchAsync.Flush | messaging/rabbitmq/publisher-confirm/publisher-confirm-batch-async/PublisherConfirmBatchAsync.cs:111-116 | a flush advances the phase by one batch and keeps the loop's link to the phase's outcome |
| BatchAsyncPublisher.PublisherConfirmBatchAsync.SendBatch | messaging/rabbitmq/publisher-confirm/publisher-confirm-batch-async/PublisherConfirmBatchAsync.cs:112-113 | the batch is published and waited for while its confirms arrive |
| BatchAsyncPublisher.PublisherConfirmBatchAsync.PublishBatch | messaging/rabbitmq/publisher-confirm/publisher-confirm-batch-async/PublisherConfirmBatchAsync.cs:140-185 | each envelope is recorded under the next tag, the batch goes out, and the result is the channel's next sequence number |
| BatchAsyncPublisher.CompletedLeavesNothingOutstanding | messaging/rabbitmq/publisher-confirm/publisher-confirm-batch-async/PublisherConfirmBatchAsync.cs:119-128 | a call that completes leaves no delivery tag outstanding |
| BatchAsyncPublisher.PublishConserves | messaging/rabbitmq/publisher-confirm/publisher-confirm-batch-async/PublisherConfirmBatchAsync.cs:38-138 | over any number of republish rounds, every outstanding envelope was outstanding before or is a message of the call |
| BatchAsyncPublisher.FirstRoundPublishesInOrder | messaging/rabbitmq/publisher-confirm/publisher-confirm-batch-async/PublisherConfirmBatchAsync.cs:96-117 | the first round publishes all messages in input order with tags 1, 2, ..., or a prefix of them when a wait throws |
| SyncBatchPublisher.SyncBatchPublisherConfirm.constructor | messaging/rabbitmq/publisher-confirm/publisher-confirm-batch-sync/SyncBatchPublisherConfirm.cs:20-30 | TimeOut 60, BatchSize 100, empty tag map |
| SyncBatchPublisher.SyncBatchPublisherConfirm.PublishMessage | messaging/rabbitmq/publisher-confirm/publisher-confirm-batch-sync/SyncBatchPublisherConfirm.cs:32-35 | publishing one message is publishing the one-element list |
| SyncBatchPublisher.SyncBatchPublisherConfirm.PublishAsync | messaging/rabbitmq/publisher-confirm/publisher-confirm-batch-sync/SyncBatchPublisherConfirm.cs:37-151 | outcome, tag map and wire equal the publisher's specification: per-message TryAdd and publish, a wait per chunk, republish of the nacked |
| SyncBatchPublisher.SyncBatchPublisherConfirm.PublishAll | messaging/rabbitmq/publisher-confirm/publisher-confirm-batch-sync/SyncBatchPublisherConfirm.cs:83-136 | the foreach loop ends in the state the batch-phase specification gives for the chunks of the list |
| SyncBatchPublisher.SyncBatchPublisherConfirm.PublishOne | messaging/rabbitmq/publisher-confirm/publisher-confirm-batch-sync/SyncBatchPublisherConfirm.cs:103-135 | one turn records, publishes and counts the message, and waits exactly when the chunk is full or the sequence number equals the message count |
| SyncBatchPublisher.SyncBatchPublisherConfirm.CloseChunk | messaging/rabbitmq/publisher-confirm/publisher-confirm-batch-sync/SyncBatchPublisherConfirm.cs:128-135 | a closing chunk is waited for and the next chunk starts empty |
| SyncBatchPublisher.SyncBatchPublisherConfirm.PublishNext | messaging/rabbitmq/publisher-confirm/publisher-confirm-batch-sync/SyncBatchPublisherConfirm.cs:103-113 | the message is recorded under the channel's next sequence number, then published under it |
| SyncBatchPublisher.SyncBatchPublisherConfirm.AwaitConfirms | messaging/rabbitmq/publisher-confirm/publisher-confirm-batch-sync/SyncBatchPublisherConfirm.cs:133 | the wait after a chunk, with its confirms delivered, advances the batch phase by one chunk |
| SyncBatchPublisher.NeverRepublishes | messaging/rabbitmq/publisher-confirm/publisher-confirm-batch-sync/SyncBatchPublisherConfirm.cs:138-139 | a nack makes its wait throw, so the republish branch is never taken and later rounds are irrelevant |
| SyncBatchPublisher.WaitsOncePerChunk | messaging/rabbitmq/publisher-confirm/publisher-confirm-batch-sync/SyncBatchPublisherConfirm.cs:128-135 | a completed call waited ceil(n / BatchSize) times for a positive size; a failed one at most that often |
| SyncBatchPublisher.PublishesInOrder | messaging/rabbitmq/publisher-confirm/publisher-confirm-batch-sync/SyncBatchPublisherConfirm.cs:86-136 | a completed call published every message once in input order with tags 1, 2, ...; a failed one a prefix the same way |
| SyncBatchPublisher.OutstandingConserved | messaging/rabbitmq/publisher-confirm/publisher-confirm-batch-sync/SyncBatchPublisherConfirm.cs:37-151 | every tag left outstanding holds an envelope that was outstanding before or is one of the messages |
| AsyncSinglePublisher.AsyncPublisherConfirm.constructor | messaging/rabbitmq/publisher-confirm/publisher-confirm-single-async/AsyncPublisherConfirm.cs:21-30 | TimeOut 60, empty tag map |
| AsyncSinglePublisher.AsyncPublisherConfirm.PublishMessage | messaging/rabbitmq/publisher-confirm/publisher-confirm-single-async/AsyncPublisherConfirm.cs:32-35 | publishing one message is publishing the one-element list |
| AsyncSinglePublisher.AsyncPublisherConfirm.PublishAsync | messaging/rabbitmq/publisher-confirm/publisher-confirm-single-async/AsyncPublisherConfirm.cs:37-156 | outcome, tag map and wire equal the publisher's specification: publish all, drain, republish the nacked |
| AsyncSinglePublisher.AsyncPublisherConfirm.PublishEach | messaging/rabbitmq/publisher-confirm/publisher-confirm-single-async/AsyncPublisherConfirm.cs:95-135 | the loop records every message under consecutive tags and publishes them in order |
| AsyncSinglePublisher.CompletedLeavesNothingOutstanding | messaging/rabbitmq/publisher-confirm/publisher-confirm-single-async/AsyncPublisherConfirm.cs:137-146 | a call that completes leaves no delivery tag outstanding |
| AsyncSinglePublisher.PublishConserves | messaging/rabbitmq/publisher-confirm/publisher-confirm-single-async/AsyncPublisherConfirm.cs:37-156 | over any number of rounds, every outstanding envelope was outstanding before or is a message of the call |
| AsyncSinglePublisher.PublishesAllInOrder | messaging/rabbitmq/publisher-confirm/publisher-confirm-single-async/AsyncPublisherConfirm.cs:95-135 | every call starts by publishing all its messages in input order with tags 1, 2, ... |
| AsyncSinglePublisher.NeverWaits | messaging/rabbitmq/publisher-confirm/publisher-confirm-single-async/AsyncPublisherConfirm.cs:37-156 | no round ever calls WaitForConfirmsOrDie |
| SyncSinglePublisher.SyncSinglePublisherConfirm.constructor | messaging/rabbitmq/publisher-confirm/publisher-confirm-single-sync/SyncSinglePublisherConfirm.cs:18-27 | TimeOut 60 |
| SyncSinglePublisher.SyncSinglePublisherConfirm.PublishMessage | messaging/rabbitmq/publisher-confirm/publisher-confirm-single-sync/SyncSinglePublisherConfirm.cs:29-32 | publishing one message is publishing the one-element list |
| SyncSinglePublisher.SyncSinglePublisherConfirm.PublishAsync | messaging/rabbitmq/publisher-confirm/publisher-confirm-single-sync/SyncSinglePublisherConfirm.cs:34-158 | outcome and wire equal the publisher's specification: publish and wait per message; the call throws from QueueDeclare when a wait failed before the last message, and otherwise republishes the queued message on a new channel |
| SyncSinglePublisher.SyncSinglePublisherConfirm.PublishEach | messaging/rabbitmq/publisher-confirm/publisher-confirm-single-sync/SyncSinglePublisherConfirm.cs:71-141 | the loop leaves in the queue exactly the message whose wait threw, throws exactly when messages follow that one, and the wire shows the round's frames |
| SyncSinglePublisher.SyncSinglePublisherConfirm.PublishOne | messaging/rabbitmq/publisher-confirm/publisher-confirm-single-sync/SyncSinglePublisherConfirm.cs:89-140 | on the open channel QueueDeclare left, publish then wait; a throw from either queues the message and leaves the channel closed |
| SyncSinglePublisher.Confirmed | messaging/rabbitmq/publisher-confirm/publisher-confirm-single-sync/SyncSinglePublisherConfirm.cs:116 | the number of messages confirmed before the first throwing wait, never more than the round's messages |
| SyncSinglePublisher.RoundFailsAtFirstDeath | messaging/rabbitmq/publisher-confirm/publisher-confirm-single-sync/SyncSinglePublisherConfirm.cs:72-141 | every wait before the first throwing one succeeded; the round queues that one message alone, and throws out of the call exactly when a message follows it |
| SyncSinglePublisher.RoundPublishesInOrder | messaging/rabbitmq/publisher-confirm/publisher-confirm-single-sync/SyncSinglePublisherConfirm.cs:72-141 | a round publishes in order, each message followed by its wait: the confirmed ones and the first failing one |
| SyncSinglePublisher.ThrowsOnEarlyFailure | messaging/rabbitmq/publisher-confirm/publisher-confirm-single-sync/SyncSinglePublisherConfirm.cs:72-146 | a call throws exactly when a wait fails before the last message of its first round; otherwise it completes or still holds the last message to republish |
| SyncSinglePublisher.RepublishNeverThrows | messaging/rabbitmq/publisher-confirm/publisher-confirm-single-sync/SyncSinglePublisherConfirm.cs:143-146 | a republish round holds one message, so it never throws: it completes or keeps that message queued |
| SyncSinglePublisher.CompletesWhenNoWaitThrows | messaging/rabbitmq/publisher-confirm/publisher-confirm-single-sync/SyncSinglePublisherConfirm.cs:143-146 | a round whose waits all succeed queues nothing and completes the call |
| MessageMetadata.OfString | messaging/rabbitmq/publisher-confirm/Contracts/Metadata.cs:15 | a boxed string's ToString() is the string, and it is an instance of string's interfaces |
| MessageMetadata.HeaderEntries | messaging/rabbitmq/publisher-confirm/Contracts/Metadata.cs:15 | same keys as the headers, each value boxed as a string, null kept |
| MessageMetadata.Metadata.constructor | messaging/rabbitmq/publisher-confirm/Contracts/Metadata.cs:5-7 | the private constructor gives an empty dictionary |
| MessageMetadata.Metadata.FromMeta | messaging/rabbitmq/publisher-confirm/Contracts/Metadata.cs:12 | null gives a new empty metadata; otherwise a new copy, never the same instance |
| MessageMetadata.Metadata.FromHeaders | messaging/rabbitmq/publisher-confirm/Contracts/Metadata.cs:14-15 | null headers give an empty metadata; otherwise each header under the same key, its value boxed |
| MessageMetadata.Metadata.With | messaging/rabbitmq/publisher-confirm/Contracts/Metadata.cs:17-20 | a non-null value is stored under the key, replacing any earlier one; null changes nothing; the same instance is returned |
| MessageMetadata.Metadata.Add | messaging/rabbitmq/publisher-confirm/Contracts/Metadata.cs:28-31 | a non-empty string is stored, a null or empty one ignored; the same instance is returned |
| MessageMetadata.Metadata.ToHeaders | messaging/rabbitmq/publisher-confirm/Contracts/Metadata.cs:22 | the same keys, each value rendered with ToString(), null kept |
| MessageMetadata.Metadata.GetString | messaging/rabbitmq/publisher-confirm/Contracts/Metadata.cs:24 | the value's string form, null for a missing key or null value |
| MessageMetadata.Metadata.Get | messaging/rabbitmq/publisher-confirm/Contracts/Metadata.cs:26 | the value when present and an instance of the asked type (its own type, a base class or interface, or object), default otherwise |
| MessageMetadata.HeadersRoundTrip | messaging/rabbitmq/publisher-confirm/Contracts/Metadata.cs:14-22 | ToHeaders(FromHeaders(h)) gives back h |
| MessageMetadata.EntriesRoundTrip | messaging/rabbitmq/publisher-confirm/Contracts/Metadata.cs:14-22 | metadata whose values are all strings survives a trip through headers |
| MessageMetadata.WithThenGet | messaging/rabbitmq/publisher-confirm/Contracts/Metadata.cs:17-26 | after With(key, v), Get as v's type, any of its bases or object, and GetString, find v, and every other key reads as before |
| MessageMetadata.AddThenGetString | messaging/rabbitmq/publisher-confirm/Contracts/Metadata.cs:24-31 | after Add(key, s) with non-empty s, GetString gives s back and Get finds it as a string, an object or one of string's interfaces, and as nothing else |
| ExceptionModel.HumanizeUnspaces | problem-details-exception-handler/dotnet-6-controllers-problem-details/Core/ProblemDetail/DependencyInjectionExtensions.cs:96-99 | removing the spaces of a simplified humanized title gives the type name back, so under the simplification different type names never share a title |
| ExceptionModel.FirstOfType | problem-details-exception-handler/dotnet-6-controllers-problem-details/Core/ProblemDetail/ProblemDetailsOptions.cs:54-69 | the index found is an item whose type the exception is, with no earlier match; none means no item matches |
| ExceptionModel.FirstOfTypeIs | problem-details-exception-handler/dotnet-6-controllers-problem-details/Core/ProblemDetail/ProblemDetailsOptions.cs:54-66 | the first match is i if and only if the exception is item i's type and no earlier item's |
| ExceptionModel.FirstOfTypeAppend | problem-details-exception-handler/dotnet-6-controllers-problem-details/Core/ProblemDetail/ProblemDetailsOptions.cs:54-66 | appending items does not change a match found among the first ones |
| ExceptionModel.SwitchTakesFirst | problem-details-exception-handler/dotnet-6-controllers-problem-details/Core/ProblemDetail/DependencyInjectionExtensions.cs:33-93 | a type switch takes arm i exactly when the exception is that arm's type and no earlier one, and its default exactly when none |
| ProblemModel.StatusProblem | problem-details-exception-handler/dotnet-6-controllers-problem-details/Core/ProblemDetail/ProblemDetailsOptions.cs:27 | a problem with only the status set |
| ProblemModel.TryAddedKeeps | problem-details-exception-handler/dotnet-7-problem-details-service/Core/ProblemDetail/ProblemDetailsService.cs:103-105 | TryAdd keeps every existing extension and the key is present afterwards |
| ProblemModel.ProblemDetails.TryAddExtension | problem-details-exception-handler/dotnet-7-problem-details-service/Core/ProblemDetail/ProblemDetailsService.cs:103-105 | the extension is added only when the key is absent, and no other field changes |
| ProblemModel.FirstWriter | problem-details/simple/Core/ProblemDetail/ProblemDetailsService.cs:38-44 | the writer found can write and no earlier one can; none means none can |
| ProblemModel.ServiceCollection.Add | problem-details-exception-handler/dotnet-6-controllers-problem-details/Core/ProblemDetail/DependencyInjectionExtensions.cs:15-17 | a registration is appended |
| ProblemModel.EnvironmentTestsIgnoreCase | problem-details-exception-handler/dotnet-6-controllers-problem-details/Core/ProblemDetail/ProblemDetailsOptions.cs:79 | IsDevelopment and IsProduction ignore case: a name tests as its lower-cased form does, and "development", "DEVELOPMENT", "production" and "PRODUCTION" all match |
| ProblemModel.DevelopmentIsNotProduction | problem-details-exception-handler/dotnet-6-minimal-api-problem-details/Core/ProblemDetail/CustomProblemDetailsFactory.cs:89 | no environment is both Development and Production |
| ProblemDetailsDefaults.DefaultsTable | problem-details-exception-handler/dotnet-6-minimal-api-problem-details/Core/ProblemDetail/ProblemDetailsDefaults.cs:9-37 | the table covers exactly the ten listed status codes |
| ProblemDetailsDefaults.Applied | problem-details-exception-handler/dotnet-6-minimal-api-problem-details/Core/ProblemDetail/ProblemDetailsDefaults.cs:39-64 | the status is never null afterwards; a set status, title or type is kept; a tabled status ends with title and type set, an untabled one keeps them; the other fields are kept |
| ProblemDetailsDefaults.Apply | problem-details-exception-handler/dotnet-6-minimal-api-problem-details/Core/ProblemDetail/ProblemDetailsDefaults.cs:39-64 | the problem object ends as Applied of its old value |
| ProblemDetailsDefaults.AppliedFillsStatus | problem-details-exception-handler/dotnet-6-minimal-api-problem-details/Core/ProblemDetail/ProblemDetailsDefaults.cs:44-57 | a null status takes the given code, else 400 for validation problems and 500 for others; a set status is kept |
| ProblemDetailsDefaults.AppliedFillsFromTable | problem-details-exception-handler/dotnet-6-minimal-api-problem-details/Core/ProblemDetail/ProblemDetailsDefaults.cs:59-63 | a tabled status fills a null title and type from the table and never replaces set ones |
| ProblemDetailsDefaults.AppliedIdempotent | problem-details-exception-handler/dotnet-6-minimal-api-problem-details/Core/ProblemDetail/ProblemDetailsDefaults.cs:39-64 | applying again, with any status code, changes nothing |
| ControllerOptions.IsServerError | problem-details-exception-handler/dotnet-6-controllers-problem-details/Core/ProblemDetail/ProblemDetailsOptions.cs:72-75 | true exactly for a non-null status of at least 500 |
| ControllerOptions.IncludeExceptionDetailsDefault | problem-details-exception-handler/dotnet-6-controllers-problem-details/Core/ProblemDetail/ProblemDetailsOptions.cs:77-80 | details are included exactly when the environment name is "Development" up to the case of its letters |
| ControllerOptions.ShouldLogDefault | problem-details-exception-handler/dotnet-6-controllers-problem-details/Core/ProblemDetail/ProblemDetailsOptions.cs:16-21 | an exception is logged exactly when its problem is a server error |
| ControllerOptions.DefaultMapStatusCode | problem-details-exception-handler/dotnet-6-controllers-problem-details/Core/ProblemDetail/ProblemDetailsOptions.cs:82-86 | the problem carries the response's status and nothing else |
| ControllerOptions.ProblemDetailsOptions.constructor | problem-details-exception-handler/dotnet-6-controllers-problem-details/Core/ProblemDetail/ProblemDetailsOptions.cs:8-22 | no mapper, and the three default delegates |
| ControllerOptions.ProblemDetailsOptions.MapToStatusCode | problem-details-exception-handler/dotnet-6-controllers-problem-details/Core/ProblemDetail/ProblemDetailsOptions.cs:24-28 | appends a mapper for the type that yields the status-only problem |
| ControllerOptions.ProblemDetailsOptions.MapTyped | problem-details-exception-handler/dotnet-6-controllers-problem-details/Core/ProblemDetail/ProblemDetailsOptions.cs:30-34 | appends a mapper for the type that ignores the context |
| ControllerOptions.ProblemDetailsOptions.MapWithContext | problem-details-exception-handler/dotnet-6-controllers-problem-details/Core/ProblemDetail/ProblemDetailsOptions.cs:36-40 | appends a mapper for the type |
| ControllerOptions.ProblemDetailsOptions.Map | problem-details-exception-handler/dotnet-6-controllers-problem-details/Core/ProblemDetail/ProblemDetailsOptions.cs:42-45 | appends a mapper registered under Exception |
| ControllerOptions.ProblemDetailsOptions.GetProblemDetails | problem-details-exception-handler/dotnet-6-controllers-problem-details/Core/ProblemDetail/ProblemDetailsOptions.cs:47-70 | the first-match loop returns Resolve of the mappers and changes nothing |
| ControllerOptions.ResolveNull | problem-details-exception-handler/dotnet-6-controllers-problem-details/Core/ProblemDetail/ProblemDetailsOptions.cs:49-52 | a null exception gives null |
| ControllerOptions.ResolveFirstMatch | problem-details-exception-handler/dotnet-6-controllers-problem-details/Core/ProblemDetail/ProblemDetailsOptions.cs:54-66 | the first mapper whose type matches decides: its result as is, null included, and null when it throws |
| ControllerOptions.ResolveNoMatch | problem-details-exception-handler/dotnet-6-controllers-problem-details/Core/ProblemDetail/ProblemDetailsOptions.cs:69 | with no matching mapper the answer is null |
| ControllerOptions.ResolveIgnoresLater | problem-details-exception-handler/dotnet-6-controllers-problem-details/Core/ProblemDetail/ProblemDetailsOptions.cs:54-66 | once a mapper matches, mappers added later are never consulted |
| ControllerOptions.CatchAllShadowsLater | problem-details-exception-handler/dotnet-6-controllers-problem-details/Core/ProblemDetail/ProblemDetailsOptions.cs:42-45 | a Map(...) registration matches every exception, so nothing registered after it is reached |
| ControllerOptions.StatusMappingResolves | problem-details-exception-handler/dotnet-6-controllers-problem-details/Core/ProblemDetail/ProblemDetailsOptions.cs:24-28 | a MapToStatusCode mapper that matches first yields exactly that status |
| ExceptionResponses.GenerateErrorResponse | problem-details-exception-handler/dotnet-6-controllers-problem-details/Core/ProblemDetail/ExceptionResponseService.cs:8-68 | a listed exception gives its arm's status and humanized type name; any other 500 and the fixed message |
| ExceptionResponses.RespondsByFirstArm | problem-details-exception-handler/dotnet-6-controllers-problem-details/Core/ProblemDetail/ExceptionResponseService.cs:10-67 | the first listed arm whose type matches decides the response |
| ExceptionResponses.ArgumentGives400 | problem-details-exception-handler/dotnet-6-controllers-problem-details/Core/ProblemDetail/ExceptionResponseService.cs:40-45 | an ArgumentException of none of the earlier custom types gives 400 |
| ExceptionResponses.AgreesWithDefaultMapping | problem-details-exception-handler/dotnet-6-controllers-problem-details/Core/ProblemDetail/ExceptionResponseService.cs:8-68 | the response agrees with the sample's built-in problem mapping: same status and title, the 500 fallback where that gives null, and the same throws |
| TitledStatusMapper.GetMappedStatusCodes | problem-details-exception-handler/dotnet-7-customize-problem-details/Core/ProblemDetail/DefaultProblemDetailMapper.cs:8-43 | a listed exception gives its arm's status and humanized name; any other (0, null) |
| TitledStatusMapper.MapsByFirstArm | problem-details-exception-handler/dotnet-7-customize-problem-details/Core/ProblemDetail/DefaultProblemDetailMapper.cs:10-42 | the first listed arm whose type matches decides the pair |
| TitledStatusMapper.MapsArgumentTo400 | problem-details-exception-handler/dotnet-7-customize-problem-details/Core/ProblemDetail/DefaultProblemDetailMapper.cs:20-23 | an ArgumentException that is not Conflict or Validation maps to 400 |
| TitledStatusMapper.MapsOwnStatus | problem-details-exception-handler/dotnet-7-customize-problem-details/Core/ProblemDetail/DefaultProblemDetailMapper.cs:12-40 | the sample's status-carrying exceptions map to their own StatusCode |
| TitledStatusMapper.MapsUnlistedToZero | problem-details-exception-handler/dotnet-7-customize-problem-details/Core/ProblemDetail/DefaultProblemDetailMapper.cs:41 | an exception of no listed type maps to (0, null) |
| TitledStatusMapper.TitleByTypeName | problem-details-exception-handler/dotnet-7-customize-problem-details/Core/ProblemDetail/DefaultProblemDetailMapper.cs:45-48 | the title of a recognized exception depends on its type name only |
| StatusCodeMapper.GetMappedStatusCodes | problem-details/exception-handler-dotnet8/Core/ProblemDetail/DefaultProblemDetailMapper.cs:7-21 | null and unlisted exceptions give 0; a listed one its arm's status; a null HttpRequestException status throws |
| StatusCodeMapper.MapsByFirstArm | problem-details/exception-handler-dotnet8/Core/ProblemDetail/DefaultProblemDetailMapper.cs:9-20 | the first listed arm whose type matches decides the status |
| StatusCodeMapper.MapsArgumentTo400 | problem-details/exception-handler-dotnet8/Core/ProblemDetail/DefaultProblemDetailMapper.cs:13 | an ArgumentException that is not Conflict or Validation maps to 400 |
| StatusCodeMapper.MapsCustomExceptions | problem-details/exception-handler-dotnet8/Core/ProblemDetail/DefaultProblemDetailMapper.cs:11-15 | BadRequest 400, NotFound 404, Validation 400, Conflict 409, whatever the message |
| StatusCodeMapper.NullHttpStatusThrows | problem-details/exception-handler-dotnet8/Core/ProblemDetail/DefaultProblemDetailMapper.cs:17 | an HttpRequestException with a null StatusCode throws at the cast, unless an earlier arm takes it |
| StatusCodeMapper.MapsUnlistedToZero | problem-details/exception-handler-dotnet8/Core/ProblemDetail/DefaultProblemDetailMapper.cs:19 | an exception of no listed type maps to 0 |
| FactoryDefaults.ChosenStatus | problem-details-exception-handler/dotnet-6-minimal-api-problem-details/Core/ProblemDetail/CustomProblemDetailsFactory.cs:103-104 | the asked status wins, then a positive mapped status, then the response's |
| FactoryDefaults.DefaultsApplied | problem-details-exception-handler/dotnet-6-minimal-api-problem-details/Core/ProblemDetail/CustomProblemDetailsFactory.cs:157-182 | client-error defaults fill only null title and type; traceId is set; spanId and id are added only where absent; other fields are kept |
| FactoryDefaults.ApplyProblemDetailsDefaults | problem-details-exception-handler/dotnet-6-minimal-api-problem-details/Core/ProblemDetail/CustomProblemDetailsFactory.cs:157-182 | the problem object ends as DefaultsApplied of its old value |
| FactoryDefaults.AddTraceExtensions | problem-details-exception-handler/dotnet-6-minimal-api-problem-details/Core/ProblemDetail/CustomProblemDetailsFactory.cs:169-181 | only the extensions change, to the traced ones |
| FactoryDefaults.DefaultsAppliedIdempotent | problem-details-exception-handler/dotnet-6-minimal-api-problem-details/Core/ProblemDetail/CustomProblemDetailsFactory.cs:157-182 | applying the defaults twice is applying them once |
| FactoryDefaults.ValidationProblem | problem-details-exception-handler/dotnet-6-minimal-api-problem-details/Core/ProblemDetail/CustomProblemDetailsFactory.cs:136-150 | status 400 unless given, the default title unless a non-null one is given, the model state's errors |
| FactoryDefaults.CreateValidationProblemDetails | problem-details-exception-handler/dotnet-6-minimal-api-problem-details/Core/ProblemDetail/CustomProblemDetailsFactory.cs:121-155 | a null model state throws; otherwise a fresh validation problem with the defaults applied for its status |
| FactoryDefaults.ValidationTitleNeverNull | problem-details-exception-handler/dotnet-6-minimal-api-problem-details/Core/ProblemDetail/CustomProblemDetailsFactory.cs:136-152 | a validation problem never ends with a null title or status, and its status is 400 unless asked otherwise |
| MinimalApiFactory.CustomProblemDetailsFactory.constructor | problem-details-exception-handler/dotnet-6-minimal-api-problem-details/Core/ProblemDetail/CustomProblemDetailsFactory.cs:19-28 | the mapper, environment and client-error mapping are stored |
| MinimalApiFactory.CustomProblemDetailsFactory.InitializeProblemDetails | problem-details-exception-handler/dotnet-6-minimal-api-problem-details/Core/ProblemDetail/CustomProblemDetailsFactory.cs:77-119 | in production only the chosen status; otherwise title, detail, status, exception extension, type and instance with their fallbacks; a mapper throw propagates |
| MinimalApiFactory.CustomProblemDetailsFactory.PlainProblem | problem-details-exception-handler/dotnet-6-minimal-api-problem-details/Core/ProblemDetail/CustomProblemDetailsFactory.cs:44-51 | the arguments as given, with status 500 unless one is given |
| MinimalApiFactory.CustomProblemDetailsFactory.CreateProblemDetails | problem-details-exception-handler/dotnet-6-minimal-api-problem-details/Core/ProblemDetail/CustomProblemDetailsFactory.cs:30-75 | without a captured exception the response is untouched; with one the response takes the problem's status; the defaults are applied either way |
| MinimalApiFactory.ExceptionStatusPrecedence | problem-details-exception-handler/dotnet-6-minimal-api-problem-details/Core/ProblemDetail/CustomProblemDetailsFactory.cs:93-104 | with an exception, the status is the asked one, else the positive mapped one, else the response's; defaults never replace the set title |
| MinimalApiFactory.TitlePrecedence | problem-details-exception-handler/dotnet-6-minimal-api-problem-details/Core/ProblemDetail/CustomProblemDetailsFactory.cs:101 | outside production the title argument wins over the mapper's, and the mapper's over the humanized type name |
| ControllersFactory.BaseProblem | problem-details-exception-handler/dotnet-6-controllers-problem-details/Core/ProblemDetail/CustomProblemDetailsFactory.cs:41-44 | with an exception, the mappers' problem or the status-only one when they give null; without one, the status-only one |
| ControllersFactory.Rebuilt | problem-details-exception-handler/dotnet-6-controllers-problem-details/Core/ProblemDetail/CustomProblemDetailsFactory.cs:46-94 | the chosen status; the title argument, else the humanized exception name, else the base title; detail, instance and the exception extension only when details are included |
| ControllersFactory.CustomProblemDetailsFactory.constructor | problem-details-exception-handler/dotnet-6-controllers-problem-details/Core/ProblemDetail/CustomProblemDetailsFactory.cs:18-27 | the options and client-error mapping are stored |
| ControllersFactory.CustomProblemDetailsFactory.CreateProblemDetails | problem-details-exception-handler/dotnet-6-controllers-problem-details/Core/ProblemDetail/CustomProblemDetailsFactory.cs:29-101 | the problem is the rebuilt base with the defaults applied, and the response's status always becomes the problem's |
| ControllersFactory.CustomProblemDetailsFactory.BaseProblemOf | problem-details-exception-handler/dotnet-6-controllers-problem-details/Core/ProblemDetail/CustomProblemDetailsFactory.cs:41-44 | the base problem read from the options, with nothing changed |
| ControllersFactory.DefaultOptionsKeepResponseStatus | problem-details-exception-handler/dotnet-6-controllers-problem-details/Core/ProblemDetail/CustomProblemDetailsFactory.cs:60-62 | with default options and no status argument, the problem takes the response's current status |
| ControllersFactory.MappedStatusWins | problem-details-exception-handler/dotnet-6-controllers-problem-details/Core/ProblemDetail/CustomProblemDetailsFactory.cs:89-91 | a positive mapper status wins over the response's when no status is asked for |
| ControllerRegistration.GetTitle | problem-details-exception-handler/dotnet-6-controllers-problem-details/Core/ProblemDetail/DependencyInjectionExtensions.cs:96-99 | the humanized runtime type name, which gives the type name back once its spaces are removed |
| ControllerRegistration.TitledProblem | problem-details-exception-handler/dotnet-6-controllers-problem-details/Core/ProblemDetail/DependencyInjectionExtensions.cs:37-41 | a problem with only title and status set |
| ControllerRegistration.MapDefaultExceptions | problem-details-exception-handler/dotnet-6-controllers-problem-details/Core/ProblemDetail/DependencyInjectionExtensions.cs:31-94 | a listed exception gives its arm's status and humanized name; an unlisted one null; a null HttpRequestException status throws |
| ControllerRegistration.MapsFirstArm | problem-details-exception-handler/dotnet-6-controllers-problem-details/Core/ProblemDetail/DependencyInjectionExtensions.cs:33-93 | the first listed arm whose type matches decides status and title |
| ControllerRegistration.MapsOwnStatus | problem-details-exception-handler/dotnet-6-controllers-problem-details/Core/ProblemDetail/DependencyInjectionExtensions.cs:35-82 | the status-carrying exceptions map to their own StatusCode |
| ControllerRegistration.MapsArgumentTo400 | problem-details-exception-handler/dotnet-6-controllers-problem-details/Core/ProblemDetail/DependencyInjectionExtensions.cs:67-74 | an ArgumentException of none of the four earlier custom types maps to 400 |
| ControllerRegistration.MapsUnlistedToNull | problem-details-exception-handler/dotnet-6-controllers-problem-details/Core/ProblemDetail/DependencyInjectionExtensions.cs:91-92 | an exception of no listed type maps to null |
| ControllerRegistration.AddCustomProblemDetailsSupport | problem-details-exception-handler/dotnet-6-controllers-problem-details/Core/ProblemDetail/DependencyInjectionExtensions.cs:10-29 | three singletons, then the options setup, are appended to the collection |
| ControllerRegistration.ConfigureOptions | problem-details-exception-handler/dotnet-6-controllers-problem-details/Core/ProblemDetail/DependencyInjectionExtensions.cs:20-26 | as written: the built-in catch-all is registered before the caller's mappers |
| ControllerRegistration.ConfiguredMappersUnreached | problem-details-exception-handler/dotnet-6-controllers-problem-details/Core/ProblemDetail/DependencyInjectionExtensions.cs:20-26 | as written, the built-in mapping decides every exception and no caller mapper is ever consulted |
| ControllerRegistration.ConfigureOptionsUserFirst | problem-details-exception-handler/dotnet-6-controllers-problem-details/Core/ProblemDetail/DependencyInjectionExtensions.cs:20-26 | as intended: the caller's mappers first, then the built-in catch-all |
| ControllerRegistration.UserMappersDecideFirst | problem-details-exception-handler/dotnet-6-controllers-problem-details/Core/ProblemDetail/DependencyInjectionExtensions.cs:20-26 | a matching caller mapper decides; only an exception none of them takes reaches the built-in mapping |
| Net7ProblemDetailsService.SkipsMapping | problem-details-exception-handler/dotnet-7-problem-details-service/Core/ProblemDetail/ProblemDetailsService.cs:74-75 | the early return skips only pairs whose status is not positive, and among those it lets through exactly the ones whose title is null or empty |
| Net7ProblemDetailsService.Populated | problem-details-exception-handler/dotnet-7-problem-details-service/Core/ProblemDetail/ProblemDetailsService.cs:86-106 | title, detail, status and instance from the exception and request; spanId, traceId and id added where absent; old extensions and other fields kept |
| Net7ProblemDetailsService.ChosenWriter | problem-details-exception-handler/dotnet-7-problem-details-service/Core/ProblemDetail/ProblemDetailsService.cs:39-62 | a writer is chosen only for an unstarted error response, and the chosen one can write |
| Net7ProblemDetailsService.ChosenWriterIsFirst | problem-details-exception-handler/dotnet-7-problem-details-service/Core/ProblemDetail/ProblemDetailsService.cs:47-62 | the one-writer shortcut picks what the general search picks: the first writer that can write |
| Net7ProblemDetailsService.ProblemDetailsService.constructor | problem-details-exception-handler/dotnet-7-problem-details-service/Core/ProblemDetail/ProblemDetailsService.cs:14-21 | the writers and mapper are stored |
| Net7ProblemDetailsService.ProblemDetailsService.CreateProblemDetailFromException | problem-details-exception-handler/dotnet-7-problem-details-service/Core/ProblemDetail/ProblemDetailsService.cs:65-84 | a mapper throw propagates unchanged; a skipped pair changes nothing; otherwise the problem is repopulated and the response takes the mapped status |
| Net7ProblemDetailsService.ProblemDetailsService.PopulateNewProblemDetail | problem-details-exception-handler/dotnet-7-problem-details-service/Core/ProblemDetail/ProblemDetailsService.cs:86-106 | the problem object ends as Populated of its old value |
| Net7ProblemDetailsService.ProblemDetailsService.WriteAsync | problem-details-exception-handler/dotnet-7-problem-details-service/Core/ProblemDetail/ProblemDetailsService.cs:23-63 | null throws; a captured exception is mapped first; the writer used is ChosenWriter for the status the mapping left |
| Net7ProblemDetailsService.UntitledNonPositiveWritesNothing | problem-details-exception-handler/dotnet-7-problem-details-service/Core/ProblemDetail/ProblemDetailsService.cs:70-83 | as written, any mapped pair with a non-positive status and a null or empty title passes the early return: the response status becomes that value and no writer is used |
| Net7ProblemDetailsService.IntendedMappingKeepsStatus | problem-details-exception-handler/dotnet-7-problem-details-service/Core/ProblemDetail/ProblemDetailsService.cs:74-83 | with the intended guard a positive status never becomes non-positive, and an unmapped exception leaves the writer choice as it was |
| TypedProblems.FirstMapperStatus | problem-details/simple-dotnet8/Core/ProblemDetail/RegistrationExtensions.cs:73-75 | null mappers use the fallback, an empty sequence gives 0, otherwise only the first mapper is asked |
| TypedProblems.LaterMappersIgnored | problem-details/simple-dotnet8/Core/ProblemDetail/RegistrationExtensions.cs:74 | mappers after the first never change the status |
| TypedProblems.TypedProblem | problem-details/simple/Core/ProblemDetail/ProblemDetailsService.cs:93-120 | status, instance, the exception's message and type name, traceId, and a stack trace exactly in development with an exception |
| TypedProblems.NoStackTraceOutsideDevelopment | problem-details/simple/Core/ProblemDetail/ProblemDetailsService.cs:100-106 | outside development the extensions are the trace id alone |
| SimpleProblemDetailsService.LastMapperWins | problem-details/simple/Core/ProblemDetail/ProblemDetailsService.cs:67-73 | when no mapper throws, the last mapper decides the status |
| SimpleProblemDetailsService.MapperThrowPropagates | problem-details/simple/Core/ProblemDetail/ProblemDetailsService.cs:69-72 | the loop throws exactly when some mapper throws |
| SimpleProblemDetailsService.ServiceStatus | problem-details/simple/Core/ProblemDetail/ProblemDetailsService.cs:65-77 | the last mapper's answer with mappers and an exception, the fallback's with an exception and no mapper, 0 without an exception |
| SimpleProblemDetailsService.Merged | problem-details/simple/Core/ProblemDetail/ProblemDetailsService.cs:83-86 | every existing extension is kept and each new key brings its value |
| SimpleProblemDetailsService.Overwritten | problem-details/simple/Core/ProblemDetail/ProblemDetailsService.cs:82-90 | detail, instance, status, title and type are the built problem's; extensions are merged; validation data kept |
| SimpleProblemDetailsService.ProblemDetailsService.constructor | problem-details/simple/Core/ProblemDetail/ProblemDetailsService.cs:10-15 | the writers, environment, mappers and fallback are stored |
| SimpleProblemDetailsService.ProblemDetailsService.CreateProblemDetailFromException | problem-details/simple/Core/ProblemDetail/ProblemDetailsService.cs:51-91 | a mapper throw propagates before anything changes; otherwise the response takes the chosen status and the problem is Overwritten by the one built for it |
| SimpleProblemDetailsService.ProblemDetailsService.MappedStatus | problem-details/simple/Core/ProblemDetail/ProblemDetailsService.cs:65-77 | the foreach over every mapper gives ServiceStatus and changes nothing |
| SimpleProblemDetailsService.ProblemDetailsService.CopyInto | problem-details/simple/Core/ProblemDetail/ProblemDetailsService.cs:82-90 | the context's problem ends as Overwritten of its old value |
| SimpleProblemDetailsService.ProblemDetailsService.MergeExtensions | problem-details/simple/Core/ProblemDetail/ProblemDetailsService.cs:83-86 | the TryAdd loop leaves Merged of the old extensions |
| SimpleProblemDetailsService.ProblemDetailsService.WriteAsync | problem-details/simple/Core/ProblemDetail/ProblemDetailsService.cs:17-49 | null throws; a started or non-error response is left alone; otherwise the problem is rebuilt and the first writer that can write is used |
| SimpleProblemDetailsService.NoExceptionGivesStatusZero | problem-details/simple/Core/ProblemDetail/ProblemDetailsService.cs:65-79 | without an exception the response still ends with status 0 and the problem has no title or detail |
| Net8ExceptionHandler.DefaultExceptionHandler.constructor | problem-details/exception-handler-dotnet8/DefaultExceptionHandler.cs:9-14 | the environment and mappers are stored |
| Net8ExceptionHandler.DefaultExceptionHandler.TryHandleAsync | problem-details/exception-handler-dotnet8/DefaultExceptionHandler.cs:16-36 | returns true whenever it returns, having set the status and handed on the problem built for the exception; a mapper throw changes nothing |
| Net8ExceptionHandler.DefaultExceptionHandler.CreateProblemDetailFromException | problem-details/exception-handler-dotnet8/DefaultExceptionHandler.cs:38-62 | the chosen status goes to the response and the problem is the typed problem for it |
| Net8ExceptionHandler.NullMappersUseDefault | problem-details/exception-handler-dotnet8/DefaultExceptionHandler.cs:55-57 | null mappers use the sample's mapper: BadRequest 400, NotFound 404, Validation 400, Conflict 409 |
| Net8ExceptionHandler.EmptyMappersGiveZero | problem-details/exception-handler-dotnet8/DefaultExceptionHandler.cs:55-57 | an empty mapper sequence gives 0 and the fallback is never asked |
| Net8ExceptionHandler.HandedProblemShape | problem-details/exception-handler-dotnet8/DefaultExceptionHandler.cs:64-91 | outside development only the trace id is an extension, and the title is the raw type name |
| SimpleNet8Registration.CapturedException | problem-details/simple-dotnet8/Core/ProblemDetail/RegistrationExtensions.cs:40 | the exception feature's error when present, else the context's exception |
| SimpleNet8Registration.ProblemDetailsContext.constructor | problem-details/simple-dotnet8/Core/ProblemDetail/RegistrationExtensions.cs:34 | the context holds the request context, the exception and the problem |
| SimpleNet8Registration.CustomizeProblemDetails | problem-details/simple-dotnet8/Core/ProblemDetail/RegistrationExtensions.cs:34-55 | the captured exception is mapped through the resolved mappers; the response takes the status and the context's problem is replaced |
| SimpleNet8Registration.CreateProblemDetailFromException | problem-details/simple-dotnet8/Core/ProblemDetail/RegistrationExtensions.cs:64-86 | a mapper throw changes nothing; otherwise the response takes the status before the problem is replaced by the typed problem |
| SimpleNet8Registration.FallbackNeverAsked | problem-details/simple-dotnet8/Core/ProblemDetail/RegistrationExtensions.cs:42-54 | the resolved sequence is never null, so the fallback never matters and no mapper gives 0 |

## Left out

- Connections, channels' network I/O, JSON serialization and message properties are not
  modelled; an envelope is a message id and a body. Queue declaration is reduced to the
  exception it throws on a closed channel.
- Logging and the stopwatch timing are left out; they do not affect state.
- Concurrency is left out: broker callbacks are delivered one at a time, in order, at the
  wait or poll that collects them.
- The clock and the broker are script parameters (`Broker`, `Wait`, `Poll`).
- Republish rounds are bounded by the `later` sequence; a call that runs out of rounds reports
  `Unfinished`.
- The unused `TimeOut` of the sync publishers is kept as a field but drives nothing.
- Delivery tags are `nat`, not 64-bit `ulong`; no publish count reaches the wrap-around.
- `Get<T>`'s `default(T)` for a value type is `None`, not a zero value.
- WaitForConfirmsOrDie failures other than a nack, a timeout or a closed channel are not modelled.
- Humanizer's `Humanize(LetterCasing.Title)` is simplified to a space before each inner
  capital; only the round-trip through removing spaces is relied on. The real Humanizer also
  turns underscores into spaces, so `Not_Found` and `NotFound` share a title there, not in the model.
- `TypedResults.Problem`'s own fill of Type and Title from the framework's status table is not
  modelled; the typed problem keeps a null type.
- `ApiBehaviorOptions.ClientErrorMapping`, `Activity.Current` and the hosting environment are
  parameters.
- A problem-details writer is reduced to its `CanWrite` answer; the JSON writers are left out.
- The exception extension's Headers, Endpoint and RouteValues are not modelled; it keeps the
  exception text and the path.
- `ModelStateDictionary` is reduced to its errors map.
- The controllers sample's `configure` callback is reduced to the mappers it registers.
- ControllersFactory.CustomProblemDetailsFactory.constructor: the throw on null options is not
  modelled, because options are never null in the model.
- `HttpContext.TraceIdentifier` is never null in the model.
- Assembly scanning and `RegisterAllMappers`, and the `AddCustomProblemDetails` registration of
  the simple .NET 8 sample, are not part of this model.
- The simple and simple .NET 8 samples' own `DefaultProblemDetailMapper` is not part of this
  model; it is the `fallback` parameter.
- The problem-details-service sample registers its own `DefaultProblemDetailMapper`, which is
  not part of this model; the customize sample's mapper (`TitledStatusMapper`) and its
  `(status, title)` pair type stand in for it, and the service's mapper is a parameter.
- ProblemModel.IsDevelopment: the case of ASCII letters is ignored, as `OrdinalIgnoreCase` does;
  its case folding of letters outside ASCII is not modelled, which matters only for non-ASCII names.
- The middleware, controllers and endpoints that call into these components are left out.

## Findings

| source | as written | input that shows it | evidently intended | confidence | as-written member | corrected member |
|---|---|---|---|---|---|---|
| problem-details-exception-handler/dotnet-6-controllers-problem-details/Core/ProblemDetail/DependencyInjectionExtensions.cs:20-26 | the built-in mapping is registered with `Map`, under `Exception`, before `configure` runs, so it matches every exception first | the caller maps `MyException`; a `MyException` is thrown; the built-in mapping returns null, and the caller's mapper is never asked | the caller's mappers are consulted before the built-in catch-all | medium, not executed | ControllerRegistration.ConfiguredMappersUnreached | ControllerRegistration.UserMappersDecideFirst |
| problem-details-exception-handler/dotnet-7-problem-details-service/Core/ProblemDetail/ProblemDetailsService.cs:74-83 | the early return needs a non-positive status AND a non-empty title, so a mapped pair with a non-positive status and an empty (or null) title gets through and sets the response status to that value | a mapper answering `(0, "")` for some exception on a 500 response: the status becomes 0 and no writer writes the problem | skip the mapping whenever the mapped status is not positive | medium, not executed: whether this sample's own mapper ever answers such a pair is not known, since that mapper is not part of this model | Net7ProblemDetailsService.UntitledNonPositiveWritesNothing | Net7ProblemDetailsService.IntendedMappingKeepsStatus |
