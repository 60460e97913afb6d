/**
 * The batch-sync publisher: each message is recorded and published on its own; after every
 * `BatchSize` messages, and after the last one, it calls WaitForConfirmsOrDie with a 5-second
 * timeout. Whatever the nack handler queued is republished on a new channel afterwards.
 */
module SyncBatchPublisher {
  import opened Transport
  import opened Batching
  import opened PublisherConfirm

  /** WaitForConfirmsOrDie's timeout in this publisher. */
  const WaitSeconds := 5

  /** The whole publish call on a fresh channel: the batch phase over `waits`, then one
      republish round per element of `later` while the nack handler left messages queued. */
  function PublishSpec(m0: map<nat, Envelope>, messages: seq<Envelope>, batchSize: int,
                       waits: seq<Wait>, later: seq<seq<Wait>>): Report
    decreases |later|
  {
    var batches := Batches(messages, batchSize);
    var book := BatchBook(Bookkeeping(m0, []), batches, 1, 0, waits);
    var log := BatchFrames(batches, 1, 0, waits, WaitSeconds);
    if BatchDied(batches, 0, waits) then Report(WaitFailed, book.outstanding, log)
    else if book.retry == [] then Report(Completed, book.outstanding, log)
    else if later == [] then Report(Unfinished(book.retry), book.outstanding, log)
    else
      var r := PublishSpec(book.outstanding, book.retry, batchSize, later[0], later[1..]);
      Report(r.outcome, r.outstanding, log + r.log)
  }

  /** What is left of the batch phase once the first `sent` messages are closed into `k`
      chunks: `todo` are the chunks still to send, and `died0`, `log0` and `book0` say how the
      phase ends from the log `logStart` and the bookkeeping `snapStart` of that moment. */
  ghost predicate Ahead(messages: seq<Envelope>, batchSize: int, waits: seq<Wait>, sent: nat, k: nat,
                        todo: seq<seq<Envelope>>, logStart: seq<Frame>, snapStart: Bookkeeping,
                        died0: bool, log0: seq<Frame>, book0: Bookkeeping)
  {
    && sent <= |messages|
    && todo == Batches(messages[sent..], batchSize)
    && died0 == BatchDied(todo, k, waits)
    && log0 == logStart + BatchFrames(todo, 1 + sent, k, waits, WaitSeconds)
    && book0 == BatchBook(snapStart, todo, 1 + sent, k, waits)
  }

  /** The messages of the open chunk, numbered from `1 + sent`, are recorded and on the wire. */
  ghost predicate InChunk(log: seq<Frame>, snap: Bookkeeping, logStart: seq<Frame>, snapStart: Bookkeeping,
                          sent: nat, chunk: seq<Envelope>)
  {
    && log == logStart + PublishedFrames(1 + sent, chunk)
    && snap == Record(snapStart, 1 + sent, chunk)
  }

  /** The publishing loop before message `i`: the open chunk `messages[sent..i]` holds
      `batchChunk` messages, fewer than a batch, and is empty once every message is sent. */
  ghost predicate Turning(messages: seq<Envelope>, batchSize: int, waits: seq<Wait>, i: nat, batchChunk: nat, sent: nat, k: nat,
                          chunk: seq<Envelope>, todo: seq<seq<Envelope>>, logStart: seq<Frame>, snapStart: Bookkeeping,
                          log: seq<Frame>, snap: Bookkeeping, died0: bool, log0: seq<Frame>, book0: Bookkeeping)
  {
    && sent <= i <= |messages| && batchChunk == i - sent && chunk == messages[sent..i]
    && (0 < batchSize ==> batchChunk < batchSize)
    && (i == |messages| ==> sent == i)
    && Ahead(messages, batchSize, waits, sent, k, todo, logStart, snapStart, died0, log0, book0)
    && InChunk(log, snap, logStart, snapStart, sent, chunk)
  }

  lemma AheadAtStart(messages: seq<Envelope>, batchSize: int, waits: seq<Wait>, snap: Bookkeeping)
    ensures var all := Batches(messages, batchSize);
            Ahead(messages, batchSize, waits, 0, 0, all, [], snap, BatchDied(all, 0, waits),
                  BatchFrames(all, 1, 0, waits, WaitSeconds), BatchBook(snap, all, 1, 0, waits))
    ensures InChunk([], snap, [], snap, 0, [])
  {
    assert messages[0..] == messages;
    assert [] + BatchFrames(Batches(messages, batchSize), 1, 0, waits, WaitSeconds) == BatchFrames(Batches(messages, batchSize), 1, 0, waits, WaitSeconds);
  }

  lemma AheadAtEnd(messages: seq<Envelope>, batchSize: int, waits: seq<Wait>, sent: nat, k: nat,
                   todo: seq<seq<Envelope>>, logStart: seq<Frame>, snapStart: Bookkeeping,
                   died0: bool, log0: seq<Frame>, book0: Bookkeeping, log: seq<Frame>, snap: Bookkeeping, chunk: seq<Envelope>)
    requires sent == |messages| && chunk == []
    requires Ahead(messages, batchSize, waits, sent, k, todo, logStart, snapStart, died0, log0, book0)
    requires InChunk(log, snap, logStart, snapStart, sent, chunk)
    ensures !died0 && log0 == log && book0 == snap
  {
    assert messages[sent..] == [];
    assert logStart + [] == logStart;
  }

  /** Right after a wait, the next chunk is empty and starts where the wait left the log and the
      bookkeeping. */
  lemma ChunkOpened(messages: seq<Envelope>, batchSize: int, waits: seq<Wait>, next: nat, k: nat,
                    todo: seq<seq<Envelope>>, log: seq<Frame>, snap: Bookkeeping,
                    died0: bool, log0: seq<Frame>, book0: Bookkeeping)
    requires next <= |messages| && todo == Batches(messages[next..], batchSize)
    requires died0 == BatchDied(todo, k, waits)
    requires log0 == log + BatchFrames(todo, 1 + next, k, waits, WaitSeconds)
    requires book0 == BatchBook(snap, todo, 1 + next, k, waits)
    ensures Ahead(messages, batchSize, waits, next, k, todo, log, snap, died0, log0, book0)
    ensures InChunk(log, snap, log, snap, next, [])
  {
    assert log + [] == log;
  }

  class SyncBatchPublisherConfirm {
    /** `_messagesDeliveryTagsDictionary` and the nack queue the confirm handlers write to. */
    const tracker: Tracker
    /** Declared with its default of 60 seconds; this publisher never reads it. */
    var timeOut: int
    var batchSize: int

    constructor ()
      ensures timeOut == 60 && batchSize == 100
      ensures fresh(tracker) && tracker.deliveryTags == map[] && tracker.unsuccessful == []
    {
      tracker := new Tracker();
      timeOut := 60;
      batchSize := 100;
    }

    /** Publishing one message is publishing the one-element list. */
    method PublishMessage(message: Envelope, waits: seq<Wait>, later: seq<seq<Wait>>) returns (outcome: PublishOutcome, log: seq<Frame>)
      modifies tracker
      ensures Report(outcome, tracker.deliveryTags, log)
              == PublishSpec(old(tracker.deliveryTags), [message], batchSize, waits, later)
    {
      outcome, log := PublishAsync([message], waits, later);
    }

    /** `waits` answers this call's waits; each republish round takes the next element of `later`. */
    method PublishAsync(messages: seq<Envelope>, waits: seq<Wait>, later: seq<seq<Wait>>) returns (outcome: PublishOutcome, log: seq<Frame>)
      modifies tracker
      decreases |later|
      ensures Report(outcome, tracker.deliveryTags, log)
              == PublishSpec(old(tracker.deliveryTags), messages, batchSize, waits, later)
    {
      tracker.ResetRetryQueue();
      var channel := new Channel();
      channel.ConfirmSelect();
      var died := PublishAll(channel, messages, waits);
      if died {
        return WaitFailed, channel.log;
      }
      if |tracker.unsuccessful| > 0 {
        if later == [] {
          return Unfinished(tracker.unsuccessful), channel.log;
        }
        var rest;
        outcome, rest := PublishAsync(tracker.unsuccessful, later[0], later[1..]);
        log := channel.log + rest;
      } else {
        outcome, log := Completed, channel.log;
      }
    }

    /** The publishing loop of PublishAsync: record and publish each message, and wait for
        confirms whenever `batchChunk` reaches the batch size or the message is the last. */
    method PublishAll(channel: Channel, messages: seq<Envelope>, waits: seq<Wait>) returns (died: bool)
      requires channel.open && channel.nextPublishSeqNo == 1 && channel.log == []
      modifies channel, tracker
      ensures var batches := Batches(messages, batchSize);
              && died == BatchDied(batches, 0, waits)
              && channel.log == BatchFrames(batches, 1, 0, waits, WaitSeconds)
              && tracker.Snapshot() == BatchBook(old(tracker.Snapshot()), batches, 1, 0, waits)
    {
      ghost var all := Batches(messages, batchSize);
      ghost var died0, log0, book0 := BatchDied(all, 0, waits), BatchFrames(all, 1, 0, waits, WaitSeconds),
                                      BatchBook(tracker.Snapshot(), all, 1, 0, waits);
      ghost var todo, sent := all, 0;
      ghost var logStart, snapStart, chunk := channel.log, tracker.Snapshot(), [];
      AheadAtStart(messages, batchSize, waits, snapStart);
      var batchChunk := 0;
      var batchesSent := 0;
      var i := 0;
      while i < |messages|
        invariant channel.open && channel.nextPublishSeqNo == 1 + i
        invariant Turning(messages, batchSize, waits, i, batchChunk, sent, batchesSent, chunk, todo, logStart, snapStart,
                          channel.log, tracker.Snapshot(), died0, log0, book0)
      {
        batchChunk, batchesSent, died, todo, sent, chunk, logStart, snapStart :=
          PublishOne(channel, messages, i, batchChunk, batchesSent, waits, todo, sent, chunk, logStart, snapStart, died0, log0, book0);
        if died {
          return;
        }
        i := i + 1;
      }
      AheadAtEnd(messages, batchSize, waits, sent, batchesSent, todo, logStart, snapStart, died0, log0, book0,
                 channel.log, tracker.Snapshot(), chunk);
      died := false;
    }

    /** One turn of the publishing loop: TryAdd the message under the channel's next sequence
        number, publish it, count it, and wait for confirms when the chunk is full or the
        message's sequence number equals the message count. */
    method PublishOne(channel: Channel, messages: seq<Envelope>, i: nat, batchChunk: nat, batchesSent: nat, waits: seq<Wait>,
                      ghost todo: seq<seq<Envelope>>, ghost sent: nat, ghost chunk: seq<Envelope>,
                      ghost logStart: seq<Frame>, ghost snapStart: Bookkeeping,
                      ghost died0: bool, ghost log0: seq<Frame>, ghost book0: Bookkeeping)
      returns (batchChunk': nat, batchesSent': nat, died: bool, ghost todo': seq<seq<Envelope>>, ghost sent': nat,
               ghost chunk': seq<Envelope>, ghost logStart': seq<Frame>, ghost snapStart': Bookkeeping)
      requires i < |messages| && channel.open && channel.nextPublishSeqNo == 1 + i
      requires Turning(messages, batchSize, waits, i, batchChunk, sent, batchesSent, chunk, todo, logStart, snapStart,
                       channel.log, tracker.Snapshot(), died0, log0, book0)
      modifies channel, tracker
      ensures died ==> died0 && log0 == channel.log && book0 == tracker.Snapshot()
      ensures !died ==> channel.open && channel.nextPublishSeqNo == 2 + i
      ensures !died ==> Turning(messages, batchSize, waits, i + 1, batchChunk', sent', batchesSent', chunk', todo',
                                logStart', snapStart', channel.log, tracker.Snapshot(), died0, log0, book0)
    {
      var currentSequenceNumber;
      currentSequenceNumber, chunk' := PublishNext(channel, messages, i, sent, chunk, logStart, snapStart);
      batchChunk' := batchChunk + 1;
      batchesSent', died, todo', sent', logStart', snapStart' := batchesSent, false, todo, sent, logStart, snapStart;
      if batchChunk' == batchSize || (batchChunk' != batchSize && currentSequenceNumber == |messages|) {
        sent', batchesSent' := i + 1, batchesSent + 1;
        died, todo', chunk', logStart', snapStart' :=
          CloseChunk(channel, messages, i, batchesSent, waits, todo, sent, sent', batchesSent', chunk', logStart, snapStart, died0, log0, book0);
        batchChunk' := 0;
      } else {
        assert 0 < batchSize ==> batchChunk' < batchSize;
        assert i + 1 < |messages|;
      }
    }

    /** The chunk `messages[sent..i + 1]` is full or ends at the last message: wait for its
        confirms, after which the next chunk starts empty at `next`. */
    method CloseChunk(channel: Channel, messages: seq<Envelope>, i: nat, batchesSent: nat, waits: seq<Wait>,
                      ghost todo: seq<seq<Envelope>>, ghost sent: nat, ghost next: nat, ghost k': nat, ghost chunk: seq<Envelope>,
                      ghost logStart: seq<Frame>, ghost snapStart: Bookkeeping,
                      ghost died0: bool, ghost log0: seq<Frame>, ghost book0: Bookkeeping)
      returns (died: bool, ghost todo': seq<seq<Envelope>>, ghost chunk': seq<Envelope>, ghost logStart': seq<Frame>, ghost snapStart': Bookkeeping)
      requires sent <= i < |messages| && next == i + 1 && k' == batchesSent + 1 && chunk == messages[sent..next]
      requires 0 < batchSize ==> next - sent <= batchSize
      requires next - sent == batchSize || next == |messages|
      requires channel.open
      requires Ahead(messages, batchSize, waits, sent, batchesSent, todo, logStart, snapStart, died0, log0, book0)
      requires InChunk(channel.log, tracker.Snapshot(), logStart, snapStart, sent, chunk)
      modifies channel, tracker
      ensures channel.open == !died && channel.nextPublishSeqNo == old(channel.nextPublishSeqNo)
      ensures died ==> died0 && log0 == channel.log && book0 == tracker.Snapshot()
      ensures !died ==> chunk' == messages[next..i + 1]
      ensures !died ==> Ahead(messages, batchSize, waits, next, k', todo', logStart', snapStart', died0, log0, book0)
      ensures !died ==> InChunk(channel.log, tracker.Snapshot(), logStart', snapStart', next, chunk')
    {
      todo' := Batches(messages[next..], batchSize);
      FlushIsNextBatch(messages, sent, next, batchSize, todo, chunk);
      died := AwaitConfirms(channel, batchesSent, waits, chunk, 1 + sent, 1 + next, k',
                            todo, todo', logStart, snapStart, died0, log0, book0);
      logStart', snapStart', chunk' := channel.log, tracker.Snapshot(), [];
      if !died {
        ChunkOpened(messages, batchSize, waits, next, k', todo', logStart', snapStart', died0, log0, book0);
      }
    }

    /** TryAdd the i-th message under the channel's next sequence number, then publish it. */
    method PublishNext(channel: Channel, messages: seq<Envelope>, i: nat,
                       ghost sent: nat, ghost chunk: seq<Envelope>, ghost logStart: seq<Frame>, ghost snapStart: Bookkeeping)
      returns (currentSequenceNumber: nat, ghost chunk': seq<Envelope>)
      requires sent <= i < |messages| && chunk == messages[sent..i] && channel.open && channel.nextPublishSeqNo == 1 + i
      requires InChunk(channel.log, tracker.Snapshot(), logStart, snapStart, sent, chunk)
      modifies channel, tracker
      ensures currentSequenceNumber == 1 + i && chunk' == messages[sent..i + 1]
      ensures channel.open && channel.nextPublishSeqNo == 2 + i
      ensures InChunk(channel.log, tracker.Snapshot(), logStart, snapStart, sent, chunk')
    {
      ghost var logBefore, snapBefore := channel.log, tracker.Snapshot();
      currentSequenceNumber := channel.nextPublishSeqNo;
      var added := tracker.TryAdd(currentSequenceNumber, messages[i]);
      var threw := channel.BasicPublish(messages[i]);
      chunk' := chunk + [messages[i]];
      LogGrows(logStart, 1 + sent, chunk, messages[i], logBefore, channel.log);
      SnapshotGrows(snapStart, 1 + sent, chunk, messages[i], snapBefore, tracker.Snapshot());
      QueueNext(messages, sent, i, chunk);
    }

    /** WaitForConfirmsOrDie after the chunk `chunk`, while the wait's confirms reach the
        handlers, seen against the whole batch phase: `todo` is what remains of it, and
        `died0`, `log0`, `book0` are how it ends. */
    method AwaitConfirms(channel: Channel, batchesSent: nat, waits: seq<Wait>, ghost chunk: seq<Envelope>, ghost start: nat, ghost next: nat, ghost k': nat,
                         ghost todo: seq<seq<Envelope>>, ghost rest: seq<seq<Envelope>>,
                         ghost logStart: seq<Frame>, ghost snapStart: Bookkeeping,
                         ghost died0: bool, ghost log0: seq<Frame>, ghost book0: Bookkeeping) returns (died: bool)
      requires channel.open && todo == [chunk] + rest && next == start + |chunk| && k' == batchesSent + 1
      requires channel.log == logStart + PublishedFrames(start, chunk)
      requires tracker.Snapshot() == Record(snapStart, start, chunk)
      requires died0 == BatchDied(todo, batchesSent, waits)
      requires log0 == logStart + BatchFrames(todo, start, batchesSent, waits, WaitSeconds)
      requires book0 == BatchBook(snapStart, todo, start, batchesSent, waits)
      modifies channel, tracker
      ensures channel.open == !died && channel.nextPublishSeqNo == old(channel.nextPublishSeqNo)
      ensures died ==> died0 && log0 == channel.log && book0 == tracker.Snapshot()
      ensures !died ==> died0 == BatchDied(rest, k', waits)
      ensures !died ==> log0 == channel.log + BatchFrames(rest, next, k', waits, WaitSeconds)
      ensures !died ==> book0 == BatchBook(tracker.Snapshot(), rest, next, k', waits)
    {
      var w := WaitAt(waits, batchesSent);
      tracker.Deliver(w.events);
      died := channel.WaitForConfirmsOrDie(WaitSeconds, w);
      BatchDiedFlush(todo, chunk, rest, batchesSent, k', waits, died0);
      BatchFramesFlush(todo, chunk, rest, start, next, batchesSent, k', waits, WaitSeconds,
                       logStart, channel.log, log0);
      BatchBookFlush(todo, chunk, rest, start, next, batchesSent, k', waits,
                     snapStart, tracker.Snapshot(), book0);
    }
  }

  /** Every nack makes the wait that collects it throw, so the republish branch is never taken:
      the call completes or fails with WaitForConfirmsOrDie, whatever later rounds would do. */
  lemma NeverRepublishes(m0: map<nat, Envelope>, messages: seq<Envelope>, batchSize: int,
                         waits: seq<Wait>, later: seq<seq<Wait>>)
    ensures var r := PublishSpec(m0, messages, batchSize, waits, later);
            && (r.outcome == Completed || r.outcome == WaitFailed)
            && r == PublishSpec(m0, messages, batchSize, waits, [])
  {
    BatchRetriesOnlyOnDeath(Bookkeeping(m0, []), Batches(messages, batchSize), 1, 0, waits);
  }

  /** A completed call waited exactly once per chunk, that is ceil(|messages| / BatchSize)
      times for a positive batch size; a failed one at most that often. */
  lemma WaitsOncePerChunk(m0: map<nat, Envelope>, messages: seq<Envelope>, batchSize: int,
                          waits: seq<Wait>, later: seq<seq<Wait>>)
    ensures var r := PublishSpec(m0, messages, batchSize, waits, later);
            var n := WaitCount(r.log);
            && n <= |Batches(messages, batchSize)|
            && (r.outcome == Completed ==> n == |Batches(messages, batchSize)|)
            && (r.outcome == Completed && 0 < batchSize ==> (n - 1) * batchSize < |messages| <= n * batchSize)
  {
    NeverRepublishes(m0, messages, batchSize, waits, later);
    BatchFramesWaits(Batches(messages, batchSize), 1, 0, waits, WaitSeconds);
    BatchesCount(messages, batchSize);
  }

  /** A completed call published every message once, in input order, the i-th with delivery
      tag i + 1; a failed one published a prefix of them the same way. */
  lemma PublishesInOrder(m0: map<nat, Envelope>, messages: seq<Envelope>, batchSize: int,
                         waits: seq<Wait>, later: seq<seq<Wait>>)
    ensures var r := PublishSpec(m0, messages, batchSize, waits, later);
            && (r.outcome == Completed ==> Publications(r.log) == PublishedFrames(1, messages))
            && (r.outcome == WaitFailed ==>
                  exists k :: 0 <= k <= |messages| && Publications(r.log) == PublishedFrames(1, messages[..k]))
  {
    var batches := Batches(messages, batchSize);
    NeverRepublishes(m0, messages, batchSize, waits, later);
    BatchesPartition(messages, batchSize);
    BatchFramesPublishInOrder(batches, 1, 0, waits, WaitSeconds);
    PublishedFramesNumbered(1, messages);
    var pubs := Publications(BatchFrames(batches, 1, 0, waits, WaitSeconds));
    assert |pubs| <= |messages|;
  }

  /** Every delivery tag the call leaves outstanding holds an envelope that was outstanding
      before the call or is one of the messages. */
  lemma OutstandingConserved(m0: map<nat, Envelope>, messages: seq<Envelope>, batchSize: int,
                             waits: seq<Wait>, later: seq<seq<Wait>>)
    ensures var r := PublishSpec(m0, messages, batchSize, waits, later);
            forall k :: k in r.outstanding ==> r.outstanding[k] in m0.Values || r.outstanding[k] in messages
  {
    NeverRepublishes(m0, messages, batchSize, waits, later);
    BatchPhaseAccounted(m0, messages, batchSize, waits);
  }
}
