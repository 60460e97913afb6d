/**
 * The batch-async publisher: messages go out in publish batches of `BatchSize`, each batch
 * followed by WaitForConfirmsOrDie; then it polls until every delivery tag is confirmed and
 * republishes whatever was nacked, on a new channel.
 */
module BatchAsyncPublisher {
  import opened Wrappers
  import opened Transport
  import opened Batching
  import opened PublisherConfirm

  /** WaitForConfirmsOrDie's timeout in this publisher. */
  const BatchWaitSeconds := 50

  /** The whole publish call: the batch phase on a fresh channel, the drain, then one
      republish round per element of `later` for as long as nacks leave messages to retry. */
  function PublishSpec(m0: map<nat, Envelope>, messages: seq<Envelope>, batchSize: int, timeOut: int,
                       broker: Broker, later: seq<Broker>): Report
    decreases |later|
  {
    var batches := Batches(messages, batchSize);
    var book := BatchBook(Bookkeeping(m0, []), batches, 1, 0, broker.waits);
    var log := BatchFrames(batches, 1, 0, broker.waits, BatchWaitSeconds);
    if BatchDied(batches, 0, broker.waits) then Report(WaitFailed, book.outstanding, log)
    else
      var d := Drain(book, broker.polls, timeOut, false);
      if d.Expired? then Report(DrainTimedOut, d.book.outstanding, log)
      else if d.book.retry == [] then Report(Completed, d.book.outstanding, log)
      else if later == [] then Report(Unfinished(d.book.retry), d.book.outstanding, log)
      else
        var r := PublishSpec(d.book.outstanding, d.book.retry, batchSize, timeOut, later[0], later[1..]);
        Report(r.outcome, r.outstanding, log + r.log)
  }

  /** The publishing loop's link to how its batch phase ends: `todo` is what remains of the
      phase from message `sent` on, and publishing it on a channel whose log is `log` and next
      sequence number `cur`, with `k` batches already sent and the tracker at `snap`, ends the
      phase as `died0`, `log0` and `book0` say. */
  ghost predicate Linked(messages: seq<Envelope>, batchSize: int, waits: seq<Wait>, sent: nat, todo: seq<seq<Envelope>>,
                         cur: nat, k: nat, log: seq<Frame>, snap: Bookkeeping, died0: bool, log0: seq<Frame>, book0: Bookkeeping)
  {
    && sent <= |messages|
    && todo == Batches(messages[sent..], batchSize)
    && died0 == BatchDied(todo, k, waits)
    && log0 == log + BatchFrames(todo, cur, k, waits, BatchWaitSeconds)
    && book0 == BatchBook(snap, todo, cur, k, waits)
  }

  class PublisherConfirmBatchAsync {
    /** `_messagesDeliveryTagsDictionary` and the nack queue the confirm handlers write to. */
    const tracker: Tracker
    var timeOut: int
    var batchSize: int

    constructor ()
      ensures timeOut == 60 && batchSize == 100
      ensures fresh(tracker) && tracker.deliveryTags == map[] && tracker.unsuccessful == []
    {
      tracker := new Tracker();
      timeOut := 60;
      batchSize := 100;
    }

    /** Publishing one message is publishing the one-element list. */
    method PublishMessage(message: Envelope, broker: Broker, later: seq<Broker>) returns (outcome: PublishOutcome, log: seq<Frame>)
      modifies tracker
      ensures Report(outcome, tracker.deliveryTags, log)
              == PublishSpec(old(tracker.deliveryTags), [message], batchSize, timeOut, broker, later)
    {
      outcome, log := PublishAsync([message], broker, later);
    }

    /** `broker` answers this call; each republish round takes the next element of `later`. */
    method PublishAsync(messages: seq<Envelope>, broker: Broker, later: seq<Broker>) returns (outcome: PublishOutcome, log: seq<Frame>)
      modifies tracker
      decreases |later|
      ensures Report(outcome, tracker.deliveryTags, log)
              == PublishSpec(old(tracker.deliveryTags), messages, batchSize, timeOut, broker, later)
    {
      tracker.ResetRetryQueue();
      var channel := new Channel();
      channel.ConfirmSelect();
      var died := PublishInBatches(channel, messages, broker.waits);
      if died {
        return WaitFailed, channel.log;
      }
      var timedOut := tracker.WaitUntilConditionMet(broker.polls, Some(timeOut));
      if timedOut {
        return DrainTimedOut, channel.log;
      }
      if |tracker.unsuccessful| > 0 {
        if later == [] {
          return Unfinished(tracker.unsuccessful), channel.log;
        }
        var rest;
        outcome, rest := PublishAsync(tracker.unsuccessful, later[0], later[1..]);
        log := channel.log + rest;
      } else {
        outcome, log := Completed, channel.log;
      }
    }

    /** The publishing loop of PublishAsync: queue each message; when the queue is full, or
        holds the last message, record and publish it as a batch and wait for its confirms. */
    method PublishInBatches(channel: Channel, messages: seq<Envelope>, waits: seq<Wait>) returns (died: bool)
      requires channel.open && channel.nextPublishSeqNo == 1 && channel.log == []
      modifies channel, tracker
      ensures var batches := Batches(messages, batchSize);
              && died == BatchDied(batches, 0, waits)
              && channel.log == BatchFrames(batches, 1, 0, waits, BatchWaitSeconds)
              && tracker.Snapshot() == BatchBook(old(tracker.Snapshot()), batches, 1, 0, waits)
    {
      ghost var all := Batches(messages, batchSize);
      ghost var died0, log0, book0 := BatchDied(all, 0, waits), BatchFrames(all, 1, 0, waits, BatchWaitSeconds),
                                      BatchBook(tracker.Snapshot(), all, 1, 0, waits);
      ghost var todo := all;
      ghost var sent := 0;
      assert [] + log0 == log0;
      var batchQueue: seq<Envelope> := [];
      var currentSequenceNumber := channel.nextPublishSeqNo;
      var batchesSent := 0;
      var i := 0;
      while i < |messages|
        invariant 0 <= sent <= i <= |messages| && batchQueue == messages[sent..i]
        invariant 0 < batchSize ==> |batchQueue| < batchSize
        invariant i == |messages| ==> sent == i
        invariant channel.open && currentSequenceNumber == channel.nextPublishSeqNo == 1 + sent
        invariant Linked(messages, batchSize, waits, sent, todo, currentSequenceNumber, batchesSent,
                         channel.log, tracker.Snapshot(), died0, log0, book0)
      {
        batchQueue, currentSequenceNumber, batchesSent, died, todo, sent :=
          Enqueue(channel, messages, i, batchQueue, currentSequenceNumber, batchesSent, waits, todo, sent, died0, log0, book0);
        if died {
          return;
        }
        i := i + 1;
      }
      assert messages[sent..] == [];
      assert channel.log + [] == channel.log;
      died := false;
    }

    /** One turn of the publishing loop: queue the i-th message and flush the queue when it is
        full or ends at the last message. */
    method Enqueue(channel: Channel, messages: seq<Envelope>, i: nat, batchQueue: seq<Envelope>,
                   currentSequenceNumber: nat, batchesSent: nat, waits: seq<Wait>,
                   ghost todo: seq<seq<Envelope>>, ghost sent: nat,
                   ghost died0: bool, ghost log0: seq<Frame>, ghost book0: Bookkeeping)
      returns (queue': seq<Envelope>, next: nat, batchesSent': nat, died: bool, ghost todo': seq<seq<Envelope>>, ghost sent': nat)
      requires sent <= i < |messages| && batchQueue == messages[sent..i]
      requires 0 < batchSize ==> |batchQueue| < batchSize
      requires channel.open && currentSequenceNumber == channel.nextPublishSeqNo == 1 + sent
      requires Linked(messages, batchSize, waits, sent, todo, currentSequenceNumber, batchesSent,
                      channel.log, tracker.Snapshot(), died0, log0, book0)
      modifies channel, tracker
      ensures died ==> died0 && log0 == channel.log && book0 == tracker.Snapshot()
      ensures !died ==> sent' <= i + 1 && queue' == messages[sent'..i + 1]
      ensures !died ==> 0 < batchSize ==> |queue'| < batchSize
      ensures !died ==> i + 1 == |messages| ==> sent' == i + 1
      ensures !died ==> channel.open && next == channel.nextPublishSeqNo == 1 + sent'
      ensures !died ==> Linked(messages, batchSize, waits, sent', todo', next, batchesSent',
                               channel.log, tracker.Snapshot(), died0, log0, book0)
    {
      QueueNext(messages, sent, i, batchQueue);
      queue' := batchQueue + [messages[i]];
      next, batchesSent', died, todo', sent' := currentSequenceNumber, batchesSent, false, todo, sent;
      var full := |queue'| == batchSize
                  || (|queue'| != batchSize && (|queue'| - 1) + currentSequenceNumber == |messages|);
      FlushPoint(|messages|, sent, i, |queue'|, currentSequenceNumber, batchSize, full);
      if full {
        queue', next, batchesSent', died, todo', sent' :=
          FlushQueue(channel, messages, i, queue', currentSequenceNumber, batchesSent, waits, todo, sent, died0, log0, book0);
      }
    }

    /** The flushing turn of the loop: the queue `messages[sent..i + 1]` goes out as the next
        batch and the loop goes on with an empty queue. */
    method FlushQueue(channel: Channel, messages: seq<Envelope>, i: nat, batchQueue: seq<Envelope>,
                      currentSequenceNumber: nat, batchesSent: nat, waits: seq<Wait>,
                      ghost todo: seq<seq<Envelope>>, ghost sent: nat,
                      ghost died0: bool, ghost log0: seq<Frame>, ghost book0: Bookkeeping)
      returns (queue': seq<Envelope>, next: nat, batchesSent': nat, died: bool, ghost todo': seq<seq<Envelope>>, ghost sent': nat)
      requires sent <= i < |messages| && batchQueue == messages[sent..i + 1]
      requires (0 < batchSize ==> i + 1 - sent <= batchSize) && (i + 1 - sent == batchSize || i + 1 == |messages|)
      requires channel.open && currentSequenceNumber == channel.nextPublishSeqNo == 1 + sent
      requires Linked(messages, batchSize, waits, sent, todo, currentSequenceNumber, batchesSent,
                      channel.log, tracker.Snapshot(), died0, log0, book0)
      modifies channel, tracker
      ensures died ==> died0 && log0 == channel.log && book0 == tracker.Snapshot()
      ensures !died ==> sent' == i + 1 && queue' == [] && batchesSent' == batchesSent + 1
      ensures !died ==> channel.open && next == channel.nextPublishSeqNo == 2 + i
      ensures !died ==> Linked(messages, batchSize, waits, i + 1, todo', next, batchesSent',
                               channel.log, tracker.Snapshot(), died0, log0, book0)
    {
      next, died, todo' := Flush(channel, messages, sent, i + 1, batchQueue, currentSequenceNumber, batchesSent, waits,
                                 todo, died0, log0, book0);
      queue', batchesSent', sent' := [], batchesSent + 1, i + 1;
    }

    /** When the queue `messages[sent..i + 1]` is flushed: it is then a whole batch or the last
        one, and otherwise it stays short of a batch with more messages to come. */
    lemma FlushPoint(count: nat, sent: nat, i: nat, queued: nat, currentSequenceNumber: nat, batchSize: int, full: bool)
      requires sent <= i < count && queued == i + 1 - sent && currentSequenceNumber == 1 + sent
      requires 0 < batchSize ==> queued - 1 < batchSize
      requires full == (queued == batchSize || (queued != batchSize && (queued - 1) + currentSequenceNumber == count))
      ensures full ==> (0 < batchSize ==> queued <= batchSize) && (queued == batchSize || i + 1 == count)
      ensures !full ==> (0 < batchSize ==> queued < batchSize) && i + 1 < count
    {
    }

    /** A flush seen against the whole batch phase: the batch is `messages[sent..e]`, `todo` is
        what remains of the phase before the flush, and `died0`, `log0`, `book0` are how the
        phase ends. */
    method Flush(channel: Channel, ghost messages: seq<Envelope>, ghost sent: nat, ghost e: nat, batch: seq<Envelope>,
                 currentSequenceNumber: nat, batchesSent: nat, waits: seq<Wait>,
                 ghost todo: seq<seq<Envelope>>, ghost died0: bool, ghost log0: seq<Frame>, ghost book0: Bookkeeping)
      returns (next: nat, died: bool, ghost rest: seq<seq<Envelope>>)
      requires sent < e <= |messages| && batch == messages[sent..e]
      requires (0 < batchSize ==> e - sent <= batchSize) && (e - sent == batchSize || e == |messages|)
      requires channel.open && channel.nextPublishSeqNo == currentSequenceNumber
      requires Linked(messages, batchSize, waits, sent, todo, currentSequenceNumber, batchesSent,
                      channel.log, tracker.Snapshot(), died0, log0, book0)
      modifies channel, tracker
      ensures channel.open == !died && next == channel.nextPublishSeqNo == currentSequenceNumber + |batch|
      ensures died ==> died0 && log0 == channel.log && book0 == tracker.Snapshot()
      ensures !died ==> Linked(messages, batchSize, waits, e, rest, next, batchesSent + 1,
                               channel.log, tracker.Snapshot(), died0, log0, book0)
    {
      rest := Batches(messages[e..], batchSize);
      FlushIsNextBatch(messages, sent, e, batchSize, todo, batch);
      ghost var logBefore, snapBefore := channel.log, tracker.Snapshot();
      next, died := SendBatch(channel, batch, currentSequenceNumber, WaitAt(waits, batchesSent));
      BatchDiedFlush(todo, batch, rest, batchesSent, batchesSent + 1, waits, died0);
      BatchFramesFlush(todo, batch, rest, currentSequenceNumber, next, batchesSent, batchesSent + 1, waits, BatchWaitSeconds,
                       logBefore, channel.log, log0);
      BatchBookFlush(todo, batch, rest, currentSequenceNumber, next, batchesSent, batchesSent + 1, waits,
                     snapBefore, tracker.Snapshot(), book0);
    }

    /** One flush: publish the queued batch, then WaitForConfirmsOrDie while the wait's confirms
        arrive. */
    method SendBatch(channel: Channel, batch: seq<Envelope>, currentSequenceNumber: nat, w: Wait) returns (next: nat, died: bool)
      requires channel.open && channel.nextPublishSeqNo == currentSequenceNumber
      modifies channel, tracker
      ensures died == Dies(w) && channel.open == !died
      ensures channel.log == old(channel.log) + PublishedFrames(currentSequenceNumber, batch) + [Waited(BatchWaitSeconds)]
      ensures next == channel.nextPublishSeqNo == currentSequenceNumber + |batch|
      ensures tracker.Snapshot() == Run(Record(old(tracker.Snapshot()), currentSequenceNumber, batch), w.events)
    {
      next := PublishBatch(channel, batch, currentSequenceNumber);
      tracker.Deliver(w.events);
      died := channel.WaitForConfirmsOrDie(BatchWaitSeconds, w);
    }

    /** Records each envelope of the batch under the next tag, then publishes the batch; the
        result is the channel's next sequence number. */
    method PublishBatch(channel: Channel, envelopes: seq<Envelope>, currentSequenceNumber: nat) returns (next: nat)
      requires channel.open
      modifies channel, tracker
      ensures channel.open
      ensures channel.log == old(channel.log) + PublishedFrames(old(channel.nextPublishSeqNo), envelopes)
      ensures channel.nextPublishSeqNo == old(channel.nextPublishSeqNo) + |envelopes| == next
      ensures tracker.deliveryTags == Recorded(old(tracker.deliveryTags), currentSequenceNumber, envelopes)
      ensures tracker.unsuccessful == old(tracker.unsuccessful)
    {
      var current := currentSequenceNumber;
      var i := 0;
      while i < |envelopes|
        invariant 0 <= i <= |envelopes| && current == currentSequenceNumber + i
        invariant tracker.deliveryTags == Recorded(old(tracker.deliveryTags), currentSequenceNumber, envelopes[..i])
        invariant tracker.unsuccessful == old(tracker.unsuccessful)
        invariant unchanged(channel)
      {
        assert envelopes[..i + 1][..i] == envelopes[..i];
        var added := tracker.TryAdd(current, envelopes[i]);
        current := current + 1;
        i := i + 1;
      }
      assert envelopes[..i] == envelopes;
      var threw := channel.PublishBatch(envelopes);
      next := channel.nextPublishSeqNo;
    }
  }

  /** A call that completes leaves no delivery tag outstanding. */
  lemma {:induction false} CompletedLeavesNothingOutstanding(m0: map<nat, Envelope>, messages: seq<Envelope>, batchSize: int, timeOut: int,
                                                           broker: Broker, later: seq<Broker>)
    ensures PublishSpec(m0, messages, batchSize, timeOut, broker, later).outcome == Completed
            ==> PublishSpec(m0, messages, batchSize, timeOut, broker, later).outstanding == map[]
    decreases |later|
  {
    var batches := Batches(messages, batchSize);
    var book := BatchBook(Bookkeeping(m0, []), batches, 1, 0, broker.waits);
    if !BatchDied(batches, 0, broker.waits) {
      var d := Drain(book, broker.polls, timeOut, false);
      DrainEndsEmptyOrExpired(book, broker.polls, timeOut, false);
      if d.Drained? && d.book.retry != [] && later != [] {
        CompletedLeavesNothingOutstanding(d.book.outstanding, d.book.retry, batchSize, timeOut, later[0], later[1..]);
      }
    }
  }

  /** Nothing is invented, however many republish rounds there are. */
  lemma {:induction false} PublishConserves(m0: map<nat, Envelope>, messages: seq<Envelope>, batchSize: int, timeOut: int,
                                            broker: Broker, later: seq<Broker>)
    ensures Conserved(PublishSpec(m0, messages, batchSize, timeOut, broker, later), m0, messages)
    decreases |later|
  {
    var b0 := Bookkeeping(m0, []);
    var batches := Batches(messages, batchSize);
    var book := BatchBook(b0, batches, 1, 0, broker.waits);
    BatchPhaseAccounted(m0, messages, batchSize, broker.waits);
    if !BatchDied(batches, 0, broker.waits) {
      var d := Drain(book, broker.polls, timeOut, false);
      DrainKeepsAccount(b0, book, messages, broker.polls, timeOut, false);
      if d.Drained? && d.book.retry != [] && later != [] {
        DrainEndsEmptyOrExpired(book, broker.polls, timeOut, false);
        var retry := d.book.retry;
        assert retry[..0] == [];
        PublishConserves(d.book.outstanding, retry, batchSize, timeOut, later[0], later[1..]);
        RetryConserved(PublishSpec(d.book.outstanding, retry, batchSize, timeOut, later[0], later[1..]), m0, messages,
                       d.book.outstanding, retry);
      }
    }
  }

  /** The first round puts every message on the wire in input order, the i-th with delivery
      tag i + 1, unless one of its waits throws, in which case it puts a prefix of them. */
  lemma FirstRoundPublishesInOrder(m0: map<nat, Envelope>, messages: seq<Envelope>, batchSize: int, timeOut: int,
                                   broker: Broker, later: seq<Broker>)
    ensures var pubs := Publications(PublishSpec(m0, messages, batchSize, timeOut, broker, later).log);
            var died := BatchDied(Batches(messages, batchSize), 0, broker.waits);
            && (died ==> exists k :: 0 <= k <= |messages| && pubs == PublishedFrames(1, messages[..k]))
            && (!died ==> |messages| <= |pubs| && pubs[..|messages|] == PublishedFrames(1, messages))
  {
    var batches := Batches(messages, batchSize);
    var book := BatchBook(Bookkeeping(m0, []), batches, 1, 0, broker.waits);
    var log := BatchFrames(batches, 1, 0, broker.waits, BatchWaitSeconds);
    var r := PublishSpec(m0, messages, batchSize, timeOut, broker, later);
    BatchesPartition(messages, batchSize);
    BatchFramesPublishInOrder(batches, 1, 0, broker.waits, BatchWaitSeconds);
    PublishedFramesNumbered(1, messages);
    if BatchDied(batches, 0, broker.waits) {
      var k := |Publications(log)|;
      assert Publications(r.log) == PublishedFrames(1, messages[..k]);
    } else {
      var d := Drain(book, broker.polls, timeOut, false);
      if d.Drained? && d.book.retry != [] && later != [] {
        var rest := PublishSpec(d.book.outstanding, d.book.retry, batchSize, timeOut, later[0], later[1..]);
        PublicationsAppend(log, rest.log);
      }
    }
  }
}
