/**
 * The single-async publisher: every message is recorded under its delivery tag and published
 * without waiting; then it polls until no delivery tag is outstanding, and republishes
 * whatever was nacked, on a new channel.
 */
module AsyncSinglePublisher {
  import opened Wrappers
  import opened Transport
  import opened PublisherConfirm

  /** The whole publish call: every message on a fresh channel, the polling wait over `polls`,
      then one republish round per element of `later` for as long as nacks leave messages to
      retry. */
  function PublishSpec(m0: map<nat, Envelope>, messages: seq<Envelope>, timeOut: int,
                       polls: seq<Poll>, later: seq<seq<Poll>>): Report
    decreases |later|
  {
    var book := Record(Bookkeeping(m0, []), 1, messages);
    var log := PublishedFrames(1, messages);
    var d := Drain(book, polls, timeOut, false);
    if d.Expired? then Report(DrainTimedOut, d.book.outstanding, log)
    else if d.book.retry == [] then Report(Completed, d.book.outstanding, log)
    else if later == [] then Report(Unfinished(d.book.retry), d.book.outstanding, log)
    else
      var r := PublishSpec(d.book.outstanding, d.book.retry, timeOut, later[0], later[1..]);
      Report(r.outcome, r.outstanding, log + r.log)
  }

  class AsyncPublisherConfirm {
    /** `_messagesDeliveryTagsDictionary` and the nack queue the confirm handlers write to. */
    const tracker: Tracker
    var timeOut: int

    constructor ()
      ensures timeOut == 60
      ensures fresh(tracker) && tracker.deliveryTags == map[] && tracker.unsuccessful == []
    {
      tracker := new Tracker();
      timeOut := 60;
    }

    /** Publishing one message is publishing the one-element list. */
    method PublishMessage(message: Envelope, polls: seq<Poll>, later: seq<seq<Poll>>) returns (outcome: PublishOutcome, log: seq<Frame>)
      modifies tracker
      ensures Report(outcome, tracker.deliveryTags, log)
              == PublishSpec(old(tracker.deliveryTags), [message], timeOut, polls, later)
    {
      outcome, log := PublishAsync([message], polls, later);
    }

    /** `polls` answers this call's polling wait; each republish round takes the next element
        of `later`. */
    method PublishAsync(messages: seq<Envelope>, polls: seq<Poll>, later: seq<seq<Poll>>) returns (outcome: PublishOutcome, log: seq<Frame>)
      modifies tracker
      decreases |later|
      ensures Report(outcome, tracker.deliveryTags, log)
              == PublishSpec(old(tracker.deliveryTags), messages, timeOut, polls, later)
    {
      tracker.ResetRetryQueue();
      var channel := new Channel();
      channel.ConfirmSelect();
      PublishEach(channel, messages);
      var timedOut := tracker.WaitUntilConditionMet(polls, Some(timeOut));
      if timedOut {
        return DrainTimedOut, channel.log;
      }
      if |tracker.unsuccessful| > 0 {
        if later == [] {
          return Unfinished(tracker.unsuccessful), channel.log;
        }
        var rest;
        outcome, rest := PublishAsync(tracker.unsuccessful, later[0], later[1..]);
        log := channel.log + rest;
      } else {
        outcome, log := Completed, channel.log;
      }
    }

    /** The publishing loop of PublishAsync: TryAdd each message under the channel's next
        sequence number, then publish it. */
    method PublishEach(channel: Channel, messages: seq<Envelope>)
      requires channel.open && channel.nextPublishSeqNo == 1 && channel.log == []
      modifies channel, tracker
      ensures channel.log == PublishedFrames(1, messages)
      ensures tracker.Snapshot() == Record(old(tracker.Snapshot()), 1, messages)
    {
      ghost var snap0 := tracker.Snapshot();
      assert snap0 == Record(snap0, 1, []);
      var i := 0;
      while i < |messages|
        invariant 0 <= i <= |messages| && channel.open && channel.nextPublishSeqNo == 1 + i
        invariant channel.log == [] + PublishedFrames(1, messages[..i])
        invariant tracker.Snapshot() == Record(snap0, 1, messages[..i])
      {
        ghost var logBefore, snapBefore := channel.log, tracker.Snapshot();
        var currentSequenceNumber := channel.nextPublishSeqNo;
        var added := tracker.TryAdd(currentSequenceNumber, messages[i]);
        var threw := channel.BasicPublish(messages[i]);
        LogGrows([], 1, messages[..i], messages[i], logBefore, channel.log);
        SnapshotGrows(snap0, 1, messages[..i], messages[i], snapBefore, tracker.Snapshot());
        assert messages[..i] + [messages[i]] == messages[..i + 1];
        i := i + 1;
      }
      assert messages[..i] == messages;
    }
  }

  /** A call that completes leaves no delivery tag outstanding. */
  lemma {:induction false} CompletedLeavesNothingOutstanding(m0: map<nat, Envelope>, messages: seq<Envelope>, timeOut: int,
                                                           polls: seq<Poll>, later: seq<seq<Poll>>)
    ensures PublishSpec(m0, messages, timeOut, polls, later).outcome == Completed
            ==> PublishSpec(m0, messages, timeOut, polls, later).outstanding == map[]
    decreases |later|
  {
    var book := Record(Bookkeeping(m0, []), 1, messages);
    var d := Drain(book, polls, timeOut, false);
    DrainEndsEmptyOrExpired(book, polls, timeOut, false);
    if d.Drained? && d.book.retry != [] && later != [] {
      CompletedLeavesNothingOutstanding(d.book.outstanding, d.book.retry, timeOut, later[0], later[1..]);
    }
  }

  /** Nothing is invented, however many republish rounds there are. */
  lemma {:induction false} PublishConserves(m0: map<nat, Envelope>, messages: seq<Envelope>, timeOut: int,
                                            polls: seq<Poll>, later: seq<seq<Poll>>)
    ensures Conserved(PublishSpec(m0, messages, timeOut, polls, later), m0, messages)
    decreases |later|
  {
    var b0 := Bookkeeping(m0, []);
    var book := Record(b0, 1, messages);
    AccountedReflexive(b0);
    RecordKeepsAccount(b0, b0, [], 1, messages);
    assert [] + messages == messages;
    var d := Drain(book, polls, timeOut, false);
    DrainKeepsAccount(b0, book, messages, polls, timeOut, false);
    if d.Drained? && d.book.retry != [] && later != [] {
      var retry := d.book.retry;
      assert retry[..0] == [];
      PublishConserves(d.book.outstanding, retry, timeOut, later[0], later[1..]);
      RetryConserved(PublishSpec(d.book.outstanding, retry, timeOut, later[0], later[1..]), m0, messages,
                     d.book.outstanding, retry);
    }
  }

  /** Every call starts by putting all its messages on the wire in input order, the i-th with
      delivery tag i + 1. */
  lemma PublishesAllInOrder(m0: map<nat, Envelope>, messages: seq<Envelope>, timeOut: int,
                            polls: seq<Poll>, later: seq<seq<Poll>>)
    ensures var log := PublishSpec(m0, messages, timeOut, polls, later).log;
            |messages| <= |log| && forall i :: 0 <= i < |messages| ==> log[i] == Published(i + 1, messages[i])
  {
    PublishedFramesNumbered(1, messages);
  }

  /** This publisher never calls WaitForConfirmsOrDie, in any round. */
  lemma {:induction false} NeverWaits(m0: map<nat, Envelope>, messages: seq<Envelope>, timeOut: int,
                                      polls: seq<Poll>, later: seq<seq<Poll>>)
    ensures WaitCount(PublishSpec(m0, messages, timeOut, polls, later).log) == 0
    decreases |later|
  {
    var book := Record(Bookkeeping(m0, []), 1, messages);
    var d := Drain(book, polls, timeOut, false);
    WaitCountOfPublished(1, messages);
    if d.Drained? && d.book.retry != [] && later != [] {
      var r := PublishSpec(d.book.outstanding, d.book.retry, timeOut, later[0], later[1..]);
      NeverWaits(d.book.outstanding, d.book.retry, timeOut, later[0], later[1..]);
      WaitCountAppend(PublishedFrames(1, messages), r.log);
    }
  }
}
