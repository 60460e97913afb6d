/**
 * The single-sync publisher: every message is published and then confirmed on its own with
 * WaitForConfirmsOrDie (5 seconds). A message whose publish or wait throws goes to a local
 * queue. A failing wait closes the channel, so the QueueDeclare of the next message, which
 * runs outside the try, throws out of the call; only a failure on the last message leaves the
 * loop, and the queue is then republished on a new channel. The confirm handlers only log.
 */
module SyncSinglePublisher {
  import opened Transport

  /** WaitForConfirmsOrDie's timeout in this publisher. */
  const WaitSeconds := 5

  /** How a publish call ends, and what it put on the wire over all its rounds: it completes,
      throws from QueueDeclare, or runs out of modelled rounds. */
  datatype SyncReport = SyncReport(outcome: PublishOutcome, log: seq<Frame>)

  /** The frames of one round over `ms` on an open channel whose next sequence number is
      `tag`, the k-th wait answering the first message: each message, then its wait, up to
      and including the first wait that throws. */
  function RoundFrames(ms: seq<Envelope>, tag: nat, waits: seq<Wait>, k: nat): seq<Frame>
    decreases |ms|
  {
    if ms == [] then []
    else [Published(tag, ms[0]), Waited(WaitSeconds)]
         + (if Dies(WaitAt(waits, k)) then [] else RoundFrames(ms[1..], tag + 1, waits, k + 1))
  }

  /** What a round leaves in the queue: the message whose wait throws, if one does. */
  function RoundFailed(ms: seq<Envelope>, waits: seq<Wait>, k: nat): seq<Envelope>
    decreases |ms|
  {
    if ms == [] then []
    else if Dies(WaitAt(waits, k)) then [ms[0]]
    else RoundFailed(ms[1..], waits, k + 1)
  }

  /** Whether a round throws out of the call: some message's wait throws and another message
      follows it, whose QueueDeclare then meets the closed channel. */
  predicate RoundThrows(ms: seq<Envelope>, waits: seq<Wait>, k: nat)
    decreases |ms|
  {
    ms != [] && if Dies(WaitAt(waits, k)) then 1 < |ms| else RoundThrows(ms[1..], waits, k + 1)
  }

  /** The whole publish call: one round on a fresh channel; unless it throws, one republish
      round per element of `later` while a message remains queued. */
  function PublishSpec(messages: seq<Envelope>, waits: seq<Wait>, later: seq<seq<Wait>>): SyncReport
    decreases |later|
  {
    var failed := RoundFailed(messages, waits, 0);
    var log := RoundFrames(messages, 1, waits, 0);
    if RoundThrows(messages, waits, 0) then SyncReport(DeclareFailed, log)
    else if failed == [] then SyncReport(Completed, log)
    else if later == [] then SyncReport(Unfinished(failed), log)
    else
      var r := PublishSpec(failed, later[0], later[1..]);
      SyncReport(r.outcome, log + r.log)
  }

  /** The publishing loop before message `i`, against how its round ends (`failed0`,
      `throws0`, `log0`): while the channel is open the rest of the round is still ahead;
      once a wait has closed it, the queue and the wire are final and the call throws exactly
      when messages remain. */
  ghost predicate RoundAhead(messages: seq<Envelope>, waits: seq<Wait>, i: nat, open: bool, log: seq<Frame>,
                             unsuccessful: seq<Envelope>, failed0: seq<Envelope>, throws0: bool, log0: seq<Frame>)
  {
    && i <= |messages|
    && if open then
         && log0 == log + RoundFrames(messages[i..], 1 + i, waits, i)
         && failed0 == unsuccessful + RoundFailed(messages[i..], waits, i)
         && throws0 == RoundThrows(messages[i..], waits, i)
       else
         && log0 == log
         && failed0 == unsuccessful
         && throws0 == (i < |messages|)
  }

  class SyncSinglePublisherConfirm {
    /** Declared with its default of 60 seconds; this publisher never reads it. */
    var timeOut: int

    constructor ()
      ensures timeOut == 60
    {
      timeOut := 60;
    }

    /** Publishing one message is publishing the one-element list. */
    method PublishMessage(message: Envelope, waits: seq<Wait>, later: seq<seq<Wait>>) returns (outcome: PublishOutcome, log: seq<Frame>)
      ensures SyncReport(outcome, log) == PublishSpec([message], waits, later)
    {
      outcome, log := PublishAsync([message], waits, later);
    }

    /** `waits` answers this call's waits; each republish round takes the next element of
        `later`. */
    method PublishAsync(messages: seq<Envelope>, waits: seq<Wait>, later: seq<seq<Wait>>) returns (outcome: PublishOutcome, log: seq<Frame>)
      decreases |later|
      ensures SyncReport(outcome, log) == PublishSpec(messages, waits, later)
    {
      var channel := new Channel();
      channel.ConfirmSelect();
      var unsuccessful, threw := PublishEach(channel, messages, waits);
      if threw {
        return DeclareFailed, channel.log;
      }
      if |unsuccessful| > 0 {
        if later == [] {
          return Unfinished(unsuccessful), channel.log;
        }
        var rest;
        outcome, rest := PublishAsync(unsuccessful, later[0], later[1..]);
        log := channel.log + rest;
      } else {
        outcome, log := Completed, channel.log;
      }
    }

    /** The publishing loop of PublishAsync: declare the message's queue, then publish and
        wait. While the channel is open, the i-th message's wait is the channel's i-th, so
        `waits[i]` answers it; `threw` is QueueDeclare's throw on the closed channel, which
        leaves the loop and the call. */
    method PublishEach(channel: Channel, messages: seq<Envelope>, waits: seq<Wait>)
      returns (unsuccessful: seq<Envelope>, threw: bool)
      requires channel.open && channel.nextPublishSeqNo == 1 && channel.log == []
      modifies channel
      ensures unsuccessful == RoundFailed(messages, waits, 0)
      ensures threw == RoundThrows(messages, waits, 0)
      ensures channel.log == RoundFrames(messages, 1, waits, 0)
    {
      ghost var failed0, throws0, log0 := RoundFailed(messages, waits, 0), RoundThrows(messages, waits, 0),
                                          RoundFrames(messages, 1, waits, 0);
      unsuccessful, threw := [], false;
      assert messages[0..] == messages;
      assert [] + log0 == log0 && [] + failed0 == failed0;
      var i := 0;
      while i < |messages| && !threw
        invariant threw ==> !channel.open && i < |messages|
        invariant channel.open ==> channel.nextPublishSeqNo == 1 + i
        invariant RoundAhead(messages, waits, i, channel.open, channel.log, unsuccessful, failed0, throws0, log0)
        decreases |messages| - i, if threw then 0 else 1
      {
        threw := channel.QueueDeclare();
        if !threw {
          unsuccessful := PublishOne(channel, messages, i, waits, unsuccessful, failed0, throws0, log0);
          i := i + 1;
        }
      }
      RoundAheadAtEnd(messages, waits, i, channel.open, channel.log, unsuccessful, failed0, throws0, log0);
    }

    /** One turn of the loop after QueueDeclare: publish, then wait for the confirm; a throw
        from either queues the message. */
    method PublishOne(channel: Channel, messages: seq<Envelope>, i: nat, waits: seq<Wait>, unsuccessful: seq<Envelope>,
                      ghost failed0: seq<Envelope>, ghost throws0: bool, ghost log0: seq<Frame>)
      returns (unsuccessful': seq<Envelope>)
      requires i < |messages| && channel.open && channel.nextPublishSeqNo == 1 + i
      requires RoundAhead(messages, waits, i, true, channel.log, unsuccessful, failed0, throws0, log0)
      modifies channel
      ensures channel.open ==> channel.nextPublishSeqNo == 2 + i
      ensures RoundAhead(messages, waits, i + 1, channel.open, channel.log, unsuccessful', failed0, throws0, log0)
    {
      var m := messages[i];
      ghost var logBefore := channel.log;
      var failed := channel.BasicPublish(m);
      if !failed {
        failed := channel.WaitForConfirmsOrDie(WaitSeconds, WaitAt(waits, i));
      }
      if failed {
        unsuccessful' := unsuccessful + [m];
      } else {
        unsuccessful' := unsuccessful;
      }
      RoundStep(messages, waits, i, logBefore, unsuccessful, failed0, throws0, log0);
    }
  }

  /** One message of the round: its publish and wait go on the wire, and a throwing wait
      queues it and closes the channel. */
  lemma RoundStep(messages: seq<Envelope>, waits: seq<Wait>, i: nat, log: seq<Frame>, unsuccessful: seq<Envelope>,
                  failed0: seq<Envelope>, throws0: bool, log0: seq<Frame>)
    requires i < |messages|
    requires RoundAhead(messages, waits, i, true, log, unsuccessful, failed0, throws0, log0)
    ensures var m := messages[i];
            var log' := log + [Published(1 + i, m)] + [Waited(WaitSeconds)];
            var dies := Dies(WaitAt(waits, i));
            RoundAhead(messages, waits, i + 1, !dies, log', if dies then unsuccessful + [m] else unsuccessful,
                       failed0, throws0, log0)
  {
    var m := messages[i];
    assert messages[i..][0] == m && messages[i..][1..] == messages[i + 1..];
    var log' := log + [Published(1 + i, m)] + [Waited(WaitSeconds)];
    if Dies(WaitAt(waits, i)) {
      assert log0 == log + ([Published(1 + i, m), Waited(WaitSeconds)] + []);
      assert log0 == log';
    } else {
      var more := RoundFrames(messages[i + 1..], 2 + i, waits, i + 1);
      assert log0 == log + ([Published(1 + i, m), Waited(WaitSeconds)] + more);
      assert log0 == log' + more;
    }
  }

  /** When the loop stops, the queue, the throw and the wire are the round's. */
  lemma RoundAheadAtEnd(messages: seq<Envelope>, waits: seq<Wait>, i: nat, open: bool, log: seq<Frame>,
                        unsuccessful: seq<Envelope>, failed0: seq<Envelope>, throws0: bool, log0: seq<Frame>)
    requires RoundAhead(messages, waits, i, open, log, unsuccessful, failed0, throws0, log0)
    requires open ==> i == |messages|
    ensures log0 == log && failed0 == unsuccessful && throws0 == (!open && i < |messages|)
  {
    if open {
      assert messages[i..] == [];
      assert log + [] == log && unsuccessful + [] == unsuccessful;
    }
  }

  /** How many messages of a round are confirmed before the first wait that throws. */
  function Confirmed(ms: seq<Envelope>, waits: seq<Wait>, k: nat): (c: nat)
    ensures c <= |ms|
    decreases |ms|
  {
    if ms == [] || Dies(WaitAt(waits, k)) then 0 else 1 + Confirmed(ms[1..], waits, k + 1)
  }

  /** A round fails at its first throwing wait, if any: every earlier wait succeeded, the
      failing message alone is queued, and the round throws out of the call exactly when the
      failing message is not the last. */
  lemma {:induction false} RoundFailsAtFirstDeath(ms: seq<Envelope>, waits: seq<Wait>, k: nat)
    ensures forall j :: k <= j < k + Confirmed(ms, waits, k) ==> !Dies(WaitAt(waits, j))
    ensures Confirmed(ms, waits, k) < |ms| ==> Dies(WaitAt(waits, k + Confirmed(ms, waits, k)))
    ensures RoundFailed(ms, waits, k)
            == if Confirmed(ms, waits, k) < |ms| then [ms[Confirmed(ms, waits, k)]] else []
    ensures RoundThrows(ms, waits, k) <==> Confirmed(ms, waits, k) + 1 < |ms|
    decreases |ms|
  {
    if ms != [] && !Dies(WaitAt(waits, k)) {
      RoundFailsAtFirstDeath(ms[1..], waits, k + 1);
    }
  }

  /** One message and its wait. */
  lemma OneMessage(tag: nat, e: Envelope, more: seq<Frame>)
    ensures Publications([Published(tag, e), Waited(WaitSeconds)] + more) == [Published(tag, e)] + Publications(more)
    ensures WaitCount([Published(tag, e), Waited(WaitSeconds)] + more) == 1 + WaitCount(more)
  {
    var head := [Published(tag, e), Waited(WaitSeconds)];
    PublicationsAppend(head, more);
    WaitCountAppend(head, more);
    assert head[..1] == [Published(tag, e)] && [Published(tag, e)][..0] == [];
    assert Publications([Published(tag, e)]) == [Published(tag, e)];
    assert Publications(head) == [Published(tag, e)];
    assert WaitCount([Published(tag, e)]) == 0;
  }

  lemma PublishedPrefixCons(tag: nat, ms: seq<Envelope>, c: nat)
    requires c < |ms|
    ensures PublishedFrames(tag, ms[..c + 1]) == [Published(tag, ms[0])] + PublishedFrames(tag + 1, ms[1..][..c])
  {
    PublishedFramesCons(tag, ms[0], ms[1..][..c]);
    assert ms[..c + 1] == [ms[0]] + ms[1..][..c];
  }

  /** The message count a round publishes: the confirmed ones and, when one throws, that one too. */
  function RoundCount(ms: seq<Envelope>, waits: seq<Wait>, k: nat): (c: nat)
    ensures c <= |ms|
  {
    if Confirmed(ms, waits, k) < |ms| then Confirmed(ms, waits, k) + 1 else |ms|
  }

  /** A round whose first wait throws publishes its first message and waits once. */
  lemma DeadRoundStep(ms: seq<Envelope>, tag: nat, waits: seq<Wait>, k: nat)
    requires ms != [] && Dies(WaitAt(waits, k))
    ensures Publications(RoundFrames(ms, tag, waits, k)) == PublishedFrames(tag, ms[..RoundCount(ms, waits, k)])
    ensures WaitCount(RoundFrames(ms, tag, waits, k)) == RoundCount(ms, waits, k)
  {
    assert RoundFrames(ms, tag, waits, k) == [Published(tag, ms[0]), Waited(WaitSeconds)] + [];
    OneMessage(tag, ms[0], []);
    PublishedPrefixCons(tag, ms, 0);
  }

  /** A round whose first wait succeeds publishes its first message, waits, and goes on with
      the rest of the round. */
  lemma LiveRoundStep(ms: seq<Envelope>, tag: nat, waits: seq<Wait>, k: nat)
    requires ms != [] && !Dies(WaitAt(waits, k))
    requires Publications(RoundFrames(ms[1..], tag + 1, waits, k + 1))
             == PublishedFrames(tag + 1, ms[1..][..RoundCount(ms[1..], waits, k + 1)])
    requires WaitCount(RoundFrames(ms[1..], tag + 1, waits, k + 1)) == RoundCount(ms[1..], waits, k + 1)
    ensures Publications(RoundFrames(ms, tag, waits, k)) == PublishedFrames(tag, ms[..RoundCount(ms, waits, k)])
    ensures WaitCount(RoundFrames(ms, tag, waits, k)) == RoundCount(ms, waits, k)
  {
    var more := RoundFrames(ms[1..], tag + 1, waits, k + 1);
    assert RoundFrames(ms, tag, waits, k) == [Published(tag, ms[0]), Waited(WaitSeconds)] + more;
    OneMessage(tag, ms[0], more);
    PublishedPrefixCons(tag, ms, RoundCount(ms[1..], waits, k + 1));
  }

  /** A round publishes its messages in order from sequence number `tag`, each followed by its
      wait: the confirmed ones and, when one throws, that one too. */
  lemma {:induction false} RoundPublishesInOrder(ms: seq<Envelope>, tag: nat, waits: seq<Wait>, k: nat)
    ensures Publications(RoundFrames(ms, tag, waits, k)) == PublishedFrames(tag, ms[..RoundCount(ms, waits, k)])
    ensures WaitCount(RoundFrames(ms, tag, waits, k)) == RoundCount(ms, waits, k)
    decreases |ms|
  {
    if ms != [] {
      if Dies(WaitAt(waits, k)) {
        DeadRoundStep(ms, tag, waits, k);
      } else {
        RoundPublishesInOrder(ms[1..], tag + 1, waits, k + 1);
        LiveRoundStep(ms, tag, waits, k);
      }
    }
  }

  /** A republish round has one message, so its failure is always on the last message:
      it never throws, and it completes or keeps that message queued. */
  lemma {:induction false} RepublishNeverThrows(e: Envelope, waits: seq<Wait>, later: seq<seq<Wait>>)
    ensures PublishSpec([e], waits, later).outcome.Completed?
            || PublishSpec([e], waits, later).outcome == Unfinished([e])
    decreases |later|
  {
    assert [e][1..] == [];
    assert !RoundThrows([e], waits, 0);
    assert RoundFailed([e], waits, 0) == if Dies(WaitAt(waits, 0)) then [e] else [];
    if Dies(WaitAt(waits, 0)) && later != [] {
      RepublishNeverThrows(e, later[0], later[1..]);
    }
  }

  /** A call throws exactly when a wait fails before the last message of its first round;
      otherwise it completes, or still holds the one message whose wait failed. */
  lemma ThrowsOnEarlyFailure(messages: seq<Envelope>, waits: seq<Wait>, later: seq<seq<Wait>>)
    ensures PublishSpec(messages, waits, later).outcome == DeclareFailed
            <==> Confirmed(messages, waits, 0) + 1 < |messages|
    ensures PublishSpec(messages, waits, later).outcome != DeclareFailed ==>
              PublishSpec(messages, waits, later).outcome.Completed?
              || (PublishSpec(messages, waits, later).outcome.Unfinished?
                  && PublishSpec(messages, waits, later).outcome.pending == [messages[|messages| - 1]])
  {
    RoundFailsAtFirstDeath(messages, waits, 0);
    var failed := RoundFailed(messages, waits, 0);
    if !RoundThrows(messages, waits, 0) && failed != [] && later != [] {
      RepublishNeverThrows(failed[0], later[0], later[1..]);
    }
  }

  /** A round whose waits all succeed queues nothing, and so completes the call. */
  lemma CompletesWhenNoWaitThrows(messages: seq<Envelope>, waits: seq<Wait>, later: seq<seq<Wait>>)
    requires forall j :: 0 <= j < |messages| ==> !Dies(WaitAt(waits, j))
    ensures PublishSpec(messages, waits, later).outcome == Completed
  {
    RoundFailsAtFirstDeath(messages, waits, 0);
  }
}
