/**
 * The part of a RabbitMQ channel the publishers rely on: confirm mode, the publish sequence
 * number, publishing one message or a batch, and WaitForConfirmsOrDie. What the broker answers
 * is not computed here; it is supplied by the caller as a script (`Wait`, `Poll`, `Broker`).
 */
module Transport {

  /** One outbound unit: the message identifier and its serialized body. */
  datatype Envelope = Envelope(messageId: string, body: string)

  /** A broker confirm for a delivery tag; `multiple` means "every tag up to and including this one". */
  datatype ConfirmEvent = Ack(tag: nat, multiple: bool) | Nack(tag: nat, multiple: bool)

  /** What happens during one WaitForConfirmsOrDie: the confirms that reach the handlers since the
      previous wait, and whether the wait's own timeout elapses first. */
  datatype Wait = Wait(events: seq<ConfirmEvent>, timedOut: bool)

  /** One round of a polling wait: the confirms that arrive during the 100 ms delay, and the
      elapsed time read from the clock afterwards. */
  datatype Poll = Poll(events: seq<ConfirmEvent>, elapsedMs: int)

  /** The broker's behaviour during one publish call. */
  datatype Broker = Broker(waits: seq<Wait>, polls: seq<Poll>)

  /** How a publish call ends: every message confirmed; WaitForConfirmsOrDie threw; the
      polling wait for the last confirms threw its TimeoutException; QueueDeclare threw on a
      channel that a failed wait had closed; or messages were left to republish after the last
      round of broker behaviour the model was given. */
  datatype PublishOutcome = Completed | WaitFailed | DrainTimedOut | DeclareFailed | Unfinished(pending: seq<Envelope>)

  /** The k-th wait; past the end of the script the broker is silent and the wait times out. */
  function WaitAt(waits: seq<Wait>, k: nat): (w: Wait)
    ensures k < |waits| ==> w == waits[k]
    ensures k >= |waits| ==> w.events == [] && w.timedOut
  {
    if k < |waits| then waits[k] else Wait([], true)
  }

  /** Whether any of `evs` is a nack, looking from the last one back. */
  predicate AnyNack(evs: seq<ConfirmEvent>)
    decreases |evs|
  {
    evs != [] && (evs[|evs| - 1].Nack? || AnyNack(evs[..|evs| - 1]))
  }

  /** AnyNack holds exactly when some event is a nack. */
  lemma {:induction false} AnyNackExists(evs: seq<ConfirmEvent>)
    ensures AnyNack(evs) <==> exists i :: 0 <= i < |evs| && evs[i].Nack?
    decreases |evs|
  {
    if evs != [] {
      var init := evs[..|evs| - 1];
      AnyNackExists(init);
      if AnyNack(init) {
        var i :| 0 <= i < |init| && init[i].Nack?;
        assert evs[i] == init[i];
      }
      if i :| 0 <= i < |evs| && evs[i].Nack? {
        if i < |evs| - 1 {
          assert init[i] == evs[i];
        }
      }
    }
  }

  /** WaitForConfirmsOrDie throws when the wait times out or when any confirm it collected is a
      nack; in both cases the channel is closed. */
  predicate Dies(w: Wait)
  {
    w.timedOut || AnyNack(w.events)
  }

  /** What a channel has put on the wire, in order. */
  datatype Frame = Published(tag: nat, envelope: Envelope) | Waited(timeoutSeconds: int)

  /** The frames of publishing `es` one after another from sequence number `start`. */
  function PublishedFrames(start: nat, es: seq<Envelope>): seq<Frame>
    decreases |es|
  {
    if es == [] then [] else PublishedFrames(start, es[..|es| - 1]) + [Published(start + |es| - 1, es[|es| - 1])]
  }

  /** Only the publications of a frame log. */
  function Publications(log: seq<Frame>): seq<Frame>
    decreases |log|
  {
    if log == [] then []
    else Publications(log[..|log| - 1]) + (if log[|log| - 1].Published? then [log[|log| - 1]] else [])
  }

  /** How many WaitForConfirmsOrDie calls a frame log holds. */
  function WaitCount(log: seq<Frame>): nat
    decreases |log|
  {
    if log == [] then 0
    else WaitCount(log[..|log| - 1]) + (if log[|log| - 1].Waited? then 1 else 0)
  }

  /** Publishing from `start` gives the i-th envelope the sequence number `start + i`. */
  lemma {:induction false} PublishedFramesNumbered(start: nat, es: seq<Envelope>)
    ensures |PublishedFrames(start, es)| == |es|
    ensures forall i :: 0 <= i < |es| ==> PublishedFrames(start, es)[i] == Published(start + i, es[i])
    decreases |es|
  {
    if es != [] {
      var n := |es| - 1;
      PublishedFramesNumbered(start, es[..n]);
      forall i | 0 <= i < n
        ensures PublishedFrames(start, es)[i] == Published(start + i, es[i])
      {
        assert es[..n][i] == es[i];
      }
    }
  }

  lemma {:induction false} PublishedFramesAppend(start: nat, xs: seq<Envelope>, ys: seq<Envelope>)
    ensures PublishedFrames(start, xs + ys) == PublishedFrames(start, xs) + PublishedFrames(start + |xs|, ys)
    decreases |ys|
  {
    if ys == [] {
      assert xs + ys == xs;
    } else {
      var n := |ys| - 1;
      assert (xs + ys)[..|xs + ys| - 1] == xs + ys[..n];
      PublishedFramesAppend(start, xs, ys[..n]);
    }
  }

  /** Publishing one more envelope appends its frame with the next sequence number. */
  lemma PublishedFramesNext(start: nat, es: seq<Envelope>, e: Envelope)
    ensures PublishedFrames(start, es + [e]) == PublishedFrames(start, es) + [Published(start + |es|, e)]
  {
    assert (es + [e])[..|es|] == es;
  }

  /** Publishing a first envelope, then the rest from the next sequence number. */
  lemma PublishedFramesCons(start: nat, e: Envelope, es: seq<Envelope>)
    ensures PublishedFrames(start, [e] + es) == [Published(start, e)] + PublishedFrames(start + 1, es)
  {
    PublishedFramesAppend(start, [e], es);
    assert [e][..0] == [];
  }

  lemma {:induction false} WaitCountAppend(a: seq<Frame>, b: seq<Frame>)
    ensures WaitCount(a + b) == WaitCount(a) + WaitCount(b)
    decreases |b|
  {
    if b == [] {
      assert a + b == a;
    } else {
      var n := |b| - 1;
      assert (a + b)[..|a + b| - 1] == a + b[..n];
      WaitCountAppend(a, b[..n]);
    }
  }

  lemma {:induction false} WaitCountOfPublished(start: nat, es: seq<Envelope>)
    ensures WaitCount(PublishedFrames(start, es)) == 0
    decreases |es|
  {
    if es != [] {
      var n := |es| - 1;
      WaitCountOfPublished(start, es[..n]);
      WaitCountAppend(PublishedFrames(start, es[..n]), [Published(start + n, es[n])]);
      assert [Published(start + n, es[n])][..0] == [];
    }
  }

  lemma {:induction false} PublicationsAppend(a: seq<Frame>, b: seq<Frame>)
    ensures Publications(a + b) == Publications(a) + Publications(b)
    decreases |b|
  {
    if b == [] {
      assert a + b == a;
    } else {
      var n := |b| - 1;
      assert (a + b)[..|a + b| - 1] == a + b[..n];
      PublicationsAppend(a, b[..n]);
    }
  }

  lemma {:induction false} PublicationsOfPublished(start: nat, es: seq<Envelope>)
    ensures Publications(PublishedFrames(start, es)) == PublishedFrames(start, es)
    decreases |es|
  {
    if es != [] {
      var n := |es| - 1;
      PublicationsOfPublished(start, es[..n]);
      PublicationsAppend(PublishedFrames(start, es[..n]), [Published(start + n, es[n])]);
      assert [Published(start + n, es[n])][..0] == [];
    }
  }

  lemma PublicationsOfWait(seconds: int)
    ensures Publications([Waited(seconds)]) == []
  {
    assert [Waited(seconds)][..0] == [];
  }

  /**
   * A model channel. `nextPublishSeqNo` is 0 until confirm mode is selected, then the
   * sequence number the next published message will get. A failed WaitForConfirmsOrDie
   * closes the channel, and publishing on a closed channel throws.
   */
  class Channel {
    var nextPublishSeqNo: nat
    var log: seq<Frame>
    var open: bool

    constructor ()
      ensures nextPublishSeqNo == 0 && log == [] && open
    {
      nextPublishSeqNo := 0;
      log := [];
      open := true;
    }

    /** Entering confirm mode numbers publications from 1. */
    method ConfirmSelect()
      modifies this
      ensures old(nextPublishSeqNo) == 0 ==> nextPublishSeqNo == 1
      ensures old(nextPublishSeqNo) != 0 ==> nextPublishSeqNo == old(nextPublishSeqNo)
      ensures log == old(log) && open == old(open)
    {
      if nextPublishSeqNo == 0 {
        nextPublishSeqNo := 1;
      }
    }

    /** QueueDeclare: the queue itself is not modelled, but on a closed channel the call
        throws its AlreadyClosedException, which `threw` reports. */
    method QueueDeclare() returns (threw: bool)
      ensures threw == !open
    {
      threw := !open;
    }

    /** `threw` is the exception of publishing on a closed channel. */
    method BasicPublish(e: Envelope) returns (threw: bool)
      modifies this
      ensures threw == !old(open) && open == old(open)
      ensures !threw ==> log == old(log) + [Published(old(nextPublishSeqNo), e)]
      ensures !threw ==> nextPublishSeqNo == old(nextPublishSeqNo) + 1
      ensures threw ==> log == old(log) && nextPublishSeqNo == old(nextPublishSeqNo)
    {
      threw := !open;
      if !threw {
        log := log + [Published(nextPublishSeqNo, e)];
        nextPublishSeqNo := nextPublishSeqNo + 1;
      }
    }

    /** A publish batch goes out in order, each message taking the next sequence number. */
    method PublishBatch(es: seq<Envelope>) returns (threw: bool)
      modifies this
      ensures threw == !old(open) && open == old(open)
      ensures !threw ==> log == old(log) + PublishedFrames(old(nextPublishSeqNo), es)
      ensures !threw ==> nextPublishSeqNo == old(nextPublishSeqNo) + |es|
      ensures threw ==> log == old(log) && nextPublishSeqNo == old(nextPublishSeqNo)
    {
      threw := !open;
      if !threw {
        log := log + PublishedFrames(nextPublishSeqNo, es);
        nextPublishSeqNo := nextPublishSeqNo + |es|;
      }
    }

    /** Records the wait and reports whether it threw; it throws on a closed channel too. */
    method WaitForConfirmsOrDie(timeoutSeconds: int, w: Wait) returns (died: bool)
      modifies this
      ensures died == (!old(open) || Dies(w)) && open == !died
      ensures log == old(log) + [Waited(timeoutSeconds)]
      ensures nextPublishSeqNo == old(nextPublishSeqNo)
    {
      log := log + [Waited(timeoutSeconds)];
      died := !open || Dies(w);
      if died {
        open := false;
      }
    }
  }
}
