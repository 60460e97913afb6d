/**
 * Delivery-tag bookkeeping shared by the publisher-confirm variants that track
 * outstanding messages (batch-async, single-async and batch-sync): a map from
 * delivery tag to envelope, a retry queue of nacked envelopes, and the broker's
 * basic.ack / basic.nack callbacks with RabbitMQ's `multiple` flag.
 */
module PublisherConfirm {
  import opened Wrappers
  import opened Transport
  import opened Batching

  /** Value view of the bookkeeping: the outstanding tag map and the retry queue. */
  datatype Bookkeeping = Bookkeeping(outstanding: map<nat, Envelope>, retry: seq<Envelope>)

  /** How a publish call ended, the tag map it left behind and what went on the wire. */
  datatype Report = Report(outcome: PublishOutcome, outstanding: map<nat, Envelope>, log: seq<Frame>)

  /** ConcurrentDictionary.TryAdd: a key that is already present keeps its envelope. */
  function TryAdded(m: map<nat, Envelope>, tag: nat, e: Envelope): (r: map<nat, Envelope>)
    ensures tag in m ==> r == m
    ensures tag !in m ==> r.Keys == m.Keys + {tag} && r[tag] == e
    ensures forall k :: k in m ==> k in r && r[k] == m[k]
  {
    if tag in m then m else m[tag := e]
  }

  /** What RemovedConfirmedMessage leaves behind. */
  function Resolved(m: map<nat, Envelope>, tag: nat, multiple: bool): (r: map<nat, Envelope>)
    ensures multiple ==> forall k :: k in r <==> k in m && k > tag
    ensures !multiple ==> forall k :: k in r <==> k in m && k != tag
    ensures forall k :: k in r ==> r[k] == m[k]
  {
    if multiple then map k | k in m && k > tag :: m[k] else m - {tag}
  }

  /** The effect of one broker callback on the bookkeeping. */
  function Step(b: Bookkeeping, ev: ConfirmEvent): Bookkeeping
  {
    match ev
    case Ack(tag, multiple) =>
      Bookkeeping(Resolved(b.outstanding, tag, multiple), b.retry)
    case Nack(tag, multiple) =>
      var nacked := if tag in b.outstanding then [b.outstanding[tag]] else [];
      Bookkeeping(Resolved(b.outstanding, tag, multiple), b.retry + nacked)
  }

  /** The effect of a sequence of broker callbacks, in delivery order. */
  function Run(b: Bookkeeping, evs: seq<ConfirmEvent>): Bookkeeping
    decreases |evs|
  {
    if evs == [] then b else Step(Run(b, evs[..|evs| - 1]), evs[|evs| - 1])
  }

  /** TryAdd of `es`, one after another, under the consecutive tags `start`, `start + 1`, ... */
  function Recorded(m: map<nat, Envelope>, start: nat, es: seq<Envelope>): map<nat, Envelope>
    decreases |es|
  {
    if es == [] then m
    else TryAdded(Recorded(m, start, es[..|es| - 1]), start + |es| - 1, es[|es| - 1])
  }

  /** Two cumulative confirms leave what the larger of the two leaves alone, whatever
      order they arrive in: an earlier, smaller multiple ack is subsumed by a later one. */
  lemma CumulativeResolvesCompose(m: map<nat, Envelope>, t1: nat, t2: nat)
    ensures Resolved(Resolved(m, t1, true), t2, true)
         == Resolved(m, if t1 < t2 then t2 else t1, true)
  {
  }

  /** The highest tag among a sequence of callbacks. */
  function HighestTag(evs: seq<ConfirmEvent>): (t: nat)
    requires evs != []
    ensures forall i :: 0 <= i < |evs| ==> evs[i].tag <= t
    ensures exists i :: 0 <= i < |evs| && evs[i].tag == t
    decreases |evs|
  {
    if |evs| == 1 then evs[0].tag
    else
      var t := HighestTag(evs[..|evs| - 1]);
      assert forall i :: 0 <= i < |evs| - 1 ==> evs[..|evs| - 1][i] == evs[i];
      if t < evs[|evs| - 1].tag then evs[|evs| - 1].tag else t
  }

  /** Cumulative acks arriving in any order leave the map as the highest of them alone would,
      and never touch the retry queue. */
  lemma {:induction false} CumulativeAcksCollapse(b: Bookkeeping, evs: seq<ConfirmEvent>)
    requires evs != []
    requires forall i :: 0 <= i < |evs| ==> evs[i].Ack? && evs[i].multiple
    ensures Run(b, evs) == Bookkeeping(Resolved(b.outstanding, HighestTag(evs), true), b.retry)
    decreases |evs|
  {
    var init, last := evs[..|evs| - 1], evs[|evs| - 1];
    if init == [] {
      assert Run(b, init) == b;
    } else {
      assert forall i :: 0 <= i < |init| ==> init[i] == evs[i];
      CumulativeAcksCollapse(b, init);
      CumulativeResolvesCompose(b.outstanding, HighestTag(init), last.tag);
    }
  }

  /** Resolving a tag that is absent is a no-op. */
  lemma ResolveAbsentIsNoop(m: map<nat, Envelope>, tag: nat)
    requires tag !in m
    ensures Resolved(m, tag, false) == m
  {
  }

  /** Resolving the same tag twice is the same as resolving it once. */
  lemma ResolvedIdempotent(m: map<nat, Envelope>, tag: nat, multiple: bool)
    ensures Resolved(Resolved(m, tag, multiple), tag, multiple) == Resolved(m, tag, multiple)
  {
  }

  /** A duplicate callback is a no-op: nothing is removed again and nothing is enqueued twice. */
  lemma DuplicateEventIsNoop(b: Bookkeeping, ev: ConfirmEvent)
    ensures Step(Step(b, ev), ev) == Step(b, ev)
  {
    ResolvedIdempotent(b.outstanding, ev.tag, ev.multiple);
  }

  /** An ack never touches the retry queue. */
  lemma AckNeverEnqueues(b: Bookkeeping, tag: nat, multiple: bool)
    ensures Step(b, Ack(tag, multiple)).retry == b.retry
  {
  }

  /** A nack enqueues the envelope stored under its exact tag, and only that one, even when
      `multiple` also removes lower entries: those lower envelopes are dropped, not retried. */
  lemma NackEnqueuesOnlyNamedTag(b: Bookkeeping, tag: nat, lower: nat)
    requires tag in b.outstanding && lower in b.outstanding && lower < tag
    ensures Step(b, Nack(tag, true)).retry == b.retry + [b.outstanding[tag]]
    ensures lower !in Step(b, Nack(tag, true)).outstanding
  {
  }

  /** A nack for a tag that is not outstanding enqueues nothing. */
  lemma NackOfAbsentTagEnqueuesNothing(b: Bookkeeping, tag: nat, multiple: bool)
    requires tag !in b.outstanding
    ensures Step(b, Nack(tag, multiple)).retry == b.retry
  {
  }

  /** A cumulative ack of the highest outstanding tag drains the map. */
  lemma CumulativeAckOfHighestDrains(b: Bookkeeping, tag: nat)
    requires forall k :: k in b.outstanding ==> k <= tag
    ensures Step(b, Ack(tag, true)).outstanding == map[]
  {
  }

  /** `b` is what `b0` can have become after the envelopes `added` were recorded and some
      confirms arrived: the retry queue only grew, every envelope it gained and every
      outstanding entry that changed comes from `b0`'s outstanding map or from `added`. */
  ghost predicate Accounted(b0: Bookkeeping, b: Bookkeeping, added: seq<Envelope>)
  {
    && |b0.retry| <= |b.retry| && b.retry[..|b0.retry|] == b0.retry
    && (forall i :: |b0.retry| <= i < |b.retry| ==> b.retry[i] in b0.outstanding.Values || b.retry[i] in added)
    && (forall k :: k in b.outstanding ==>
          (k in b0.outstanding && b.outstanding[k] == b0.outstanding[k]) || b.outstanding[k] in added)
  }

  lemma AccountedReflexive(b: Bookkeeping)
    ensures Accounted(b, b, [])
  {
  }

  /** One callback keeps the account: it removes entries, and enqueues at most the envelope
      it removes under its own tag. */
  lemma StepKeepsAccount(b0: Bookkeeping, b: Bookkeeping, added: seq<Envelope>, ev: ConfirmEvent)
    requires Accounted(b0, b, added)
    ensures Accounted(b0, Step(b, ev), added)
  {
    var r := Step(b, ev);
    assert r.retry[..|b.retry|] == b.retry;
    assert r.retry[..|b0.retry|] == b.retry[..|b0.retry|];
    forall i | |b0.retry| <= i < |r.retry|
      ensures r.retry[i] in b0.outstanding.Values || r.retry[i] in added
    {
      if i >= |b.retry| {
        var v := b.outstanding[ev.tag];
        assert r.retry[i] == v;
        assert (ev.tag in b0.outstanding && v == b0.outstanding[ev.tag]) || v in added;
      } else {
        assert r.retry[i] == b.retry[i];
      }
    }
  }

  /** Any sequence of callbacks keeps the account. */
  lemma {:induction false} RunKeepsAccount(b0: Bookkeeping, b: Bookkeeping, added: seq<Envelope>, evs: seq<ConfirmEvent>)
    requires Accounted(b0, b, added)
    ensures Accounted(b0, Run(b, evs), added)
    decreases |evs|
  {
    if evs != [] {
      RunKeepsAccount(b0, b, added, evs[..|evs| - 1]);
      StepKeepsAccount(b0, Run(b, evs[..|evs| - 1]), added, evs[|evs| - 1]);
    }
  }

  /** Over any sequence of broker callbacks the bookkeeping only shrinks, and every envelope
      the callbacks enqueue for retry was outstanding, none of them twice over. */
  lemma RunConserves(b: Bookkeeping, evs: seq<ConfirmEvent>)
    ensures Accounted(b, Run(b, evs), [])
  {
    AccountedReflexive(b);
    RunKeepsAccount(b, b, [], evs);
  }

  /** Recording adds at most one entry per envelope. */
  lemma {:induction false} RecordedSize(m: map<nat, Envelope>, start: nat, es: seq<Envelope>)
    ensures |Recorded(m, start, es)| <= |m| + |es|
    decreases |es|
  {
    if es != [] {
      var n := |es| - 1;
      RecordedSize(m, start, es[..n]);
      var before := Recorded(m, start, es[..n]);
      TryAddedSize(before, start + n, es[n]);
    }
  }

  lemma TryAddedSize(m: map<nat, Envelope>, tag: nat, e: Envelope)
    ensures |TryAdded(m, tag, e)| <= |m| + 1
  {
    if tag !in m {
      assert TryAdded(m, tag, e).Keys == m.Keys + {tag};
      assert |m.Keys + {tag}| == |m.Keys| + 1;
    }
  }

  /** Recording stores no envelope from elsewhere. */
  lemma {:induction false} RecordedOrigin(m: map<nat, Envelope>, start: nat, es: seq<Envelope>)
    ensures forall k :: k in Recorded(m, start, es) ==>
              (k in m && Recorded(m, start, es)[k] == m[k]) || Recorded(m, start, es)[k] in es
    decreases |es|
  {
    if es != [] {
      var n := |es| - 1;
      var before := Recorded(m, start, es[..n]);
      RecordedOrigin(m, start, es[..n]);
      var r := Recorded(m, start, es);
      assert r == TryAdded(before, start + n, es[n]);
      forall k | k in r
        ensures (k in m && r[k] == m[k]) || r[k] in es
      {
        if k in before {
          if before[k] in es[..n] {
            var j :| 0 <= j < n && es[..n][j] == before[k];
            assert es[j] == before[k];
          }
        } else {
          assert r[k] == es[n];
        }
      }
    }
  }

  /** The bookkeeping after the envelopes `es` were recorded from tag `start`. */
  function Record(b: Bookkeeping, start: nat, es: seq<Envelope>): Bookkeeping
  {
    Bookkeeping(Recorded(b.outstanding, start, es), b.retry)
  }

  /** Recording `es` keeps the account once `es` is counted as added. */
  lemma RecordKeepsAccount(b0: Bookkeeping, b: Bookkeeping, added: seq<Envelope>, start: nat, es: seq<Envelope>)
    requires Accounted(b0, b, added)
    ensures Accounted(b0, Record(b, start, es), added + es)
  {
    RecordedOrigin(b.outstanding, start, es);
    var r := Record(b, start, es);
    forall k | k in r.outstanding
      ensures (k in b0.outstanding && r.outstanding[k] == b0.outstanding[k]) || r.outstanding[k] in added + es
    {
      if k in b.outstanding && r.outstanding[k] == b.outstanding[k] {
        assert (k in b0.outstanding && b.outstanding[k] == b0.outstanding[k]) || b.outstanding[k] in added;
      }
    }
  }

  /** How a polling wait for an empty map ends. */
  datatype DrainResult = Drained(book: Bookkeeping) | Expired(book: Bookkeeping)

  /** The i-th poll; past the end of the script nothing arrives and the clock has passed the
      limit of `time` seconds. */
  function PollAt(polls: seq<Poll>, k: nat, time: int): (p: Poll)
    ensures k < |polls| ==> p == polls[k]
    ensures k >= |polls| ==> p.events == [] && p.elapsedMs > time * 1000
  {
    if k < |polls| then polls[k] else Poll([], time * 1000 + 1)
  }

  /** WaitUntilConditionMet on "no delivery tag is outstanding": check; while not met, give up
      if the clock was past the limit at the previous check, otherwise let one poll's confirms
      arrive, check again and read the clock. */
  function Drain(b: Bookkeeping, polls: seq<Poll>, time: int, expired: bool): DrainResult
    decreases |polls|
  {
    if b.outstanding == map[] then Drained(b)
    else if expired || polls == [] then Expired(b)
    else Drain(Run(b, polls[0].events), polls[1..], time, polls[0].elapsedMs > time * 1000)
  }

  /** A drain succeeds exactly when the map has become empty, and gives up otherwise. */
  lemma {:induction false} DrainEndsEmptyOrExpired(b: Bookkeeping, polls: seq<Poll>, time: int, expired: bool)
    ensures Drain(b, polls, time, expired).Drained? <==> Drain(b, polls, time, expired).book.outstanding == map[]
    decreases |polls|
  {
    if b.outstanding != map[] && !expired && polls != [] {
      DrainEndsEmptyOrExpired(Run(b, polls[0].events), polls[1..], time, polls[0].elapsedMs > time * 1000);
    }
  }

  /** A drain keeps the account. */
  lemma {:induction false} DrainKeepsAccount(b0: Bookkeeping, b: Bookkeeping, added: seq<Envelope>, polls: seq<Poll>, time: int, expired: bool)
    requires Accounted(b0, b, added)
    ensures Accounted(b0, Drain(b, polls, time, expired).book, added)
    decreases |polls|
  {
    if b.outstanding != map[] && !expired && polls != [] {
      RunKeepsAccount(b0, b, added, polls[0].events);
      DrainKeepsAccount(b0, Run(b, polls[0].events), added, polls[1..], time, polls[0].elapsedMs > time * 1000);
    }
  }

  /** With every existing key below `start`, recording `es` stores `es[i]` under `start + i`,
      adds no other key and leaves the existing entries alone. */
  lemma {:induction false} RecordedAboveExisting(m: map<nat, Envelope>, start: nat, es: seq<Envelope>)
    requires forall k :: k in m ==> k < start
    ensures forall k: nat :: start <= k < start + |es| ==> k in Recorded(m, start, es) && Recorded(m, start, es)[k] == es[k - start]
    ensures forall k :: k in Recorded(m, start, es) ==> k in m || start <= k < start + |es|
    ensures forall k :: k in m ==> k in Recorded(m, start, es) && Recorded(m, start, es)[k] == m[k]
    decreases |es|
  {
    if es != [] {
      var n := |es| - 1;
      RecordedAboveExisting(m, start, es[..n]);
      assert es[..n] + [es[n]] == es;
      TryAddedAbove(m, start, es[..n], es[n], Recorded(m, start, es[..n]), Recorded(m, start, es));
    }
  }

  /** The inductive step of RecordedAboveExisting: TryAdd of one more envelope, under the next
      free tag, keeps the three properties. */
  lemma TryAddedAbove(m: map<nat, Envelope>, start: nat, init: seq<Envelope>, e: Envelope,
                      before: map<nat, Envelope>, after: map<nat, Envelope>)
    requires forall k :: k in m ==> k < start
    requires forall k: nat :: start <= k < start + |init| ==> k in before && before[k] == init[k - start]
    requires forall k :: k in before ==> k in m || start <= k < start + |init|
    requires forall k :: k in m ==> k in before && before[k] == m[k]
    requires after == TryAdded(before, start + |init|, e)
    ensures forall k: nat :: start <= k < start + |init| + 1 ==> k in after && after[k] == (init + [e])[k - start]
    ensures forall k :: k in after ==> k in m || start <= k < start + |init| + 1
    ensures forall k :: k in m ==> k in after && after[k] == m[k]
  {
    assert start + |init| !in before;
    forall k: nat | start <= k < start + |init| + 1
      ensures k in after && after[k] == (init + [e])[k - start]
    {
      if k < start + |init| {
        assert (init + [e])[k - start] == init[k - start];
      }
    }
  }

  /** Recording never overwrites: a key that is already present keeps its envelope, even when
      its tag is reused (TryAdd silently ignores the duplicate). */
  lemma {:induction false} RecordedNeverOverwrites(m: map<nat, Envelope>, start: nat, es: seq<Envelope>)
    ensures forall k :: k in m ==> k in Recorded(m, start, es) && Recorded(m, start, es)[k] == m[k]
    decreases |es|
  {
    if es != [] {
      RecordedNeverOverwrites(m, start, es[..|es| - 1]);
    }
  }

  /** Recording more envelopes only widens the account. */
  lemma AccountedGrows(b0: Bookkeeping, b: Bookkeeping, added: seq<Envelope>, more: seq<Envelope>)
    requires Accounted(b0, b, added)
    ensures Accounted(b0, b, added + more)
  {
  }

  /** Confirms without a nack never touch the retry queue. */
  lemma {:induction false} RunWithoutNacks(b: Bookkeeping, evs: seq<ConfirmEvent>)
    requires !AnyNack(evs)
    ensures Run(b, evs).retry == b.retry
    decreases |evs|
  {
    if evs != [] {
      RunWithoutNacks(b, evs[..|evs| - 1]);
    }
  }

  /** Whether one of the waits after `batches`, the first of them being wait `k`, throws;
      WaitForConfirmsOrDie throws at the first such wait and the publisher stops there. */
  function BatchDied(batches: seq<seq<Envelope>>, k: nat, waits: seq<Wait>): bool
    decreases |batches|
  {
    batches != [] && (Dies(WaitAt(waits, k)) || BatchDied(batches[1..], k + 1, waits))
  }

  /** What a batch publisher puts on the wire for `batches`, on a confirm-mode channel whose next
      sequence number is `start`: each batch, then a WaitForConfirmsOrDie of `waitSeconds`, up to
      and including the first wait that throws. */
  function BatchFrames(batches: seq<seq<Envelope>>, start: nat, k: nat, waits: seq<Wait>, waitSeconds: int): seq<Frame>
    decreases |batches|
  {
    if batches == [] then []
    else
      PublishedFrames(start, batches[0]) + [Waited(waitSeconds)]
      + (if Dies(WaitAt(waits, k)) then [] else BatchFrames(batches[1..], start + |batches[0]|, k + 1, waits, waitSeconds))
  }

  /** The bookkeeping after the same: each batch is recorded under its tags before it is
      published, and the confirms of `waits[k]` arrive during the k-th wait. */
  function BatchBook(b: Bookkeeping, batches: seq<seq<Envelope>>, start: nat, k: nat, waits: seq<Wait>): Bookkeeping
    decreases |batches|
  {
    if batches == [] then b
    else
      var w := WaitAt(waits, k);
      var after := Run(Record(b, start, batches[0]), w.events);
      if Dies(w) then after else BatchBook(after, batches[1..], start + |batches[0]|, k + 1, waits)
  }

  /** How many batches go out: up to and including the first whose wait throws. */
  function SentCount(batches: seq<seq<Envelope>>, k: nat, waits: seq<Wait>): (n: nat)
    ensures n <= |batches|
    decreases |batches|
  {
    if batches == [] then 0
    else if Dies(WaitAt(waits, k)) then 1
    else 1 + SentCount(batches[1..], k + 1, waits)
  }

  /** The bookkeeping after recording each of `bs` and letting its wait's confirms arrive. */
  function Sent(b: Bookkeeping, bs: seq<seq<Envelope>>, start: nat, k: nat, waits: seq<Wait>): Bookkeeping
    decreases |bs|
  {
    if bs == [] then b
    else Sent(Run(Record(b, start, bs[0]), WaitAt(waits, k).events), bs[1..], start + |bs[0]|, k + 1, waits)
  }

  /** The batch phase is the plain sequence of the batches that go out. */
  lemma {:induction false} BatchBookIsSent(b: Bookkeeping, batches: seq<seq<Envelope>>, start: nat, k: nat, waits: seq<Wait>)
    ensures BatchBook(b, batches, start, k, waits) == Sent(b, batches[..SentCount(batches, k, waits)], start, k, waits)
    decreases |batches|
  {
    if batches != [] {
      var after := Run(Record(b, start, batches[0]), WaitAt(waits, k).events);
      var n := SentCount(batches, k, waits);
      if Dies(WaitAt(waits, k)) {
        assert batches[..n] == [batches[0]];
        assert [batches[0]][1..] == [];
      } else {
        BatchBookIsSent(after, batches[1..], start + |batches[0]|, k + 1, waits);
        assert batches[..n][0] == batches[0] && batches[..n][1..] == batches[1..][..n - 1];
      }
    }
  }

  /** Sending batches keeps the account, with the sent envelopes counted as added. */
  lemma {:induction false} SentKeepsAccount(b0: Bookkeeping, b: Bookkeeping, added: seq<Envelope>, bs: seq<seq<Envelope>>,
                                            start: nat, k: nat, waits: seq<Wait>)
    requires Accounted(b0, b, added)
    ensures Accounted(b0, Sent(b, bs, start, k, waits), added + Flatten(bs))
    decreases |bs|
  {
    if bs == [] {
      AccountedSame(b0, b, added, Sent(b, bs, start, k, waits), added + Flatten(bs));
    } else {
      var after := SentFirst(b0, b, added, bs, start, k, waits);
      SentKeepsAccount(b0, after, added + bs[0], bs[1..], start + |bs[0]|, k + 1, waits);
      AddedThenBatches(added, bs);
    }
  }

  /** The first batch sent keeps the account, and the rest are sent from where it left off. */
  lemma SentFirst(b0: Bookkeeping, b: Bookkeeping, added: seq<Envelope>, bs: seq<seq<Envelope>>,
                  start: nat, k: nat, waits: seq<Wait>) returns (after: Bookkeeping)
    requires bs != [] && Accounted(b0, b, added)
    ensures Accounted(b0, after, added + bs[0])
    ensures Sent(b, bs, start, k, waits) == Sent(after, bs[1..], start + |bs[0]|, k + 1, waits)
  {
    after := Run(Record(b, start, bs[0]), WaitAt(waits, k).events);
    BatchStepKeepsAccount(b0, b, added, start, bs[0], WaitAt(waits, k).events);
  }

  /** The batch phase keeps the account, with every message of the phase counted as added. */
  lemma BatchBookKeepsAccount(b0: Bookkeeping, b: Bookkeeping, added: seq<Envelope>, batches: seq<seq<Envelope>>,
                              start: nat, k: nat, waits: seq<Wait>)
    requires Accounted(b0, b, added)
    ensures Accounted(b0, BatchBook(b, batches, start, k, waits), added + Flatten(batches))
  {
    var n := SentCount(batches, k, waits);
    BatchBookIsSent(b, batches, start, k, waits);
    SentKeepsAccount(b0, b, added, batches[..n], start, k, waits);
    AccountedGrows(b0, Sent(b, batches[..n], start, k, waits), added + Flatten(batches[..n]), Flatten(batches[n..]));
    FlattenSplit(batches, n);
    assert (added + Flatten(batches[..n])) + Flatten(batches[n..]) == added + Flatten(batches);
  }

  lemma AccountedSame(b0: Bookkeeping, b: Bookkeeping, added: seq<Envelope>, b': Bookkeeping, added': seq<Envelope>)
    requires Accounted(b0, b, added) && b' == b && added' == added
    ensures Accounted(b0, b', added')
  {
  }

  /** Recording one batch and letting one wait's confirms arrive keeps the account. */
  lemma BatchStepKeepsAccount(b0: Bookkeeping, b: Bookkeeping, added: seq<Envelope>, start: nat, x: seq<Envelope>, evs: seq<ConfirmEvent>)
    requires Accounted(b0, b, added)
    ensures Accounted(b0, Run(Record(b, start, x), evs), added + x)
  {
    RecordKeepsAccount(b0, b, added, start, x);
    RunKeepsAccount(b0, Record(b, start, x), added + x, evs);
  }

  lemma AddedThenBatches(added: seq<Envelope>, batches: seq<seq<Envelope>>)
    requires batches != []
    ensures added + Flatten(batches) == (added + batches[0]) + Flatten(batches[1..])
  {
  }

  /** The batch phase over non-empty `batches` when the first wait succeeds: the first batch, its
      wait, then the phase over the rest. */
  lemma BatchFramesLive(batches: seq<seq<Envelope>>, start: nat, k: nat, waits: seq<Wait>, secs: int)
    requires batches != [] && !Dies(WaitAt(waits, k))
    ensures BatchFrames(batches, start, k, waits, secs)
            == PublishedFrames(start, batches[0]) + [Waited(secs)] + BatchFrames(batches[1..], start + |batches[0]|, k + 1, waits, secs)
    ensures BatchDied(batches, k, waits) == BatchDied(batches[1..], k + 1, waits)
  {
  }

  /** The batch phase over non-empty `batches` when the first wait throws: the first batch and its
      wait, and nothing after. */
  lemma BatchFramesDead(batches: seq<seq<Envelope>>, start: nat, k: nat, waits: seq<Wait>, secs: int)
    requires batches != [] && Dies(WaitAt(waits, k))
    ensures BatchFrames(batches, start, k, waits, secs) == PublishedFrames(start, batches[0]) + [Waited(secs)]
    ensures BatchDied(batches, k, waits)
  {
  }

  /** Sending the next batch `q` of the remaining batches `todo` and waiting: when the wait
      throws the phase ends there, otherwise `rest` is what is left. `died`, `frames` and `book`
      are the outcome of the whole phase, in terms of what was sent before. */
  lemma BatchDiedFlush(todo: seq<seq<Envelope>>, q: seq<Envelope>, rest: seq<seq<Envelope>>, k: nat, k': nat,
                       waits: seq<Wait>, died: bool)
    requires todo == [q] + rest && k' == k + 1
    requires died == BatchDied(todo, k, waits)
    ensures Dies(WaitAt(waits, k)) ==> died
    ensures !Dies(WaitAt(waits, k)) ==> died == BatchDied(rest, k', waits)
  {
    assert todo[0] == q && todo[1..] == rest;
  }

  lemma BatchFramesFlush(todo: seq<seq<Envelope>>, q: seq<Envelope>, rest: seq<seq<Envelope>>, cur: nat, cur': nat, k: nat, k': nat,
                         waits: seq<Wait>, secs: int, log: seq<Frame>, log': seq<Frame>, frames: seq<Frame>)
    requires todo == [q] + rest && cur' == cur + |q| && k' == k + 1
    requires log' == log + PublishedFrames(cur, q) + [Waited(secs)]
    requires frames == log + BatchFrames(todo, cur, k, waits, secs)
    ensures Dies(WaitAt(waits, k)) ==> frames == log'
    ensures !Dies(WaitAt(waits, k)) ==> frames == log' + BatchFrames(rest, cur', k', waits, secs)
  {
    assert todo[0] == q && todo[1..] == rest;
    BatchFramesHead(todo, cur, k, waits, secs);
    if Dies(WaitAt(waits, k)) {
      Reassociate(log, PublishedFrames(cur, q), [Waited(secs)], [], log', frames, BatchFrames(todo, cur, k, waits, secs));
    } else {
      Reassociate(log, PublishedFrames(cur, q), [Waited(secs)], BatchFrames(rest, cur', k', waits, secs), log', frames,
                  BatchFrames(todo, cur, k, waits, secs));
    }
  }

  /** The first batch's frames, then, when its wait does not throw, those of the rest. */
  lemma BatchFramesHead(batches: seq<seq<Envelope>>, start: nat, k: nat, waits: seq<Wait>, secs: int)
    requires batches != []
    ensures Dies(WaitAt(waits, k)) ==>
              BatchFrames(batches, start, k, waits, secs) == PublishedFrames(start, batches[0]) + [Waited(secs)]
    ensures !Dies(WaitAt(waits, k)) ==>
              BatchFrames(batches, start, k, waits, secs)
              == PublishedFrames(start, batches[0]) + [Waited(secs)]
                 + BatchFrames(batches[1..], start + |batches[0]|, k + 1, waits, secs)
  {
    var head := PublishedFrames(start, batches[0]) + [Waited(secs)];
    assert head + [] == head;
  }

  lemma Reassociate<T>(log: seq<T>, s1: seq<T>, s2: seq<T>, more: seq<T>, log': seq<T>, frames: seq<T>, whole: seq<T>)
    requires log' == log + s1 + s2 && whole == s1 + s2 + more && frames == log + whole
    ensures frames == log' + more
    ensures more == [] ==> frames == log'
  {
  }

  lemma BatchBookFlush(todo: seq<seq<Envelope>>, q: seq<Envelope>, rest: seq<seq<Envelope>>, cur: nat, cur': nat, k: nat, k': nat,
                       waits: seq<Wait>, snap: Bookkeeping, snap': Bookkeeping, book: Bookkeeping)
    requires todo == [q] + rest && cur' == cur + |q| && k' == k + 1
    requires snap' == Run(Record(snap, cur, q), WaitAt(waits, k).events)
    requires book == BatchBook(snap, todo, cur, k, waits)
    ensures Dies(WaitAt(waits, k)) ==> book == snap'
    ensures !Dies(WaitAt(waits, k)) ==> book == BatchBook(snap', rest, cur', k', waits)
  {
    assert todo[0] == q && todo[1..] == rest;
  }

  /** A batch phase over the chunks of `messages`, starting from an empty retry queue, keeps the
      account with the messages as added. */
  lemma BatchPhaseAccounted(m0: map<nat, Envelope>, messages: seq<Envelope>, batchSize: int, waits: seq<Wait>)
    ensures Accounted(Bookkeeping(m0, []), BatchBook(Bookkeeping(m0, []), Batches(messages, batchSize), 1, 0, waits), messages)
  {
    var b0 := Bookkeeping(m0, []);
    AccountedReflexive(b0);
    BatchBookKeepsAccount(b0, b0, [], Batches(messages, batchSize), 1, 0, waits);
    BatchesPartition(messages, batchSize);
    assert [] + Flatten(Batches(messages, batchSize)) == messages;
  }

  /** Every envelope the call leaves outstanding or still to republish was already
      outstanding or is one of the messages. */
  ghost predicate Conserved(r: Report, m0: map<nat, Envelope>, messages: seq<Envelope>)
  {
    && (forall k :: k in r.outstanding ==> r.outstanding[k] in m0.Values || r.outstanding[k] in messages)
    && (r.outcome.Unfinished? ==>
          forall i :: 0 <= i < |r.outcome.pending| ==> r.outcome.pending[i] in m0.Values || r.outcome.pending[i] in messages)
  }

  /** A republish round that starts from `m1` on `retry`, both drawn from `m0` and `messages`,
      conserves them too. */
  lemma RetryConserved(r: Report, m0: map<nat, Envelope>, messages: seq<Envelope>, m1: map<nat, Envelope>, retry: seq<Envelope>)
    requires forall i :: 0 <= i < |retry| ==> retry[i] in m0.Values || retry[i] in messages
    requires forall k :: k in m1 ==> m1[k] in m0.Values || m1[k] in messages
    requires Conserved(r, m1, retry)
    ensures Conserved(r, m0, messages)
  {
    forall k | k in r.outstanding
      ensures r.outstanding[k] in m0.Values || r.outstanding[k] in messages
    {
      DrawnFrom(r.outstanding[k], m0, messages, m1, retry);
    }
    if r.outcome.Unfinished? {
      forall i | 0 <= i < |r.outcome.pending|
        ensures r.outcome.pending[i] in m0.Values || r.outcome.pending[i] in messages
      {
        DrawnFrom(r.outcome.pending[i], m0, messages, m1, retry);
      }
    }
  }

  lemma DrawnFrom(e: Envelope, m0: map<nat, Envelope>, messages: seq<Envelope>, m1: map<nat, Envelope>, retry: seq<Envelope>)
    requires forall i :: 0 <= i < |retry| ==> retry[i] in m0.Values || retry[i] in messages
    requires forall k :: k in m1 ==> m1[k] in m0.Values || m1[k] in messages
    requires e in m1.Values || e in retry
    ensures e in m0.Values || e in messages
  {
    if e in m1.Values {
      var k :| k in m1 && m1[k] == e;
    } else {
      var j :| 0 <= j < |retry| && retry[j] == e;
    }
  }

  /** Recording one more envelope is a TryAdd under the next tag. */
  lemma RecordNext(b: Bookkeeping, start: nat, es: seq<Envelope>, e: Envelope)
    ensures Record(b, start, es + [e]) == Bookkeeping(TryAdded(Record(b, start, es).outstanding, start + |es|, e), b.retry)
  {
    assert (es + [e])[..|es|] == es;
  }

  /** Sending one batch puts exactly one wait on the wire. */
  lemma OneWaitPerBatch(frames: seq<Frame>, start: nat, x: seq<Envelope>, secs: int, more: seq<Frame>)
    requires frames == PublishedFrames(start, x) + [Waited(secs)] + more
    ensures WaitCount(frames) == 1 + WaitCount(more)
  {
    WaitCountAppend(PublishedFrames(start, x) + [Waited(secs)], more);
    LastBatchWaitsOnce(PublishedFrames(start, x) + [Waited(secs)], start, x, secs);
  }

  lemma LastBatchWaitsOnce(frames: seq<Frame>, start: nat, x: seq<Envelope>, secs: int)
    requires frames == PublishedFrames(start, x) + [Waited(secs)]
    ensures WaitCount(frames) == 1
  {
    WaitCountAppend(PublishedFrames(start, x), [Waited(secs)]);
    WaitCountOfPublished(start, x);
    assert [Waited(secs)][..0] == [];
  }

  /** The batch phase waits once per batch it sends, so once per batch when no wait throws. */
  lemma {:induction false} BatchFramesWaits(batches: seq<seq<Envelope>>, start: nat, k: nat, waits: seq<Wait>, secs: int)
    ensures WaitCount(BatchFrames(batches, start, k, waits, secs)) <= |batches|
    ensures !BatchDied(batches, k, waits) ==> WaitCount(BatchFrames(batches, start, k, waits, secs)) == |batches|
    decreases |batches|
  {
    if batches == [] {
      assert BatchFrames(batches, start, k, waits, secs) == [];
    } else if Dies(WaitAt(waits, k)) {
      DeadBatchWaitsOnce(batches, start, k, waits, secs);
    } else {
      BatchFramesWaits(batches[1..], start + |batches[0]|, k + 1, waits, secs);
      LiveBatchWaitsOnce(batches, start, k, waits, secs);
    }
  }

  /** A batch whose wait throws ends the phase with exactly one wait on the wire. */
  lemma DeadBatchWaitsOnce(batches: seq<seq<Envelope>>, start: nat, k: nat, waits: seq<Wait>, secs: int)
    requires batches != [] && Dies(WaitAt(waits, k))
    ensures WaitCount(BatchFrames(batches, start, k, waits, secs)) == 1
    ensures BatchDied(batches, k, waits)
  {
    BatchFramesDead(batches, start, k, waits, secs);
    LastBatchWaitsOnce(BatchFrames(batches, start, k, waits, secs), start, batches[0], secs);
  }

  /** A batch whose wait succeeds adds one wait to what the rest of the phase puts on the wire. */
  lemma LiveBatchWaitsOnce(batches: seq<seq<Envelope>>, start: nat, k: nat, waits: seq<Wait>, secs: int)
    requires batches != [] && !Dies(WaitAt(waits, k))
    requires WaitCount(BatchFrames(batches[1..], start + |batches[0]|, k + 1, waits, secs)) <= |batches[1..]|
    requires !BatchDied(batches[1..], k + 1, waits)
             ==> WaitCount(BatchFrames(batches[1..], start + |batches[0]|, k + 1, waits, secs)) == |batches[1..]|
    ensures WaitCount(BatchFrames(batches, start, k, waits, secs)) <= |batches|
    ensures !BatchDied(batches, k, waits) ==> WaitCount(BatchFrames(batches, start, k, waits, secs)) == |batches|
  {
    BatchFramesLive(batches, start, k, waits, secs);
    OneWaitPerBatch(BatchFrames(batches, start, k, waits, secs), start, batches[0], secs,
                    BatchFrames(batches[1..], start + |batches[0]|, k + 1, waits, secs));
  }

  /** Publishing one more envelope of a chunk extends its frames. */
  lemma LogGrows(logStart: seq<Frame>, start: nat, chunk: seq<Envelope>, e: Envelope, log: seq<Frame>, log': seq<Frame>)
    requires log == logStart + PublishedFrames(start, chunk)
    requires log' == log + [Published(start + |chunk|, e)]
    ensures log' == logStart + PublishedFrames(start, chunk + [e])
  {
    PublishedFramesNext(start, chunk, e);
  }

  /** Recording one more envelope of a chunk extends its bookkeeping. */
  lemma SnapshotGrows(snapStart: Bookkeeping, start: nat, chunk: seq<Envelope>, e: Envelope, snap: Bookkeeping, snap': Bookkeeping)
    requires snap == Record(snapStart, start, chunk)
    requires snap' == Bookkeeping(TryAdded(snap.outstanding, start + |chunk|, e), snap.retry)
    ensures snap' == Record(snapStart, start, chunk + [e])
  {
    RecordNext(snapStart, start, chunk, e);
  }

  /** A batch phase that no wait cut short enqueued nothing for retry: a nack makes the wait
      that collects it throw. */
  lemma {:induction false} BatchRetriesOnlyOnDeath(b: Bookkeeping, batches: seq<seq<Envelope>>, start: nat, k: nat, waits: seq<Wait>)
    ensures !BatchDied(batches, k, waits) ==> BatchBook(b, batches, start, k, waits).retry == b.retry
    decreases |batches|
  {
    if batches != [] {
      var w := WaitAt(waits, k);
      var x := batches[0];
      if !Dies(w) {
        RunWithoutNacks(Record(b, start, x), w.events);
        BatchRetriesOnlyOnDeath(Run(Record(b, start, x), w.events), batches[1..], start + |x|, k + 1, waits);
      }
    }
  }

  /** What goes on the wire is a prefix of the batches laid end to end, numbered from `start`
      in order; when no wait throws it is all of them. */
  lemma {:induction false} BatchFramesPublishInOrder(batches: seq<seq<Envelope>>, start: nat, k: nat, waits: seq<Wait>, secs: int)
    ensures var pubs := Publications(BatchFrames(batches, start, k, waits, secs));
            |pubs| <= |Flatten(batches)| && pubs == PublishedFrames(start, Flatten(batches)[..|pubs|])
    ensures !BatchDied(batches, k, waits) ==>
              Publications(BatchFrames(batches, start, k, waits, secs)) == PublishedFrames(start, Flatten(batches))
    decreases |batches|
  {
    if batches == [] {
      assert BatchFrames(batches, start, k, waits, secs) == [];
    } else if Dies(WaitAt(waits, k)) {
      DyingBatchPublishes(batches, start, k, waits, secs);
    } else {
      BatchFramesPublishInOrder(batches[1..], start + |batches[0]|, k + 1, waits, secs);
      LivingBatchPublishes(batches, start, k, waits, secs);
    }
  }

  lemma DyingBatchPublishes(batches: seq<seq<Envelope>>, start: nat, k: nat, waits: seq<Wait>, secs: int)
    requires batches != [] && Dies(WaitAt(waits, k))
    ensures var pubs := Publications(BatchFrames(batches, start, k, waits, secs));
            |pubs| <= |Flatten(batches)| && pubs == PublishedFrames(start, Flatten(batches)[..|pubs|])
    ensures BatchDied(batches, k, waits)
  {
    var x := batches[0];
    var tail := Flatten(batches[1..]);
    assert Flatten(batches) == x + tail;
    assert BatchFrames(batches, start, k, waits, secs) == PublishedFrames(start, x) + [Waited(secs)] + [];
    SentThenRest(start, x, tail, secs, [], 0);
  }

  lemma LivingBatchPublishes(batches: seq<seq<Envelope>>, start: nat, k: nat, waits: seq<Wait>, secs: int)
    requires batches != [] && !Dies(WaitAt(waits, k))
    requires var pubs := Publications(BatchFrames(batches[1..], start + |batches[0]|, k + 1, waits, secs));
             |pubs| <= |Flatten(batches[1..])| && pubs == PublishedFrames(start + |batches[0]|, Flatten(batches[1..])[..|pubs|])
    requires !BatchDied(batches[1..], k + 1, waits) ==>
               Publications(BatchFrames(batches[1..], start + |batches[0]|, k + 1, waits, secs))
               == PublishedFrames(start + |batches[0]|, Flatten(batches[1..]))
    ensures var pubs := Publications(BatchFrames(batches, start, k, waits, secs));
            |pubs| <= |Flatten(batches)| && pubs == PublishedFrames(start, Flatten(batches)[..|pubs|])
    ensures !BatchDied(batches, k, waits) ==>
              Publications(BatchFrames(batches, start, k, waits, secs)) == PublishedFrames(start, Flatten(batches))
  {
    var x := batches[0];
    var rest := BatchFrames(batches[1..], start + |x|, k + 1, waits, secs);
    assert Flatten(batches) == x + Flatten(batches[1..]);
    BatchFramesLive(batches, start, k, waits, secs);
    SentThenPrefix(start, x, Flatten(batches[1..]), secs, rest, BatchDied(batches[1..], k + 1, waits));
  }

  /** Publishing `x`, waiting, then a prefix of `tail` (all of it unless `died`) publishes a
      prefix of `x + tail` (all of it unless `died`). */
  lemma SentThenPrefix(start: nat, x: seq<Envelope>, tail: seq<Envelope>, secs: int, restLog: seq<Frame>, died: bool)
    requires var pubs := Publications(restLog);
             |pubs| <= |tail| && pubs == PublishedFrames(start + |x|, tail[..|pubs|])
    requires !died ==> Publications(restLog) == PublishedFrames(start + |x|, tail)
    ensures var pubs := Publications(PublishedFrames(start, x) + [Waited(secs)] + restLog);
            |pubs| <= |x + tail| && pubs == PublishedFrames(start, (x + tail)[..|pubs|])
    ensures !died ==> Publications(PublishedFrames(start, x) + [Waited(secs)] + restLog) == PublishedFrames(start, x + tail)
  {
    var m := |Publications(restLog)|;
    SentThenRest(start, x, tail, secs, restLog, m);
    if !died {
      PublishedFramesNumbered(start + |x|, tail);
      assert m == |tail|;
    }
  }

  lemma PublicationsOfSent(start: nat, x: seq<Envelope>, secs: int)
    ensures Publications(PublishedFrames(start, x) + [Waited(secs)]) == PublishedFrames(start, x)
  {
    PublicationsAppend(PublishedFrames(start, x), [Waited(secs)]);
    PublicationsOfPublished(start, x);
    PublicationsOfWait(secs);
  }

  /** Publishing `x`, waiting, then publishing the first `m` of `tail` publishes the first
      `|x| + m` of `x + tail`. */
  lemma SentThenRest(start: nat, x: seq<Envelope>, tail: seq<Envelope>, secs: int, restLog: seq<Frame>, m: nat)
    requires m <= |tail| && Publications(restLog) == PublishedFrames(start + |x|, tail[..m])
    ensures var pubs := Publications(PublishedFrames(start, x) + [Waited(secs)] + restLog);
            |pubs| == |x| + m && pubs == PublishedFrames(start, (x + tail)[..|x| + m])
    ensures m == |tail| ==> (x + tail)[..|x| + m] == x + tail
  {
    var sent := PublishedFrames(start, x) + [Waited(secs)];
    PublicationsOfSent(start, x, secs);
    PublicationsAppend(sent, restLog);
    PrefixedPublications(start, x, tail, m);
  }

  /** Publishing `x` then the first `m` of `tail` is publishing a prefix of `x + tail`. */
  lemma PrefixedPublications(start: nat, x: seq<Envelope>, tail: seq<Envelope>, m: nat)
    requires m <= |tail|
    ensures |PublishedFrames(start, x) + PublishedFrames(start + |x|, tail[..m])| == |x| + m
    ensures PublishedFrames(start, x) + PublishedFrames(start + |x|, tail[..m]) == PublishedFrames(start, (x + tail)[..|x| + m])
    ensures m == |tail| ==> (x + tail)[..|x| + m] == x + tail
  {
    PublishedFramesAppend(start, x, tail[..m]);
    assert x + tail[..m] == (x + tail)[..|x| + m];
    PublishedFramesNumbered(start, x + tail[..m]);
  }

  /**
   * The publisher's `_messagesDeliveryTagsDictionary` and the per-call
   * `unsuccessfulPublishedMessages` queue, with the callbacks that change them.
   * Broker callbacks are atomic method calls; there are no threads.
   */
  class Tracker {
    var deliveryTags: map<nat, Envelope>
    var unsuccessful: seq<Envelope>

    function Snapshot(): Bookkeeping
      reads this
    {
      Bookkeeping(deliveryTags, unsuccessful)
    }

    constructor ()
      ensures deliveryTags == map[] && unsuccessful == []
    {
      deliveryTags := map[];
      unsuccessful := [];
    }

    /** A fresh `unsuccessfulPublishedMessages` queue at the start of a publish call. */
    method ResetRetryQueue()
      modifies this
      ensures deliveryTags == old(deliveryTags) && unsuccessful == []
    {
      unsuccessful := [];
    }

    method TryAdd(tag: nat, e: Envelope) returns (added: bool)
      modifies this
      ensures added <==> tag !in old(deliveryTags)
      ensures deliveryTags == TryAdded(old(deliveryTags), tag, e)
      ensures unsuccessful == old(unsuccessful)
    {
      added := tag !in deliveryTags;
      if added {
        deliveryTags := deliveryTags[tag := e];
      }
    }

    /** The stored envelope, or null; reading never changes the map. */
    function GetMappedMessage(tag: nat): (r: Option<Envelope>)
      reads this
      ensures r.Some? <==> tag in deliveryTags
      ensures r.Some? ==> r.value == deliveryTags[tag]
    {
      if tag in deliveryTags then Some(deliveryTags[tag]) else None
    }

    /** `_messagesDeliveryTagsDictionary.IsEmpty`, the drain condition. */
    function IsEmpty(): (r: bool)
      reads this
      ensures r <==> forall k :: k !in deliveryTags
    {
      deliveryTags == map[]
    }

    method RemovedConfirmedMessage(tag: nat, multiple: bool)
      modifies this
      ensures deliveryTags == Resolved(old(deliveryTags), tag, multiple)
      ensures unsuccessful == old(unsuccessful)
    {
      if multiple {
        var confirmed := set k | k in deliveryTags && k <= tag;
        while confirmed != {}
          invariant confirmed <= old(deliveryTags).Keys
          invariant unsuccessful == old(unsuccessful)
          invariant deliveryTags == map k | k in old(deliveryTags) && (k > tag || k in confirmed) :: old(deliveryTags)[k]
          invariant forall k :: k in confirmed ==> k <= tag
          decreases confirmed
        {
          var k :| k in confirmed;
          deliveryTags := deliveryTags - {k};
          confirmed := confirmed - {k};
        }
      } else {
        deliveryTags := deliveryTags - {tag};
      }
    }

    /** The BasicAcks handler: look the tag up (for logging) and remove. */
    method HandleAck(tag: nat, multiple: bool)
      modifies this
      ensures Snapshot() == Step(old(Snapshot()), Ack(tag, multiple))
    {
      var envelope := GetMappedMessage(tag);
      RemovedConfirmedMessage(tag, multiple);
    }

    /** The BasicNacks handler: the envelope under the exact tag, if any, is enqueued for
        retry before the removal. */
    method HandleNack(tag: nat, multiple: bool)
      modifies this
      ensures Snapshot() == Step(old(Snapshot()), Nack(tag, multiple))
    {
      var envelope := GetMappedMessage(tag);
      if envelope.Some? {
        unsuccessful := unsuccessful + [envelope.value];
      }
      RemovedConfirmedMessage(tag, multiple);
    }

    /** The broker delivering callbacks one at a time, in order. */
    method Deliver(evs: seq<ConfirmEvent>)
      modifies this
      ensures Snapshot() == Run(old(Snapshot()), evs)
    {
      var i := 0;
      while i < |evs|
        invariant 0 <= i <= |evs|
        invariant Snapshot() == Run(old(Snapshot()), evs[..i])
        decreases |evs| - i
      {
        assert evs[..i + 1][..i] == evs[..i];
        match evs[i] {
          case Ack(tag, multiple) => HandleAck(tag, multiple);
          case Nack(tag, multiple) => HandleNack(tag, multiple);
        }
        i := i + 1;
      }
      assert evs[..i] == evs;
    }

    /** WaitUntilConditionMet with the condition "the tag map is empty". `timeoutSecond` is the
        limit in seconds, 300 when not given; `timedOut` is the TimeoutException. */
    method WaitUntilConditionMet(polls: seq<Poll>, timeoutSecond: Option<int>) returns (timedOut: bool)
      modifies this
      ensures var d := Drain(old(Snapshot()), polls, timeoutSecond.GetOr(300), false);
              timedOut == d.Expired? && Snapshot() == d.book
    {
      var time := timeoutSecond.GetOr(300);
      var timeoutExpired := false;
      var meet := IsEmpty();
      var k := 0;
      while !meet
        invariant 0 <= k <= |polls| + 1
        invariant k > |polls| ==> timeoutExpired
        invariant meet == (deliveryTags == map[])
        invariant Drain(Snapshot(), polls[if k <= |polls| then k else |polls|..], time, timeoutExpired)
                  == Drain(old(Snapshot()), polls, time, false)
        decreases |polls| + 1 - k
      {
        if timeoutExpired {
          return true;
        }
        var p := PollAt(polls, k, time);
        if k < |polls| {
          assert polls[k..][1..] == polls[k + 1..];
        }
        Deliver(p.events);
        meet := IsEmpty();
        timeoutExpired := p.elapsedMs > time * 1000;
        k := k + 1;
      }
      return false;
    }
  }
}
