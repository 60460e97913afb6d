/** Cutting the message list into the chunks the batch publishers send between two waits. */
module Batching {

  /** The chunks a batch publisher flushes, in order: full chunks of `size` and a shorter last
      one. A `size` that is not positive never equals a queue count, so everything goes out in
      one chunk at the end; an empty list produces no chunk at all. */
  function Batches<T>(ms: seq<T>, size: int): seq<seq<T>>
    decreases |ms|
  {
    if ms == [] then []
    else if 0 < size < |ms| then [ms[..size]] + Batches(ms[size..], size)
    else [ms]
  }

  /** The chunks laid end to end. */
  function Flatten<T>(bs: seq<seq<T>>): seq<T>
    decreases |bs|
  {
    if bs == [] then [] else bs[0] + Flatten(bs[1..])
  }

  /** Flattening distributes over splitting the chunk list. */
  lemma {:induction false} FlattenSplit<T>(bs: seq<seq<T>>, n: nat)
    requires n <= |bs|
    ensures Flatten(bs[..n]) + Flatten(bs[n..]) == Flatten(bs)
    decreases n
  {
    if n > 0 {
      FlattenSplit(bs[1..], n - 1);
      assert bs[..n][0] == bs[0] && bs[..n][1..] == bs[1..][..n - 1];
      assert bs[1..][n - 1..] == bs[n..];
    } else {
      assert bs[..n] == [] && bs[n..] == bs;
    }
  }

  /** Chunking loses, duplicates and reorders nothing; every chunk is non-empty, no chunk is
      longer than `size` when `size` is positive, and every chunk but the last is full. */
  lemma {:induction false} BatchesPartition<T>(ms: seq<T>, size: int)
    ensures Flatten(Batches(ms, size)) == ms
    ensures forall i :: 0 <= i < |Batches(ms, size)| ==> Batches(ms, size)[i] != []
    ensures 0 < size ==> forall i :: 0 <= i < |Batches(ms, size)| ==> |Batches(ms, size)[i]| <= size
    ensures forall i :: 0 <= i < |Batches(ms, size)| - 1 ==> |Batches(ms, size)[i]| == size
    decreases |ms|
  {
    if ms == [] {
    } else if 0 < size < |ms| {
      var rest := Batches(ms[size..], size);
      BatchesPartition(ms[size..], size);
      assert ([ms[..size]] + rest)[1..] == rest;
      assert ms[..size] + ms[size..] == ms;
      forall i | 0 <= i < |Batches(ms, size)|
        ensures Batches(ms, size)[i] != []
        ensures 0 < size ==> |Batches(ms, size)[i]| <= size
      {
        if i > 0 {
          assert Batches(ms, size)[i] == rest[i - 1];
        }
      }
      forall i | 0 <= i < |Batches(ms, size)| - 1
        ensures |Batches(ms, size)[i]| == size
      {
        if i > 0 {
          assert Batches(ms, size)[i] == rest[i - 1];
        }
      }
    } else {
      assert [ms][1..] == [];
    }
  }

  /** With a positive size there are ceil(|ms| / size) chunks, that is the least count whose
      chunks of `size` cover the list; otherwise at most one. */
  lemma {:induction false} BatchesCount<T>(ms: seq<T>, size: int)
    ensures 0 < size ==> (|Batches(ms, size)| - 1) * size < |ms| <= |Batches(ms, size)| * size
    ensures size <= 0 ==> |Batches(ms, size)| == if ms == [] then 0 else 1
    decreases |ms|
  {
    if ms != [] && 0 < size < |ms| {
      var n := |Batches(ms[size..], size)|;
      BatchesCount(ms[size..], size);
      assert |Batches(ms, size)| == n + 1;
      assert (n + 1) * size == n * size + size;
    }
  }

  /** The queue `ms[s..e]` a publisher flushes, once full or at the last message, is the next
      chunk of the remaining messages. */
  lemma FlushIsNextBatch<T>(ms: seq<T>, s: nat, e: nat, size: int, todo: seq<seq<T>>, queue: seq<T>)
    requires s < e <= |ms|
    requires 0 < size ==> e - s <= size
    requires e - s == size || e == |ms|
    requires todo == Batches(ms[s..], size) && queue == ms[s..e]
    ensures todo == [queue] + Batches(ms[e..], size)
  {
    var r := ms[s..];
    if 0 < size < |r| {
      assert r[..size] == ms[s..e] && r[size..] == ms[e..];
    } else {
      assert e == |ms| && r == ms[s..e];
      assert ms[e..] == [];
    }
  }

  /** Queueing the next message extends the queue by one slot of the list. */
  lemma QueueNext<T>(ms: seq<T>, s: nat, i: nat, queue: seq<T>)
    requires s <= i < |ms| && queue == ms[s..i]
    ensures queue + [ms[i]] == ms[s..i + 1]
  {
  }
}
