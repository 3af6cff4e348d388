/** The sequential parts of the batch runner: cutting the items into batches,
    and picking the error to return out of the closed error channel. */
module Batches {
  import opened Sequences

  const BATCH_SIZE := 5
  const MAX_CONCURRENT_BATCHES := 20

  datatype Error = ContextCancelled | Failure(code: int)

  /** Go's `error`: `None` is nil. */
  type GoError = Option<Error>

  function BatchCount(total: nat): nat {
    (total + BATCH_SIZE - 1) / BATCH_SIZE
  }

  /** A cut of `items`: nothing lost, repeated or reordered, no empty batch,
      and only the last batch may be short. */
  ghost predicate IsPartition<T>(items: seq<T>, batches: seq<seq<T>>) {
    && Flatten(batches) == items
    && (forall b :: 0 <= b < |batches| ==> 0 < |batches[b]| <= 5)
    && (forall b :: 0 <= b < |batches| - 1 ==> |batches[b]| == 5)
  }

  /** The spawn loop's slicing. */
  method Partition<T>(items: seq<T>) returns (batches: seq<seq<T>>)
    ensures IsPartition(items, batches)
    ensures |batches| == BatchCount(|items|) == (|items| + 4) / 5
  {
    var total := |items|;
    var batchCount := (total + BATCH_SIZE - 1) / BATCH_SIZE;
    batches := [];
    var i := 0;
    while i < batchCount
      invariant 0 <= i <= batchCount && |batches| == i
      invariant Flatten(batches) == items[..if i < batchCount then i * BATCH_SIZE else total]
      invariant forall b :: 0 <= b < i ==> 0 < |batches[b]| <= BATCH_SIZE
      invariant forall b :: 0 <= b < i && b < batchCount - 1 ==> |batches[b]| == BATCH_SIZE
    {
      var start := i * BATCH_SIZE;
      var end := start + BATCH_SIZE;
      if end > total {
        end := total;
      }
      FlattenAppend(batches, items[start..end]);
      assert items[..start] + items[start..end] == items[..end];
      batches := batches + [items[start..end]];
      i := i + 1;
    }
    assert items[..total] == items;
  }

  /** The cut is unique, so every run of the spawn loop hands out the same batches:
      batch `b` is the slice the source computes for it. */
  lemma {:induction false} PartitionUnique<T>(items: seq<T>, batches: seq<seq<T>>)
    requires IsPartition(items, batches)
    ensures |batches| == BatchCount(|items|)
    ensures forall b :: 0 <= b < |batches| ==>
      && b * BATCH_SIZE <= Min((b + 1) * BATCH_SIZE, |items|)
      && batches[b] == items[b * BATCH_SIZE..Min((b + 1) * BATCH_SIZE, |items|)]
  {
    if batches != [] {
      var head, tail := batches[0], batches[1..];
      var rest := items[|head|..];
      assert Flatten(tail) == rest;
      assert forall b :: 0 <= b < |tail| ==> tail[b] == batches[b + 1];
      PartitionUnique(rest, tail);
      if tail != [] {
        assert |tail[0]| > 0;
      }
      forall b | 0 <= b < |batches|
        ensures b * BATCH_SIZE <= Min((b + 1) * BATCH_SIZE, |items|)
        ensures batches[b] == items[b * BATCH_SIZE..Min((b + 1) * BATCH_SIZE, |items|)]
      {
        if b > 0 {
          assert batches[b] == tail[b - 1];
        }
      }
    }
  }

  function Min(a: nat, b: nat): nat { if a <= b then a else b }

  /** The drain loop over the closed channel: the oldest non-nil error. */
  method Drain(queued: seq<GoError>) returns (result: GoError)
    ensures result.None? <==> forall e :: e in queued ==> e.None?
    ensures result.Some? ==>
      exists k :: 0 <= k < |queued| && queued[k] == result && forall j :: 0 <= j < k ==> queued[j].None?
  {
    var rest := queued;
    assert rest == queued[0..];
    while rest != []
      invariant exists k :: 0 <= k <= |queued| && rest == queued[k..] && forall j :: 0 <= j < k ==> queued[j].None?
      decreases |rest|
    {
      ghost var k :| 0 <= k <= |queued| && rest == queued[k..] && forall j :: 0 <= j < k ==> queued[j].None?;
      var err := rest[0];
      assert err == queued[k];
      if err.Some? {
        return err;
      }
      rest := rest[1..];
      assert rest == queued[k + 1..];
    }
    return None;
  }
}
