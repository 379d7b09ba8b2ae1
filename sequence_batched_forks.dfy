/**
  The `Sequence` extension over `BatchedForkedArray`: each operation copies
  the sequence into an array and reads the output of a `BatchedForkedArray`
  over it, except `batchedForked`, which builds an unbatched `ForkedArray`.
 */
module SequenceBatchedForks {
  import opened Options
  import opened Sequences
  import BFA = BatchedForkedArrays
  import SequenceForks

  /** `batchedFork(batch:filter:map:)`: the chunks of the sequence, with the closures. */
  function BatchedFork<V, O>(s: seq<V>, batch: nat, filter: V -> bool, transform: V -> O)
    : (b: BFA.BatchedForkedArray<V, O>)
    ensures BFA.IsChunking(b.batchedArray, s, BFA.BatchLimit(batch))
    ensures b.filter == filter && b.transform == transform
  {
    BFA.Make(s, batch, filter, transform)
  }

  /** `batchedFork(batch:map:)`: `batchedFork` with a filter that keeps every element. */
  function BatchedForkMapping<V, O>(s: seq<V>, batch: nat, transform: V -> O)
    : (b: BFA.BatchedForkedArray<V, O>)
    ensures BFA.IsChunking(b.batchedArray, s, BFA.BatchLimit(batch))
    ensures b.filter == AlwaysTrue && b.transform == transform
    ensures BFA.OutputOf(b) == Map(s, transform)
  {
    FilterAllTrue(s, AlwaysTrue);
    BatchedFork(s, batch, AlwaysTrue, transform)
  }

  /**
    `batchedForked(batch:filter:map:)`: builds an unbatched `ForkedArray`
    through `fork(filter:map:)`; `batch` is not used.
   */
  function BatchedForked<V, O>(s: seq<V>, batch: nat, filter: V -> bool, transform: V -> O)
    : (r: seq<O>)
    ensures r == Map(Filter(s, filter), transform)
  {
    SequenceForks.Forked(s, filter, transform)
  }

  /** `batchedForked(batch:map:)`: `batchedForked` with a filter that keeps every element. */
  function BatchedForkedMapping<V, O>(s: seq<V>, batch: nat, transform: V -> O): (r: seq<O>)
    ensures r == Map(s, transform)
  {
    FilterAllTrue(s, AlwaysTrue);
    BatchedForked(s, batch, AlwaysTrue, transform)
  }

  /**
    Whatever `batch` is given, `batchedForked` returns the same result, and it
    is the result the batched output would have given for any batch size.
   */
  lemma BatchedForkedIgnoresBatch<V, O>(
    s: seq<V>, batch: nat, other: nat, filter: V -> bool, transform: V -> O)
    ensures BatchedForked(s, batch, filter, transform) == BatchedForked(s, other, filter, transform)
    ensures BatchedForked(s, batch, filter, transform)
      == BFA.OutputOf(BatchedFork(s, other, filter, transform))
  {
  }

  /** `asyncBatchedMap(batch:_:)`: the sequential map, in order, for every batch size. */
  function AsyncBatchedMap<V, O>(s: seq<V>, batch: nat, transform: V -> O): (r: seq<O>)
    ensures r == Map(s, transform)
  {
    BFA.OutputOf(BatchedForkMapping(s, batch, transform))
  }

  /** `asyncBatchedCompactMap(batch:_:)`: the present results of the transform, in order. */
  function AsyncBatchedCompactMap<V, O>(s: seq<V>, batch: nat, transform: V -> Option<O>)
    : (r: seq<O>)
    ensures r == CompactMap(s, transform)
  {
    CompactOfMap(s, transform);
    Compact(BFA.OutputOf(BatchedForkMapping(s, batch, transform)))
  }

  /** `asyncBatchedFilter(batch:_:)`: the elements that pass, unchanged and in order. */
  function AsyncBatchedFilter<V>(s: seq<V>, batch: nat, isIncluded: V -> bool): (r: seq<V>)
    ensures r == Filter(s, isIncluded)
  {
    MapIdentity(Filter(s, isIncluded));
    BFA.OutputOf(BatchedFork(s, batch, isIncluded, Identity))
  }

  /**
    `asyncBatchedForEach(batch:_:)`: runs `asyncBatchedMap` and discards its
    result; as for `asyncForEach`, the closure's effects are the values it
    returns, and only which of them happen is observable.
   */
  function AsyncBatchedForEach<V, E>(s: seq<V>, batch: nat, body: V -> E): (effects: multiset<E>)
    ensures effects == multiset(Map(s, body))
  {
    multiset(AsyncBatchedMap(s, batch, body))
  }
}
