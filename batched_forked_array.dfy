/**
  `BatchedForkedArray`: the input is partitioned into contiguous chunks of at
  most `max(batch, 1)` elements; the chunks are then processed one after the
  other, each by filtering and mapping its elements, and the per-chunk results
  are flattened in chunk order (`output()`) or yielded one by one (`stream()`).
 */
module BatchedForkedArrays {
  import opened Sequences
  import ArrayForks

  /** The struct: the chunks built by `init`, the filter and the map (`transform`). */
  datatype BatchedForkedArray<!V, O> = BatchedForkedArray(
    batchedArray: seq<seq<V>>,
    filter: V -> bool,
    transform: V -> O)

  /** `max(batch, 1)`: a batch size of 0 behaves like 1. */
  function BatchLimit(batch: nat): (limit: nat)
    ensures limit >= 1
    ensures batch >= 1 ==> limit == batch
    ensures batch == 0 ==> limit == 1
  {
    if batch > 1 then batch else 1
  }

  /**
    `cs` partitions `a` into chunks of at most `limit` elements: they
    concatenate back to `a`, none is empty, and all but the last are full.
   */
  ghost predicate IsChunking<V>(cs: seq<seq<V>>, a: seq<V>, limit: nat)
  {
    && Flatten(cs) == a
    && (forall k :: 0 <= k < |cs| ==> 0 < |cs[k]| <= limit)
    && (forall k :: 0 <= k < |cs| - 1 ==> |cs[k]| == limit)
  }

  /** The chunking of `a`, defined by taking `limit` elements at a time from the front. */
  function Chunks<V>(a: seq<V>, limit: nat): (cs: seq<seq<V>>)
    requires limit >= 1
    ensures IsChunking(cs, a, limit)
    decreases |a|
  {
    if a == [] then []
    else if |a| <= limit then [a]
    else
      var rest := Chunks(a[limit..], limit);
      assert Flatten([a[..limit]] + rest) == a[..limit] + Flatten(rest) by {
        assert ([a[..limit]] + rest)[1..] == rest;
      }
      assert a == a[..limit] + a[limit..];
      [a[..limit]] + rest
  }

  /** There is only one chunking: every chunking of `a` is `Chunks(a, limit)`. */
  lemma {:induction false} ChunkingIsChunks<V>(cs: seq<seq<V>>, a: seq<V>, limit: nat)
    requires limit >= 1
    requires IsChunking(cs, a, limit)
    ensures cs == Chunks(a, limit)
    decreases |a|
  {
    if cs == [] {
      assert a == [];
    } else {
      var c, rest := cs[0], cs[1..];
      assert a == c + Flatten(rest);
      if rest == [] {
        assert a == c;
      } else {
        assert |c| == limit;
        assert |rest[0]| > 0;
        assert Flatten(rest) == rest[0] + Flatten(rest[1..]);
        assert a[..limit] == c;
        assert a[limit..] == Flatten(rest);
        assert forall k :: 0 <= k < |rest| ==> rest[k] == cs[k + 1];
        ChunkingIsChunks(rest, a[limit..], limit);
        assert cs == [c] + rest;
      }
    }
  }

  /**
    The number of chunks: all but the last hold `limit` elements, so `a` has
    `(|cs| - 1) * limit` elements plus those of the last chunk. Hence the
    count is the ceiling of `|a| / limit`: the least `k` with `|a| <= k * limit`.
   */
  lemma {:induction false} ChunkCount<V>(a: seq<V>, limit: nat)
    requires limit >= 1
    ensures var cs := Chunks(a, limit);
      cs != [] ==> |a| == (|cs| - 1) * limit + |cs[|cs| - 1]|
    ensures var n := |Chunks(a, limit)|;
      |a| <= n * limit && (n > 0 ==> (n - 1) * limit < |a|)
    decreases |a|
  {
    var cs := Chunks(a, limit);
    if |a| > limit {
      ChunkCount(a[limit..], limit);
      var rest := Chunks(a[limit..], limit);
      assert cs == [a[..limit]] + rest;
      assert cs[|cs| - 1] == rest[|rest| - 1];
      assert (|cs| - 1) * limit == (|rest| - 1) * limit + limit;
      assert |cs| * limit == |rest| * limit + limit;
    }
  }

  /**
    When the input holds `q` times `limit` elements there are `q` chunks and
    every one of them is full.
   */
  lemma {:induction false} EvenChunks<V>(a: seq<V>, limit: nat, q: nat)
    requires limit >= 1 && |a| == q * limit
    ensures |Chunks(a, limit)| == q
    ensures forall k :: 0 <= k < q ==> |Chunks(a, limit)[k]| == limit
    decreases q
  {
    if q > 1 {
      MulStep(q, limit);
      var rest := Chunks(a[limit..], limit);
      EvenChunks(a[limit..], limit, q - 1);
      assert Chunks(a, limit) == [a[..limit]] + rest;
    } else if q == 1 {
      assert Chunks(a, limit) == [a];
    }
  }

  /**
    One hundred elements in batches of 5 give 20 chunks of exactly 5, and with
    the always-true filter `stream()` yields 20 batches of exactly 5 results.
   */
  lemma HundredInBatchesOfFive<V, O>(a: seq<V>, transform: V -> O)
    requires |a| == 100
    ensures |Chunks(a, BatchLimit(5))| == 20
    ensures forall k :: 0 <= k < 20 ==> |Chunks(a, BatchLimit(5))[k]| == 5
    ensures |BatchOutputs(Chunks(a, BatchLimit(5)), AlwaysTrue, transform)| == 20
    ensures forall k :: 0 <= k < 20 ==>
      |BatchOutputs(Chunks(a, BatchLimit(5)), AlwaysTrue, transform)[k]| == 5
  {
    EvenChunks(a, 5, 20);
    var cs := Chunks(a, 5);
    forall k | 0 <= k < 20
      ensures |BatchOutputs(cs, AlwaysTrue, transform)[k]| == 5
    {
      FilterAllTrue(cs[k], AlwaysTrue);
    }
  }

  lemma MulStep(q: nat, limit: nat)
    requires q > 1 && limit >= 1
    ensures q * limit == (q - 1) * limit + limit
    ensures (q - 1) * limit >= limit
  {
  }

  /** `init(_:batch:filter:map:)`: the chunks of the input, as a value. */
  function Make<V, O>(input: seq<V>, batch: nat, filter: V -> bool, transform: V -> O)
    : (b: BatchedForkedArray<V, O>)
    ensures IsChunking(b.batchedArray, input, BatchLimit(batch))
    ensures b.filter == filter && b.transform == transform
  {
    BatchedForkedArray(Chunks(input, BatchLimit(batch)), filter, transform)
  }

  /** `init(_:batch:map:)`: the filter keeps every element. */
  function MakeMapping<V, O>(input: seq<V>, batch: nat, transform: V -> O)
    : (b: BatchedForkedArray<V, O>)
    ensures IsChunking(b.batchedArray, input, BatchLimit(batch))
    ensures b.filter == AlwaysTrue && b.transform == transform
  {
    Make(input, batch, AlwaysTrue, transform)
  }

  /**
    `init(_:batch:filter:map:)` as the source runs it: a `reduce(into:)` that
    appends each element to the chunk at `index` until that chunk holds
    `batchLimit` elements, and then opens a new chunk.
   */
  method New<V, O>(input: seq<V>, batch: nat, filter: V -> bool, transform: V -> O)
    returns (b: BatchedForkedArray<V, O>)
    ensures IsChunking(b.batchedArray, input, BatchLimit(batch))
    ensures b.batchedArray == Chunks(input, BatchLimit(batch))
    ensures b.filter == filter && b.transform == transform
  {
    var index: int := 0;
    var batchLimit := BatchLimit(batch);
    var partialResult: seq<seq<V>> := [];
    for i := 0 to |input|
      invariant IsChunking(partialResult, input[..i], batchLimit)
      invariant partialResult != [] ==> index == |partialResult| - 1
      invariant partialResult == [] ==> index == 0
      invariant partialResult == [] <==> i == 0
    {
      var value := input[i];
      assert input[..i + 1] == input[..i] + [value];
      if partialResult == [] {
        partialResult := partialResult + [[value]];
        FlattenAppendOne([], [value]);
      } else if !(|partialResult[index]| < batchLimit) {
        FlattenAppendOne(partialResult, [value]);
        partialResult := partialResult + [[value]];
        index := index + 1;
      } else {
        var front := partialResult[..index];
        assert partialResult == front + [partialResult[index]];
        FlattenAppendOne(front, partialResult[index]);
        FlattenAppendOne(front, partialResult[index] + [value]);
        partialResult := partialResult[index := partialResult[index] + [value]];
        assert partialResult == front + [partialResult[index]];
      }
    }
    assert input[..|input|] == input;
    ChunkingIsChunks(partialResult, input, batchLimit);
    b := BatchedForkedArray(partialResult, filter, transform);
  }

  /** `init(_:batch:map:)` as the source runs it: `init` with an always-true filter. */
  method NewMapping<V, O>(input: seq<V>, batch: nat, transform: V -> O)
    returns (b: BatchedForkedArray<V, O>)
    ensures b.batchedArray == Chunks(input, BatchLimit(batch))
    ensures b.filter == AlwaysTrue && b.transform == transform
  {
    b := New(input, batch, AlwaysTrue, transform);
  }

  /**
    The result of one chunk, `batch.asyncFilter(filter).asyncMap(map)`: the
    chunk's filter-then-map.
   */
  function BatchOutput<V, O>(batch: seq<V>, filter: V -> bool, transform: V -> O): (r: seq<O>)
    ensures r == Map(Filter(batch, filter), transform)
  {
    ArrayForks.AsyncMap(ArrayForks.AsyncFilter(batch, filter), transform)
  }

  /**
    The per-chunk results, in chunk order. Flattened, they are the
    filter-then-map of the flattened chunks.
   */
  function BatchOutputs<V, O>(cs: seq<seq<V>>, filter: V -> bool, transform: V -> O)
    : (rs: seq<seq<O>>)
    ensures |rs| == |cs|
    ensures forall k :: 0 <= k < |cs| ==> rs[k] == Map(Filter(cs[k], filter), transform)
    ensures Flatten(rs) == Map(Filter(Flatten(cs), filter), transform)
  {
    if cs == [] then []
    else
      var rest := BatchOutputs(cs[1..], filter, transform);
      FilterMapAppend(cs[0], Flatten(cs[1..]), filter, transform);
      assert ([BatchOutput(cs[0], filter, transform)] + rest)[1..] == rest;
      [BatchOutput(cs[0], filter, transform)] + rest
  }

  /** What `output()` returns: the filter-then-map of the flattened chunks. */
  function OutputOf<V, O>(b: BatchedForkedArray<V, O>): (r: seq<O>)
    ensures r == Map(Filter(Flatten(b.batchedArray), b.filter), b.transform)
  {
    Flatten(BatchOutputs(b.batchedArray, b.filter, b.transform))
  }

  /**
    `output()`: runs the chunks one after the other, appending each chunk's
    result, and flattens the results at the end.
   */
  method Output<V, O>(b: BatchedForkedArray<V, O>) returns (r: seq<O>)
    ensures r == Flatten(BatchOutputs(b.batchedArray, b.filter, b.transform))
    ensures r == Map(Filter(Flatten(b.batchedArray), b.filter), b.transform)
  {
    var batchedOutput: seq<seq<O>> := [];
    for i := 0 to |b.batchedArray|
      invariant |batchedOutput| == i
      invariant forall k :: 0 <= k < i ==>
        batchedOutput[k] == Map(Filter(b.batchedArray[k], b.filter), b.transform)
    {
      var batchedValues := BatchOutput(b.batchedArray[i], b.filter, b.transform);
      batchedOutput := batchedOutput + [batchedValues];
    }
    assert batchedOutput == BatchOutputs(b.batchedArray, b.filter, b.transform);
    r := Flatten(batchedOutput);
  }

  /**
    `stream()`, as the sequence of values it yields: one per chunk, in chunk
    order, each that chunk's filter-then-map.
   */
  method Stream<V, O>(b: BatchedForkedArray<V, O>) returns (batches: seq<seq<O>>)
    ensures |batches| == |b.batchedArray|
    ensures forall k :: 0 <= k < |batches| ==>
      batches[k] == Map(Filter(b.batchedArray[k], b.filter), b.transform)
    ensures Flatten(batches) == OutputOf(b)
  {
    batches := [];
    for i := 0 to |b.batchedArray|
      invariant |batches| == i
      invariant forall k :: 0 <= k < i ==>
        batches[k] == Map(Filter(b.batchedArray[k], b.filter), b.transform)
    {
      var batchedValues := BatchOutput(b.batchedArray[i], b.filter, b.transform);
      batches := batches + [batchedValues];
    }
    assert batches == BatchOutputs(b.batchedArray, b.filter, b.transform);
  }

  /** An empty input gives no chunks, and its output is empty. */
  lemma EmptyInput<V, O>(batch: nat, filter: V -> bool, transform: V -> O)
    ensures Make([], batch, filter, transform).batchedArray == []
    ensures OutputOf(Make([], batch, filter, transform)) == []
  {
  }
}
