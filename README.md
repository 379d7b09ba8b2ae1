# Fork: ordered fork/join over arrays, in Dafny

This project models the ordering and partitioning logic of the Swift library
Fork (0xLeif/Fork). The library runs an async filter and map over the
elements of an array in parallel and still returns the results in input
order. It has two engines:

- `ForkedArray` splits the array recursively into a binary tree of forks.
  Arrays of 0, 1 and 2 elements are base cases; longer arrays split at
  `count / 2`. At each `single` leaf it applies the filter and then the map,
  and at each fork it joins the left output before the right one.
- `BatchedForkedArray` partitions the array into contiguous chunks of at most
  `max(batch, 1)` elements. It then processes the chunks one after the other:
  `output()` flattens the per-chunk results, and `stream()` yields them one
  chunk at a time.

Around them sit the `KeyPathActor` cell and the façades on `Sequence` and
`Array`: `asyncMap`, `asyncFilter`, `asyncCompactMap`, `asyncForEach`,
`forked` and their batched forms.

Concurrency is abstracted away. The filter, map and transform closures are
total Dafny functions. Each `async let` pair becomes "evaluate the left
branch, evaluate the right branch, concatenate left before right". Under
that reading, the central results are:

- `ForkedArrays.Output`: the forked output equals the sequential
  `map(filter(array))`, in input order, for every array length.
- `BatchedForkedArrays.Output`: the batched output equals the same
  sequential result.
- `BatchedForkedArrays.New`: the chunking loop builds the unique chunking of
  the input. The chunks concatenate back to the input, none is empty, none
  exceeds the limit, and all but the last are full.

Files, one module each:

| file | module | source |
|---|---|---|
| `options.dfy` | `Options` | Swift's `Optional` |
| `sequences.dfy` | `Sequences` | sequential `map`, `filter`, `compactMap`, `flatMap(identity)`, used as references |
| `forked_array.dfy` | `ForkedArrays` | `Sources/Fork/ForkedArray.swift` |
| `batched_forked_array.dfy` | `BatchedForkedArrays` | `Sources/Fork/BatchedForkedArray.swift` |
| `key_path_actor.dfy` | `KeyPathActors` | `Sources/Fork/Actors/KeyPathActor.swift` |
| `array_forks.dfy` | `ArrayForks` | `Sources/Fork/Extensions/Array+ForkedArray.swift` |
| `sequence_forks.dfy` | `SequenceForks` | `Sources/Fork/Extensions/Sequence+ForkedArray.swift` |
| `sequence_batched_forks.dfy` | `SequenceBatchedForks` | `Sources/Fork/Extensions/Sequence+BatchedForkedArray.swift` |

Notes on the form of the model:

- `ForkedArray` is a struct whose fields are all `let`, so it is a datatype.
  `split` and the static `output(for:)` are recursive functions.
- The struct's private root fork is held as its two branches. The ghost
  predicate `ForkedArrays.Valid` records that `init` built them from the array.
- Several Swift names are Dafny keywords, so fields are renamed: `array`
  becomes `input` and `map` becomes `transform`.
- Swift overloads `fork`, `init`, `set` and `update`; Dafny has no overloading.
  The variants without a filter are named `...Mapping`, and the key-path
  variants of `set` and `update` are named `...At`.
- The `BatchedForkedArray` initialiser runs a `reduce(into:)` loop that
  mutates `partialResult` and `index`. It is the method
  `BatchedForkedArrays.New`, with loop invariants. The method is proved equal
  to the reference function `Chunks`, which the pure façades use.
- `output()` and `stream()` also loop over the chunks. They are the methods
  `BatchedForkedArrays.Output` and `BatchedForkedArrays.Stream`, proved
  against the functions `OutputOf` and `BatchOutputs`.
- `KeyPathActor` is a class with its one field `value`, and each method
  overwrites that field. A `WritableKeyPath` is a getter/setter pair
  (`KeyPathActors.KeyPath`). The key-path laws are stated in the predicate
  `LensLaws` and required where they are used.
- `batchedForked(batch:filter:map:)` ignores its `batch` argument and builds an
  unbatched `ForkedArray` (Sequence+BatchedForkedArray.swift:25-31). The model
  keeps this. `SequenceBatchedForks.BatchedForkedIgnoresBatch` shows that the
  result does not depend on `batch` and equals the batched output for any
  batch size. The only difference is the concurrency bound, which the model
  does not observe.

## Model

| member | source | states |
|---|---|---|
| `ForkedArrays.Split` | Sources/Fork/ForkedArray.swift:62-94 | reading the `single` leaves of `split(array)` left to right gives back the array exactly, so there is one leaf per element; a non-empty array gives a tree with no `none` node |
| `ForkedArrays.Halves` | Sources/Fork/ForkedArray.swift:81-91 | for three or more elements the split point is `count / 2`; both halves are non-empty and strictly shorter than the array, and they concatenate back to it |
| `ForkedArrays.SplitHeight` | Sources/Fork/ForkedArray.swift:81-91 | the tree is balanced: for `n >= 1` elements its height `h` satisfies `n <= 2^h` and, when `h > 0`, `2^(h-1) < n`, so `h` is the ceiling of log2(n) |
| `ForkedArrays.SplitBaseCases` | Sources/Fork/ForkedArray.swift:65-80 | `split` of no element is `.none`, of one element `.single(a[0])`, and of two elements `.fork(.single(a[0]), .single(a[1]))` |
| `ForkedArrays.Root` | Sources/Fork/ForkedArray.swift:30-45 | the two branches of the root fork built by `init` hold all the elements between them, left then right; an empty array gives the root `Fork(.none, .none)` |
| `ForkedArrays.Make` | Sources/Fork/ForkedArray.swift:21-46 | `init` keeps the array and both closures, and its root fork is the one built from `split(array)` |
| `ForkedArrays.MakeMapping` | Sources/Fork/ForkedArray.swift:21-25 | `init` without a filter uses the default `{ _ in true }` |
| `ForkedArrays.NodeOutput` | Sources/Fork/ForkedArray.swift:96-122 | the output of any subtree is the sequential filter-then-map of its leaves in leaf order: `none` gives `[]`, an excluded leaf gives `[]`, an included leaf gives `[map(v)]`, and a fork gives its left output followed by its right output |
| `ForkedArrays.Output` | Sources/Fork/ForkedArray.swift:49-58 | `output()` equals the sequential `map(filter(array))`, in input order, for every array length |
| `ForkedArrays.OutputLength` | Sources/Fork/ForkedArray.swift:23 | the output is never longer than the array; when the filter keeps every element, as the default does, it is exactly as long |
| `ForkedArrays.EmptyOutput` | Sources/Fork/ForkedArray.swift:30-36 | an empty array gets the root `Fork(.none, .none)` and its output is `[]` |
| `BatchedForkedArrays.BatchLimit` | Sources/Fork/BatchedForkedArray.swift:20 | the batch limit is `max(batch, 1)`: at least 1, equal to `batch` when it is positive, and 1 for `batch == 0` |
| `BatchedForkedArrays.Chunks` | Sources/Fork/BatchedForkedArray.swift:23-35 | the chunking of the input: the chunks concatenate back to the input, each is non-empty and holds at most `batchLimit` elements, and all but the last hold exactly `batchLimit` |
| `BatchedForkedArrays.ChunkingIsChunks` | Sources/Fork/BatchedForkedArray.swift:23-35 | these three properties determine the chunks: any sequence of chunks that has them is `Chunks(input, limit)` |
| `BatchedForkedArrays.ChunkCount` | Sources/Fork/BatchedForkedArray.swift:23-35 | the input has `(chunks - 1) * limit` elements plus those of the last chunk, so the number of chunks is the ceiling of `count / limit` |
| `BatchedForkedArrays.EvenChunks` | Sources/Fork/BatchedForkedArray.swift:29-34 | when the input holds `q * limit` elements, there are `q` chunks and every one is full |
| `BatchedForkedArrays.HundredInBatchesOfFive` | Tests/ForkTests/BatchedForkedArrayTests.swift:19-30 | 100 elements with `batch: 5` give 20 chunks of exactly 5, and with a filter that keeps every element `stream()` yields 20 batches of exactly 5 results |
| `BatchedForkedArrays.Make` | Sources/Fork/BatchedForkedArray.swift:13-40 | `init` stores a chunking of the input with limit `max(batch, 1)`, and both closures |
| `BatchedForkedArrays.MakeMapping` | Sources/Fork/BatchedForkedArray.swift:81-87 | the convenience `init` has the same chunks and a filter that keeps every element |
| `BatchedForkedArrays.New` | Sources/Fork/BatchedForkedArray.swift:13-40 | the `reduce(into:)` loop: after each element the chunks so far form the chunking of the prefix read, and `index == partialResult.count - 1` whenever `partialResult` is non-empty; at the end the chunks are exactly `Chunks(input, max(batch, 1))` |
| `BatchedForkedArrays.NewMapping` | Sources/Fork/BatchedForkedArray.swift:81-87 | the convenience `init` runs `init` with `{ _ in true }`: same chunks, filter always true |
| `BatchedForkedArrays.BatchOutput` | Sources/Fork/BatchedForkedArray.swift:49 | one chunk's result, `batch.asyncFilter(filter).asyncMap(map)`, is that chunk's sequential filter-then-map |
| `BatchedForkedArrays.BatchOutputs` | Sources/Fork/BatchedForkedArray.swift:45-55 | there is one result per chunk, in chunk order, each that chunk's filter-then-map; flattened, they are the filter-then-map of the flattened chunks |
| `BatchedForkedArrays.OutputOf` | Sources/Fork/BatchedForkedArray.swift:45-55 | the flattened per-chunk results equal the filter-then-map of all the elements of the chunks |
| `BatchedForkedArrays.Output` | Sources/Fork/BatchedForkedArray.swift:45-55 | `output()` appends each chunk's result in chunk order and flattens: the result is the flattening of the per-chunk results, and equals the filter-then-map of the concatenated chunks, which `New` makes the input |
| `BatchedForkedArrays.Stream` | Sources/Fork/BatchedForkedArray.swift:60-72 | `stream()` yields one value per chunk, in chunk order, each that chunk's filter-then-map; together they flatten to `output()` |
| `BatchedForkedArrays.EmptyInput` | Sources/Fork/BatchedForkedArray.swift:23-35 | an empty input gives no chunks and an empty output |
| `KeyPathActors.KeyPathActor.constructor` | Sources/Fork/Actors/KeyPathActor.swift:8 | `init(value:)` stores the given value unchanged |
| `KeyPathActors.KeyPathActor.Set` | Sources/Fork/Actors/KeyPathActor.swift:11-13 | `set(to: v)` makes `value == v`, whatever it was before |
| `KeyPathActors.KeyPathActor.SetAt` | Sources/Fork/Actors/KeyPathActor.swift:16-19 | `set(kp, to: x)` writes `x` through the key path into the old value |
| `KeyPathActors.KeyPathActor.Update` | Sources/Fork/Actors/KeyPathActor.swift:22-24 | `update(to: f)` makes the new value `f(old value)` |
| `KeyPathActors.KeyPathActor.UpdateAt` | Sources/Fork/Actors/KeyPathActor.swift:27-30 | `update(kp, to: f)` writes `f(value[kp])` through the key path |
| `KeyPathActors.LastWriteWins` | Sources/Fork/Actors/KeyPathActor.swift:11-13 | after two successive `set(to:)` calls the value is the second one |
| `KeyPathActors.UpdateWithIdentity` | Sources/Fork/Actors/KeyPathActor.swift:22-24 | `update(to:)` with the identity leaves the value unchanged |
| `KeyPathActors.UpdateIsSet` | Sources/Fork/Actors/KeyPathActor.swift:22-24 | `update(to: f)` ends in the same state as `set(to: f(value))`, namely `f(initial)` |
| `KeyPathActors.UpdateAtIsSetAt` | Sources/Fork/Actors/KeyPathActor.swift:27-30 | `update(kp, to: f)` ends in the same state as `set(kp, to: f(value[kp]))` |
| `KeyPathActors.SetAtThenRead` | Sources/Fork/Actors/KeyPathActor.swift:16-19 | under the key-path laws: after `set(kp, to: x)`, reading `kp` gives `x`; a part that writing through `kp` does not touch reads as before; writing back the part already there leaves the value unchanged |
| `KeyPathActors.UpdateAtWithIdentity` | Sources/Fork/Actors/KeyPathActor.swift:27-30 | under the key-path laws, `update(kp, to:)` with the identity leaves the value unchanged |
| `ArrayForks.Fork` | Sources/Fork/Extensions/Array+ForkedArray.swift:3-12 | `fork(filter:map:)` builds a `ForkedArray` over the array itself, whose output is the filter-then-map of the array |
| `ArrayForks.ForkMapping` | Sources/Fork/Extensions/Array+ForkedArray.swift:4 | `fork(map:)` takes the default always-true filter, so its output is the plain sequential map |
| `ArrayForks.Forked` | Sources/Fork/Extensions/Array+ForkedArray.swift:15-25 | `forked(filter:map:)` returns the filter-then-map of the array, in order |
| `ArrayForks.AsyncMap` | Sources/Fork/Extensions/Array+ForkedArray.swift:28-32 | `asyncMap(f)` equals the sequential map of `f` over the array, in order (`[]` for an empty array) |
| `ArrayForks.AsyncFilter` | Sources/Fork/Extensions/Array+ForkedArray.swift:35-39 | `asyncFilter(p)` equals the sequential filter of `p`, elements unchanged and in order (`[]` for an empty array) |
| `SequenceForks.Fork` | Sources/Fork/Extensions/Sequence+ForkedArray.swift:3-12 | `fork(filter:map:)` builds the `ForkedArray` of the sequence's elements with the given closures |
| `SequenceForks.ForkMapping` | Sources/Fork/Extensions/Sequence+ForkedArray.swift:15-19 | `fork(map:)` is `fork(filter: { _ in true }, map:)`, whose output is the plain sequential map |
| `SequenceForks.Forked` | Sources/Fork/Extensions/Sequence+ForkedArray.swift:22-27 | `forked(filter:map:)` is the output of `fork(filter:map:)`, the filter-then-map of the elements in order |
| `SequenceForks.ForkedMapping` | Sources/Fork/Extensions/Sequence+ForkedArray.swift:30-34 | `forked(map:)` is the sequential map of the elements |
| `SequenceForks.AsyncMap` | Sources/Fork/Extensions/Sequence+ForkedArray.swift:37-41 | `asyncMap(f)` equals the sequential map of `f`, in order |
| `SequenceForks.AsyncCompactMap` | Sources/Fork/Extensions/Sequence+ForkedArray.swift:44-48 | `asyncCompactMap(f)` returns exactly the non-nil results of `f`, in order |
| `SequenceForks.AsyncFilter` | Sources/Fork/Extensions/Sequence+ForkedArray.swift:51-55 | `asyncFilter(p)` returns the elements satisfying `p`, unchanged and in order |
| `SequenceForks.AsyncForEach` | Sources/Fork/Extensions/Sequence+ForkedArray.swift:58-62 | `asyncForEach(f)` runs the map of `asyncMap(f)` and keeps no result; its effects are exactly the multiset of `f(s[i])` over the elements, so `f` runs once per element (`SequenceForks.ForEachOncePerElement` spells this out) |
| `SequenceForks.ForEachOncePerElement` | Sources/Fork/Extensions/Sequence+ForkedArray.swift:58-62 | `asyncForEach(f)` produces exactly one effect per element, and every element's effect `f(s[i])` is among them |
| `SequenceForks.EvensCount` | Tests/ForkTests/ForkedArrayTests.swift:73-84 | the sequential `compactMap` keeping the even numbers of `0 ..< n` has `(n + 1) / 2` elements |
| `SequenceForks.EvensCompactMap` | Tests/ForkTests/ForkedArrayTests.swift:73-84 | `asyncCompactMap` keeping the even numbers of `0 ..< n` returns `(n + 1) / 2` of them, which is 50 for `0 ..< 100` |
| `SequenceBatchedForks.BatchedFork` | Sources/Fork/Extensions/Sequence+BatchedForkedArray.swift:3-14 | `batchedFork(batch:filter:map:)` builds the `BatchedForkedArray` whose chunks partition the elements with limit `max(batch, 1)` |
| `SequenceBatchedForks.BatchedForkMapping` | Sources/Fork/Extensions/Sequence+BatchedForkedArray.swift:17-22 | `batchedFork(batch:map:)` is `batchedFork` with an always-true filter; its output is the plain sequential map |
| `SequenceBatchedForks.BatchedForked` | Sources/Fork/Extensions/Sequence+BatchedForkedArray.swift:25-31 | `batchedForked(batch:filter:map:)` returns the filter-then-map of the elements in order, through an unbatched `ForkedArray` |
| `SequenceBatchedForks.BatchedForkedMapping` | Sources/Fork/Extensions/Sequence+BatchedForkedArray.swift:34-39 | `batchedForked(batch:map:)` is the sequential map of the elements |
| `SequenceBatchedForks.BatchedForkedIgnoresBatch` | Sources/Fork/Extensions/Sequence+BatchedForkedArray.swift:30 | `batchedForked` gives the same result for any two batch sizes, and that result equals the batched output |
| `SequenceBatchedForks.AsyncBatchedMap` | Sources/Fork/Extensions/Sequence+BatchedForkedArray.swift:42-47 | `asyncBatchedMap(batch, f)` equals the sequential map of `f`, for every `batch` |
| `SequenceBatchedForks.AsyncBatchedCompactMap` | Sources/Fork/Extensions/Sequence+BatchedForkedArray.swift:50-55 | `asyncBatchedCompactMap(batch, f)` returns exactly the non-nil results of `f`, in order |
| `SequenceBatchedForks.AsyncBatchedFilter` | Sources/Fork/Extensions/Sequence+BatchedForkedArray.swift:58-63 | `asyncBatchedFilter(batch, p)` returns the elements satisfying `p`, unchanged and in order |
| `SequenceBatchedForks.AsyncBatchedForEach` | Sources/Fork/Extensions/Sequence+BatchedForkedArray.swift:66-71 | `asyncBatchedForEach` runs `asyncBatchedMap` and keeps no result; its effects are exactly the multiset of `f(s[i])` over the elements, so `f` runs once per element |

## Left out

- `Fork` (Sources/Fork/Fork.swift) is not part of this model. Its `merge` and `merged` run the two branches concurrently with `async let` and check for cancellation. A fork node here is an already-resolved pair, and `merged(using:)` is `using(left(), right())`.
- `ForkedActor`, `Actor.fork` and `Task.withCheckedCancellation` are not part of this model. They race two mutations against an actor or wrap a task in cancellation checks, which is runtime behaviour.
- Errors thrown by the closures and `CancellationError` are not modelled. The closures are total functions, so the rule that a failure returns no partial result is not covered. For the same reason, the order of the cancellation check relative to the filter at a leaf (ForkedArray.swift:105-107) is not modelled.
- `ForkedArrays.NodeOutput`: the model does not state that the map is never applied to an element the filter drops. The closures are pure here, so whether the map runs cannot be observed.
- `stream()`: the `AsyncThrowingStream` and its `Task` are not modelled. The model keeps only the sequence of yielded batches, not lazy production or a consumer that stops early.
- `SequenceForks.AsyncForEach` and `SequenceBatchedForks.AsyncBatchedForEach`: the closure returns `Void` in Swift. Its effects are modelled as the values it returns, collected as a multiset, because the order of the calls is unspecified.
- `KeyPathActor`: the actor's serialisation of concurrent calls is not modelled. Each method call runs alone.
- Key paths: `KeyPathActors.KeyPath` is a getter/setter pair. The laws that Swift's `WritableKeyPath` obeys are assumed through the `LensLaws` requirement, not derived.
- `batch` is a `UInt` in Swift and a `nat` here. The 64-bit upper bound plays no role in the chunking.
- `Array(self)` for a `Set` or `Dictionary` has an unspecified iteration order. The input is modelled as a sequence, already in the order that `Array(self)` produces.
- `output()` can be called more than once and recomputes each time. With pure closures every call returns the same result, because `Output` is a function.
