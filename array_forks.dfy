/**
  The `Array` extension: thin wrappers that build a `ForkedArray` over the
  array itself and read its output.
 */
module ArrayForks {
  import opened Sequences
  import FA = ForkedArrays

  /** `fork(filter:map:)`: a `ForkedArray` over the array with the given closures. */
  function Fork<V, O>(a: seq<V>, filter: V -> bool, transform: V -> O): (fa: FA.ForkedArray<V, O>)
    ensures FA.Valid(fa) && fa.input == a
    ensures FA.Output(fa) == Map(Filter(a, filter), transform)
  {
    FA.Make(a, filter, transform)
  }

  /** `fork(map:)`: the filter takes its default, which keeps every element. */
  function ForkMapping<V, O>(a: seq<V>, transform: V -> O): (fa: FA.ForkedArray<V, O>)
    ensures FA.Valid(fa) && fa.input == a && fa.filter == AlwaysTrue
    ensures FA.Output(fa) == Map(a, transform)
  {
    FilterAllTrue(a, AlwaysTrue);
    Fork(a, AlwaysTrue, transform)
  }

  /** `forked(filter:map:)`: the output of a fresh `ForkedArray`. */
  function Forked<V, O>(a: seq<V>, filter: V -> bool, transform: V -> O): (r: seq<O>)
    ensures r == Map(Filter(a, filter), transform)
  {
    FA.Output(FA.Make(a, filter, transform))
  }

  /** `asyncMap(_:)`: the sequential map, in order. */
  function AsyncMap<V, O>(a: seq<V>, transform: V -> O): (r: seq<O>)
    ensures r == Map(a, transform)
  {
    FA.Output(ForkMapping(a, transform))
  }

  /** `asyncFilter(_:)`: the elements that pass, unchanged and in order. */
  function AsyncFilter<V>(a: seq<V>, isIncluded: V -> bool): (r: seq<V>)
    ensures r == Filter(a, isIncluded)
  {
    MapIdentity(Filter(a, isIncluded));
    FA.Output(Fork(a, isIncluded, Identity))
  }
}
