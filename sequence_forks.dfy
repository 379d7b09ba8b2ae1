/**
  The `Sequence` extension over `ForkedArray`: each operation copies the
  sequence into an array (`Array(self)`, the same elements in the same order)
  and reads the output of a `ForkedArray` over it.
 */
module SequenceForks {
  import opened Options
  import opened Sequences
  import FA = ForkedArrays

  /** `fork(filter:map:)`: a `ForkedArray` over the sequence's elements. */
  function Fork<V, O>(s: seq<V>, filter: V -> bool, transform: V -> O): (fa: FA.ForkedArray<V, O>)
    ensures FA.Valid(fa) && fa.input == s
    ensures fa.filter == filter && fa.transform == transform
  {
    FA.Make(s, filter, transform)
  }

  /** `fork(map:)`: `fork(filter: { _ in true }, map:)`, whose output is the plain map. */
  function ForkMapping<V, O>(s: seq<V>, transform: V -> O): (fa: FA.ForkedArray<V, O>)
    ensures FA.Valid(fa) && fa.input == s && fa.filter == AlwaysTrue
    ensures FA.Output(fa) == Map(s, transform)
  {
    FilterAllTrue(s, AlwaysTrue);
    Fork(s, AlwaysTrue, transform)
  }

  /** `forked(filter:map:)`: the filter-then-map of the sequence, in order. */
  function Forked<V, O>(s: seq<V>, filter: V -> bool, transform: V -> O): (r: seq<O>)
    ensures r == Map(Filter(s, filter), transform)
  {
    FA.Output(Fork(s, filter, transform))
  }

  /** `forked(map:)`: the sequential map, in order. */
  function ForkedMapping<V, O>(s: seq<V>, transform: V -> O): (r: seq<O>)
    ensures r == Map(s, transform)
  {
    FilterAllTrue(s, AlwaysTrue);
    Forked(s, AlwaysTrue, transform)
  }

  /** `asyncMap(_:)`: the sequential map, in order. */
  function AsyncMap<V, O>(s: seq<V>, transform: V -> O): (r: seq<O>)
    ensures r == Map(s, transform)
  {
    FA.Output(ForkMapping(s, transform))
  }

  /** `asyncCompactMap(_:)`: the present results of the transform, in order. */
  function AsyncCompactMap<V, O>(s: seq<V>, transform: V -> Option<O>): (r: seq<O>)
    ensures r == CompactMap(s, transform)
  {
    CompactOfMap(s, transform);
    Compact(FA.Output(ForkMapping(s, transform)))
  }

  /** `asyncFilter(_:)`: the elements that pass, unchanged and in order. */
  function AsyncFilter<V>(s: seq<V>, isIncluded: V -> bool): (r: seq<V>)
    ensures r == Filter(s, isIncluded)
  {
    MapIdentity(Filter(s, isIncluded));
    FA.Output(Fork(s, isIncluded, Identity))
  }

  /**
    `asyncForEach(_:)`: runs `asyncMap` and discards its result. The closure's
    effects are modelled as the values it returns; the calls run concurrently,
    so only which effects happen is observable, not their order.
   */
  function AsyncForEach<V, E>(s: seq<V>, body: V -> E): (effects: multiset<E>)
    ensures effects == multiset(Map(s, body))
  {
    multiset(AsyncMap(s, body))
  }

  /** `asyncForEach` runs the closure once per element: one effect each, none missing. */
  lemma ForEachOncePerElement<V, E>(s: seq<V>, body: V -> E)
    ensures |AsyncForEach(s, body)| == |s|
    ensures forall i :: 0 <= i < |s| ==> body(s[i]) in AsyncForEach(s, body)
  {
    var m := Map(s, body);
    forall i | 0 <= i < |s|
      ensures body(s[i]) in AsyncForEach(s, body)
    {
      assert m[i] in m;
    }
  }

  /** The transform of the `compactMap` test: even numbers are kept, odd ones dropped. */
  function EvenOrNothing(n: int): Option<int>
  {
    if n % 2 == 0 then Some(n) else None
  }

  /** The numbers `0 ..< n`. */
  function Range(n: nat): (r: seq<int>)
    ensures |r| == n && forall i :: 0 <= i < n ==> r[i] == i
  {
    seq(n, i => i)
  }

  lemma {:induction false} EvensCount(n: nat)
    ensures |CompactMap(Range(n), EvenOrNothing)| == (n + 1) / 2
  {
    if n > 0 {
      var m := n - 1;
      EvensCount(m);
      assert Range(n) == Range(m) + [m];
      CompactMapAppend(Range(m), [m], EvenOrNothing);
      var last := CompactMap([m], EvenOrNothing);
      assert last == CompactMap([], EvenOrNothing) + (if m % 2 == 0 then [m] else []) by {
        assert [m][1..] == [];
      }
      assert |last| == if m % 2 == 0 then 1 else 0;
    }
  }

  /**
    `asyncCompactMap` over `0 ..< n` keeping the even numbers returns
    `(n + 1) / 2` of them; for `0 ..< 100` that is 50.
   */
  lemma EvensCompactMap(n: nat)
    ensures |AsyncCompactMap(Range(n), EvenOrNothing)| == (n + 1) / 2
    ensures |AsyncCompactMap(Range(100), EvenOrNothing)| == 50
  {
    EvensCount(n);
    EvensCount(100);
  }
}
