/**
  Sequential reference operations: the standard library's `map`, `filter`,
  `compactMap` and `flatMap(identity)`, each evaluated element by element from
  the front. The forked and batched operations of the library are proved equal
  to compositions of these.
 */
module Sequences {
  import opened Options

  /** The identity function of Fork.swift, used as the map of `asyncFilter`. */
  function Identity<T>(x: T): T { x }

  /** The default filter `{ _ in true }`, which keeps every element. */
  function AlwaysTrue<V>(v: V): bool { true }

  /** Sequential `map`: one result per element, in input order. */
  function Map<V, O>(s: seq<V>, f: V -> O): (r: seq<O>)
    ensures |r| == |s|
    ensures forall i :: 0 <= i < |s| ==> r[i] == f(s[i])
  {
    if s == [] then [] else [f(s[0])] + Map(s[1..], f)
  }

  /** Sequential `filter`: the elements satisfying `p`, in input order. */
  function Filter<V>(s: seq<V>, p: V -> bool): (r: seq<V>)
    ensures |r| <= |s|
    ensures forall i :: 0 <= i < |r| ==> r[i] in s && p(r[i])
    ensures forall i :: 0 <= i < |s| && p(s[i]) ==> s[i] in r
  {
    if s == [] then []
    else if p(s[0]) then [s[0]] + Filter(s[1..], p)
    else Filter(s[1..], p)
  }

  /** `flatMap(identity)`: the concatenation of a sequence of sequences. */
  function Flatten<T>(ss: seq<seq<T>>): seq<T>
  {
    if ss == [] then [] else ss[0] + Flatten(ss[1..])
  }

  /** `compactMap { $0 }`: the payloads of the `Some` entries, in order. */
  function Compact<T>(xs: seq<Option<T>>): (r: seq<T>)
    ensures |r| <= |xs|
    ensures forall i :: 0 <= i < |r| ==> Some(r[i]) in xs
    ensures forall i :: 0 <= i < |xs| && xs[i].Some? ==> xs[i].value in r
  {
    if xs == [] then []
    else match xs[0]
      case Some(y) => [y] + Compact(xs[1..])
      case None => Compact(xs[1..])
  }

  /** Sequential `compactMap(f)`: the present results of `f`, in input order. */
  function CompactMap<V, O>(s: seq<V>, f: V -> Option<O>): (r: seq<O>)
    ensures |r| <= |s|
    ensures forall i :: 0 <= i < |r| ==> exists j :: 0 <= j < |s| && f(s[j]) == Some(r[i])
    ensures forall j :: 0 <= j < |s| && f(s[j]).Some? ==> f(s[j]).value in r
  {
    if s == [] then []
    else match f(s[0])
      case Some(y) => [y] + CompactMap(s[1..], f)
      case None => CompactMap(s[1..], f)
  }

  lemma MapAppend<V, O>(a: seq<V>, b: seq<V>, f: V -> O)
    ensures Map(a + b, f) == Map(a, f) + Map(b, f)
  {
    // Map's own ensures pin down every index of both sides.
  }

  lemma {:induction false} FilterAppend<V>(a: seq<V>, b: seq<V>, p: V -> bool)
    ensures Filter(a + b, p) == Filter(a, p) + Filter(b, p)
  {
    if a == [] {
      assert a + b == b;
    } else {
      assert (a + b)[1..] == a[1..] + b;
      FilterAppend(a[1..], b, p);
    }
  }

  /** Filter-then-map distributes over concatenation, keeping left before right. */
  lemma FilterMapAppend<V, O>(a: seq<V>, b: seq<V>, p: V -> bool, f: V -> O)
    ensures Map(Filter(a + b, p), f) == Map(Filter(a, p), f) + Map(Filter(b, p), f)
  {
    FilterAppend(a, b, p);
    MapAppend(Filter(a, p), Filter(b, p), f);
  }

  lemma {:induction false} FlattenAppend<T>(a: seq<seq<T>>, b: seq<seq<T>>)
    ensures Flatten(a + b) == Flatten(a) + Flatten(b)
  {
    if a == [] {
      assert a + b == b;
    } else {
      assert (a + b)[1..] == a[1..] + b;
      FlattenAppend(a[1..], b);
    }
  }

  lemma FlattenAppendOne<T>(a: seq<seq<T>>, c: seq<T>)
    ensures Flatten(a + [c]) == Flatten(a) + c
  {
    FlattenAppend(a, [c]);
    assert Flatten([c]) == c + Flatten([c][1..]);
  }

  /** With an always-true filter, filter-then-map is the plain sequential map. */
  lemma {:induction false} FilterAllTrue<V>(s: seq<V>, p: V -> bool)
    requires forall v :: p(v)
    ensures Filter(s, p) == s
  {
    if s != [] {
      FilterAllTrue(s[1..], p);
      assert s == [s[0]] + s[1..];
    }
  }

  /** Mapping the identity function changes nothing. */
  lemma MapIdentity<T>(s: seq<T>)
    ensures Map(s, Identity) == s
  {
  }

  /** `compactMap(f)` is `map(f)` followed by `compactMap { $0 }`. */
  lemma {:induction false} CompactOfMap<V, O>(s: seq<V>, f: V -> Option<O>)
    ensures Compact(Map(s, f)) == CompactMap(s, f)
  {
    if s != [] {
      CompactOfMap(s[1..], f);
      assert Map(s, f)[1..] == Map(s[1..], f);
    }
  }

  lemma {:induction false} CompactMapAppend<V, O>(a: seq<V>, b: seq<V>, f: V -> Option<O>)
    ensures CompactMap(a + b, f) == CompactMap(a, f) + CompactMap(b, f)
  {
    if a == [] {
      assert a + b == b;
    } else {
      assert (a + b)[1..] == a[1..] + b;
      CompactMapAppend(a[1..], b, f);
    }
  }
}
