/**
  `ForkedArray`: an array is split recursively into a binary tree of forks
  down to single elements; `output()` applies the filter and then the map at
  each leaf and joins every fork left-then-right. Each `async let` pair is
  modelled as "evaluate the left branch, evaluate the right branch, concatenate
  left before right", and the filter and map closures as total functions.
 */
module ForkedArrays {
  import opened Sequences

  /** A node of the decomposition tree; a `fork` holds its two resolved branches. */
  datatype ForkType<V> = None | Single(value: V) | Fork(left: ForkType<V>, right: ForkType<V>)

  /**
    The struct: the input array (`array`), the filter, the map (`transform`),
    and the two branches of the root fork that `init` builds. The root fields
    are private and only `init` (here `Make`) sets them, which `Valid` records.
   */
  datatype ForkedArray<!V, O> = ForkedArray(
    input: seq<V>,
    filter: V -> bool,
    transform: V -> O,
    left: ForkType<V>,
    right: ForkType<V>)

  /** The values of the `single` leaves, read left to right. */
  function Leaves<V>(t: ForkType<V>): seq<V>
  {
    match t
    case None => []
    case Single(v) => [v]
    case Fork(l, r) => Leaves(l) + Leaves(r)
  }

  /** No `none` node anywhere in the tree. */
  predicate NoEmptyNode<V>(t: ForkType<V>)
  {
    match t
    case None => false
    case Single(_) => true
    case Fork(l, r) => NoEmptyNode(l) && NoEmptyNode(r)
  }

  /** The number of fork levels above the deepest leaf. */
  function Height<V>(t: ForkType<V>): nat
  {
    match t
    case None => 0
    case Single(_) => 0
    case Fork(l, r) => 1 + if Height(l) < Height(r) then Height(r) else Height(l)
  }

  function Pow2(k: nat): (p: nat)
    ensures p >= 1
  {
    if k == 0 then 1 else 2 * Pow2(k - 1)
  }

  /**
    The split of an array of three or more elements at `count / 2`:
    `[0 ..< midPoint]` and `[midPoint ... count - 1]`.
   */
  function Halves<V>(a: seq<V>): (h: (seq<V>, seq<V>))
    requires |a| >= 3
    ensures |h.0| == |a| / 2
    ensures 0 < |h.0| < |a| && 0 < |h.1| < |a|
    ensures h.0 + h.1 == a
  {
    var midPoint := |a| / 2;
    (a[..midPoint], a[midPoint..|a|])
  }

  /**
    `split(array:)`: reading the leaves of the tree left to right gives back
    the array, and a non-empty array yields a tree without `none` nodes.
   */
  function Split<V>(a: seq<V>): (t: ForkType<V>)
    ensures Leaves(t) == a
    ensures |a| > 0 ==> NoEmptyNode(t)
    decreases |a|
  {
    if |a| == 0 then None
    else if |a| == 1 then Single(a[0])
    else if |a| == 2 then Fork(Single(a[0]), Single(a[1]))
    else
      var (l, r) := Halves(a);
      Fork(Split(l), Split(r))
  }

  /**
    The base cases of `split(array:)`: no element gives `none`, one element a
    `single` leaf, and two elements a fork of two leaves.
   */
  lemma SplitBaseCases<V>(x: V, y: V)
    ensures Split<V>([]) == None
    ensures Split([x]) == Single(x)
    ensures Split([x, y]) == Fork(Single(x), Single(y))
  {
  }

  /** The root fork built by `init` from the result of `split`. */
  function Root<V>(a: seq<V>): (root: (ForkType<V>, ForkType<V>))
    ensures Leaves(root.0) + Leaves(root.1) == a
    ensures a == [] ==> root.0 == None && root.1 == None
  {
    match Split(a)
    case None => (None, None)
    case Single(v) => (Single(v), None)
    case Fork(l, r) => (l, r)
  }

  /** The root fields hold what `init` builds from `array`. */
  ghost predicate Valid<V, O>(fa: ForkedArray<V, O>)
  {
    (fa.left, fa.right) == Root(fa.input)
  }

  /** `init(_:filter:map:)`. */
  function Make<V, O>(input: seq<V>, filter: V -> bool, transform: V -> O): (fa: ForkedArray<V, O>)
    ensures Valid(fa)
    ensures fa.input == input && fa.filter == filter && fa.transform == transform
  {
    var root := Root(input);
    ForkedArray(input, filter, transform, root.0, root.1)
  }

  /** `init(_:map:)`: the default filter keeps every element. */
  function MakeMapping<V, O>(input: seq<V>, transform: V -> O): (fa: ForkedArray<V, O>)
    ensures Valid(fa)
    ensures fa.input == input && fa.transform == transform
    ensures fa.filter == AlwaysTrue
  {
    Make(input, AlwaysTrue, transform)
  }

  /**
    The static `output(for:isIncluded:transform:)`: the output of a subtree is
    the sequential filter-then-map of its leaves, in leaf order.
   */
  function NodeOutput<V, O>(t: ForkType<V>, isIncluded: V -> bool, transform: V -> O): (r: seq<O>)
    ensures r == Map(Filter(Leaves(t), isIncluded), transform)
  {
    match t
    case None => []
    case Single(v) => if isIncluded(v) then [transform(v)] else []
    case Fork(l, r) =>
      var leftOutput := NodeOutput(l, isIncluded, transform);
      var rightOutput := NodeOutput(r, isIncluded, transform);
      FilterMapAppend(Leaves(l), Leaves(r), isIncluded, transform);
      leftOutput + rightOutput
  }

  /**
    `output()`: the root fork's left output followed by its right output,
    which is the sequential filter-then-map of the whole array in input order.
   */
  function Output<V, O>(fa: ForkedArray<V, O>): (r: seq<O>)
    requires Valid(fa)
    ensures r == Map(Filter(fa.input, fa.filter), fa.transform)
  {
    var leftOutput := NodeOutput(fa.left, fa.filter, fa.transform);
    var rightOutput := NodeOutput(fa.right, fa.filter, fa.transform);
    FilterMapAppend(Leaves(fa.left), Leaves(fa.right), fa.filter, fa.transform);
    leftOutput + rightOutput
  }

  /**
    The output is never longer than the input, and with a filter that keeps
    everything it is exactly as long.
   */
  lemma OutputLength<V, O>(fa: ForkedArray<V, O>)
    requires Valid(fa)
    ensures |Output(fa)| <= |fa.input|
    ensures (forall v :: fa.filter(v)) ==> |Output(fa)| == |fa.input|
  {
    if forall v :: fa.filter(v) {
      FilterAllTrue(fa.input, fa.filter);
    }
  }

  /** An empty array has a root of two `none` branches and outputs nothing. */
  lemma EmptyOutput<V, O>(filter: V -> bool, transform: V -> O)
    ensures Make([], filter, transform).left == None && Make([], filter, transform).right == None
    ensures Output(Make([], filter, transform)) == []
  {
  }

  lemma {:induction false} Pow2Monotone(i: nat, j: nat)
    requires i <= j
    ensures Pow2(i) <= Pow2(j)
    decreases j
  {
    if i < j {
      Pow2Monotone(i, j - 1);
    }
  }

  /** An array of three or more elements forks into the splits of its two halves. */
  lemma SplitFork<V>(a: seq<V>)
    requires |a| >= 3
    ensures Split(a) == Fork(Split(Halves(a).0), Split(Halves(a).1))
  {
  }

  /**
    One step of the height bound: if each half of `n` meets the bound for its
    own tree, then `n` meets it for the tree one level taller.
   */
  lemma HeightStep(n: nat, hl: nat, hr: nat)
    requires n >= 3
    requires n / 2 <= Pow2(hl) && (hl > 0 ==> Pow2(hl - 1) < n / 2)
    requires n - n / 2 <= Pow2(hr) && (hr > 0 ==> Pow2(hr - 1) < n - n / 2)
    ensures var m := if hl < hr then hr else hl;
      n <= Pow2(m + 1) && Pow2(m) < n
  {
    var m := if hl < hr then hr else hl;
    assert Pow2(hl) < n by {
      if hl > 0 { assert Pow2(hl) == 2 * Pow2(hl - 1); }
    }
    assert Pow2(hr) < n by {
      if hr > 0 { assert Pow2(hr) == 2 * Pow2(hr - 1); }
    }
    Pow2Monotone(hl, m);
    Pow2Monotone(hr, m);
    assert Pow2(m + 1) == 2 * Pow2(m);
  }

  /**
    The tree is balanced: a non-empty array of `n` elements splits into a tree
    of height exactly the ceiling of log2(n).
   */
  lemma {:induction false} SplitHeight<V>(a: seq<V>)
    requires |a| >= 1
    ensures |a| <= Pow2(Height(Split(a)))
    ensures Height(Split(a)) > 0 ==> Pow2(Height(Split(a)) - 1) < |a|
    decreases |a|
  {
    if |a| == 2 {
      assert Split(a) == Fork(Single(a[0]), Single(a[1]));
      assert Pow2(1) == 2;
    } else if |a| >= 3 {
      var (l, r) := Halves(a);
      SplitFork(a);
      SplitHeight(l);
      SplitHeight(r);
      HeightStep(|a|, Height(Split(l)), Height(Split(r)));
    }
  }
}
