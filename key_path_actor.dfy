/**
  `KeyPathActor`: a cell holding one value, replaced whole or through a key
  path. The actor's serialisation of calls is not modelled: each method runs
  to completion on its own, as every call does inside the actor.
 */
module KeyPathActors {

  /** A `WritableKeyPath`: reads one part of a value and writes it back. */
  datatype KeyPath<!T, !F> = KeyPath(get: T -> F, put: (T, F) -> T)

  /**
    The laws a writable key path obeys: reading gives what was last written,
    writing back what is there changes nothing, and a second write replaces
    the first.
   */
  ghost predicate LensLaws<T(!new), F(!new)>(kp: KeyPath<T, F>)
  {
    && (forall t, x :: kp.get(kp.put(t, x)) == x)
    && (forall t :: kp.put(t, kp.get(t)) == t)
    && (forall t, x, y :: kp.put(kp.put(t, x), y) == kp.put(t, y))
  }

  /** Writing through `kp` leaves the part that `other` reads untouched. */
  ghost predicate Independent<T(!new), F(!new), G>(kp: KeyPath<T, F>, other: KeyPath<T, G>)
  {
    forall t, x :: other.get(kp.put(t, x)) == other.get(t)
  }

  class KeyPathActor<T> {
    /** The wrapped value. */
    var value: T

    /** `init(value:)`: stores the given value unchanged. */
    constructor (value: T)
      ensures this.value == value
    {
      this.value := value;
    }

    /** `set(to:)`: replaces the whole value. */
    method Set(newValue: T)
      modifies this
      ensures value == newValue
    {
      value := newValue;
    }

    /** `set(_:to:)`: writes one part of the value through a key path. */
    method SetAt<F>(keyPath: KeyPath<T, F>, newValue: F)
      modifies this
      ensures value == keyPath.put(old(value), newValue)
    {
      value := keyPath.put(value, newValue);
    }

    /** `update(to:)`: `set(to: newValue(value))`. */
    method Update(newValue: T -> T)
      modifies this
      ensures value == newValue(old(value))
    {
      Set(newValue(value));
    }

    /** `update(_:to:)`: `set(keyPath, to: newValue(value[keyPath: keyPath]))`. */
    method UpdateAt<F>(keyPath: KeyPath<T, F>, newValue: F -> F)
      modifies this
      ensures value == keyPath.put(old(value), newValue(keyPath.get(old(value))))
    {
      SetAt(keyPath, newValue(keyPath.get(value)));
    }
  }

  /** Two successive `set(to:)` calls leave the second value: the last write wins. */
  method LastWriteWins<T>(initial: T, first: T, second: T) returns (final: T)
    ensures final == second
  {
    var actor := new KeyPathActor(initial);
    actor.Set(first);
    actor.Set(second);
    final := actor.value;
  }

  /** `update(to:)` with the identity function leaves the value as it was. */
  method UpdateWithIdentity<T>(initial: T) returns (final: T)
    ensures final == initial
  {
    var actor := new KeyPathActor(initial);
    actor.Update(x => x);
    final := actor.value;
  }

  /** `update(to: f)` ends in the same state as `set(to: f(value))`. */
  method UpdateIsSet<T>(initial: T, f: T -> T) returns (updated: T, viaSet: T)
    ensures updated == viaSet && updated == f(initial)
  {
    var a := new KeyPathActor(initial);
    a.Update(f);
    var b := new KeyPathActor(initial);
    b.Set(f(b.value));
    updated, viaSet := a.value, b.value;
  }

  /** `update(kp, to: f)` ends in the same state as `set(kp, to: f(value[kp]))`. */
  method UpdateAtIsSetAt<T, F>(initial: T, keyPath: KeyPath<T, F>, f: F -> F)
    returns (updated: T, viaSet: T)
    ensures updated == viaSet
  {
    var a := new KeyPathActor(initial);
    a.UpdateAt(keyPath, f);
    var b := new KeyPathActor(initial);
    b.SetAt(keyPath, f(keyPath.get(b.value)));
    updated, viaSet := a.value, b.value;
  }

  /**
    After `set(kp, to: x)`, reading `kp` gives `x`, every part that writing
    through `kp` does not touch reads as before, and setting the part that is
    already there changes nothing.
   */
  method SetAtThenRead<T(!new), F(!new), G>(
    initial: T, keyPath: KeyPath<T, F>, other: KeyPath<T, G>, x: F)
    returns (read: F, otherRead: G, rewritten: T)
    requires LensLaws(keyPath) && Independent(keyPath, other)
    ensures read == x
    ensures otherRead == other.get(initial)
    ensures rewritten == initial
  {
    var actor := new KeyPathActor(initial);
    actor.SetAt(keyPath, x);
    read := keyPath.get(actor.value);
    otherRead := other.get(actor.value);
    var again := new KeyPathActor(initial);
    again.SetAt(keyPath, keyPath.get(again.value));
    rewritten := again.value;
  }

  /** `update(kp, to: identity)` leaves the value as it was. */
  method UpdateAtWithIdentity<T(!new), F(!new)>(initial: T, keyPath: KeyPath<T, F>)
    returns (final: T)
    requires LensLaws(keyPath)
    ensures final == initial
  {
    var actor := new KeyPathActor(initial);
    actor.UpdateAt(keyPath, x => x);
    final := actor.value;
  }
}
