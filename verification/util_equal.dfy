/** Shallow and deep equality of Go values (package util, equal.go).

    Go values that the library's containers hold are modelled by `Value`:
    integers, structs (field-wise), pointers and the nil pointer. A pointer
    carries its address (its identity) and the value it points at (its
    content). Shallow `Equal` is Go's `==`: on pointers it compares
    addresses. `DeepEqual` follows pointers and compares what they point at.
 */
module Util {

  datatype Value =
    | Int(i: int)
    | Struct(fields: seq<Value>)
    | Pointer(addr: nat, target: Value)
    | Nil

  /** Go's `==` on a comparable type. For pointers two values are equal
      only when they are the same allocation. */
  function Equal<T(==)>(left: T, right: T): bool
  {
    left == right
  }

  /** Go's `reflect.DeepEqual` restricted to `Value`: integers by value,
      structs field by field, pointers by what they point at, nil only
      to nil. */
  function DeepEqual(left: Value, right: Value): bool
    decreases left
  {
    match (left, right)
    case (Int(x), Int(y)) => x == y
    case (Struct(fs), Struct(gs)) =>
      |fs| == |gs| && forall k :: 0 <= k < |fs| ==> DeepEqual(fs[k], gs[k])
    case (Pointer(_, s), Pointer(_, t)) => DeepEqual(s, t)
    case (Nil, Nil) => true
    case _ => false
  }

  /** A value holding no pointer anywhere inside it: the element types on
      which the library may use `==` and `DeepEqual` interchangeably. */
  predicate PointerFree(v: Value)
  {
    match v
    case Int(_) => true
    case Struct(fs) => forall k :: 0 <= k < |fs| ==> PointerFree(fs[k])
    case Pointer(_, _) => false
    case Nil => false
  }

  /** Lifts a predicate on keys to a predicate on (key, value) pairs that
      ignores the value: how a set reuses key searches of a dict. */
  function TestOnFirstArg<K(!new), V(!new)>(p: K -> bool): (q: (K, V) -> bool)
    ensures forall k, v :: q(k, v) == p(k)
  {
    (k, v) => p(k)
  }

  lemma {:induction false} DeepEqualReflexive(v: Value)
    ensures DeepEqual(v, v)
    decreases v
  {
    match v
    case Int(_) =>
    case Struct(fs) =>
      forall k | 0 <= k < |fs|
        ensures DeepEqual(fs[k], fs[k])
      {
        DeepEqualReflexive(fs[k]);
      }
    case Pointer(_, t) => DeepEqualReflexive(t);
    case Nil =>
  }

  lemma {:induction false} DeepEqualSymmetric(a: Value, b: Value)
    ensures DeepEqual(a, b) == DeepEqual(b, a)
    decreases a
  {
    match (a, b)
    case (Struct(fs), Struct(gs)) =>
      if |fs| == |gs| {
        forall k | 0 <= k < |fs|
          ensures DeepEqual(fs[k], gs[k]) == DeepEqual(gs[k], fs[k])
        {
          DeepEqualSymmetric(fs[k], gs[k]);
        }
      }
    case (Pointer(_, s), Pointer(_, t)) => DeepEqualSymmetric(s, t);
    case _ =>
  }

  lemma {:induction false} DeepEqualTransitive(a: Value, b: Value, c: Value)
    requires DeepEqual(a, b) && DeepEqual(b, c)
    ensures DeepEqual(a, c)
    decreases a
  {
    match (a, b, c)
    case (Struct(fs), Struct(gs), Struct(hs)) =>
      forall k | 0 <= k < |fs|
        ensures DeepEqual(fs[k], hs[k])
      {
        DeepEqualTransitive(fs[k], gs[k], hs[k]);
      }
    case (Pointer(_, s), Pointer(_, t), Pointer(_, u)) => DeepEqualTransitive(s, t, u);
    case _ =>
  }

  /** Everything shallow-equal is deep-equal. */
  lemma EqualImpliesDeepEqual(a: Value, b: Value)
    requires Equal(a, b)
    ensures DeepEqual(a, b)
  {
    DeepEqualReflexive(a);
  }

  /** On pointer-free values the two equalities coincide. */
  lemma {:induction false} DeepEqualIsEqualWithoutPointers(a: Value, b: Value)
    requires PointerFree(a) && PointerFree(b)
    ensures DeepEqual(a, b) <==> Equal(a, b)
    decreases a
  {
    match (a, b)
    case (Struct(fs), Struct(gs)) =>
      if DeepEqual(a, b) {
        forall k | 0 <= k < |fs|
          ensures fs[k] == gs[k]
        {
          DeepEqualIsEqualWithoutPointers(fs[k], gs[k]);
        }
        assert fs == gs;
      } else if a == b {
        DeepEqualReflexive(a);
      }
    case _ =>
      if a == b {
        DeepEqualReflexive(a);
      }
  }

  /** Two distinct allocations holding deep-equal content: shallow
      equality tells them apart, deep equality does not. */
  lemma DistinctAllocationsDiverge(p: nat, q: nat, s: Value, t: Value)
    requires p != q && DeepEqual(s, t)
    ensures !Equal(Pointer(p, s), Pointer(q, t))
    ensures DeepEqual(Pointer(p, s), Pointer(q, t))
  {
  }

  /** The nil pointer is deep-equal only to itself. */
  lemma NilDeepEqual(v: Value)
    ensures DeepEqual(Nil, v) <==> v == Nil
    ensures DeepEqual(v, Nil) <==> v == Nil
  {
  }
}
