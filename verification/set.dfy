/** The set (package set): a Go `map[T]struct{}`, here `set<T>`, viewed
    as a dict from each element to the empty struct `()` where the set
    reuses dict searches. A nil set and an empty set are both `{}`, except
    for `CopyIfNot`, whose input and output are `Option<set<T>>` with
    `None` for nil, because that is the one operation whose result tells
    them apart.

    As for dicts, the iteration order is a parameter listing each element
    once.
 */
module Set {
  import opened Wrappers
  import opened Util
  import Dict

  /** Outcome of a set search: the element found, or the zero value. */
  datatype Found<T> = Found(item: T, found: bool)

  /** The set as the map `map[T]struct{}` that stores it. */
  function AsDict<T(!new)>(s: set<T>): (m: map<T, ()>)
    ensures m.Keys == s
  {
    map x | x in s :: ()
  }

  /** True when no element satisfies `p`: `dict.NoKeyOf` with `p` lifted
      to ignore the value slot. */
  function NoneOf<T(!new)>(s: set<T>, p: T -> bool, order: seq<T>): (r: bool)
    requires Dict.Enumerates(order, s)
    ensures r <==> forall x :: x in s ==> !p(x)
  {
    Dict.NoKeyOf(AsDict(s), TestOnFirstArg(p), order)
  }

  /** Some element failing `p`, the first one met in iteration order; which
      one that is when several fail is left open. */
  function FindIfNot<T(!new)>(s: set<T>, p: T -> bool, zero: T, order: seq<T>): (r: Found<T>)
    requires Dict.Enumerates(order, s)
    ensures r.found <==> exists x :: x in s && !p(x)
    ensures r.found ==> r.item in s && !p(r.item)
    ensures !r.found ==> r.item == zero
  {
    match Dict.FindKey(AsDict(s), TestOnFirstArg(x => !p(x)), order)
    case Some(x) => Found(x, true)
    case None => Found(zero, false)
  }

  /** The elements of `order` that fail `p`, collected one by one as the
      Go loop inserts them into the new set. */
  function CollectIfNot<T(!new)>(order: seq<T>, p: T -> bool): (r: set<T>)
    ensures forall x :: x in r <==> x in order && !p(x)
    decreases |order|
  {
    if |order| == 0 then {}
    else
      var rest := CollectIfNot(order[1..], p);
      assert forall x :: x in order <==> x == order[0] || x in order[1..];
      if p(order[0]) then rest else {order[0]} + rest
  }

  /** A new set holding exactly the elements that fail `p`; nil in, nil out. */
  function CopyIfNot<T(!new)>(s: Option<set<T>>, p: T -> bool, order: seq<T>): (r: Option<set<T>>)
    requires Dict.Enumerates(order, s.GetOr({}))
    ensures r.None? <==> s.None?
    ensures r.Some? ==> forall x :: x in r.value <==> x in s.value && !p(x)
  {
    match s
    case None => None
    case Some(_) => Some(CollectIfNot(order, p))
  }

  /** `b` holds an element deep-equal to `x`. */
  predicate DeepIn(x: Value, b: set<Value>)
  {
    exists y :: y in b && DeepEqual(x, y)
  }

  /** Deep equality of two sets of values: every element of each has a
      deep-equal element in the other. This is how results holding fresh
      pointer allocations are compared with expected sets. */
  predicate DeepEqualSets(a: set<Value>, b: set<Value>)
  {
    && (forall x :: x in a ==> DeepIn(x, b))
    && (forall y :: y in b ==> DeepIn(y, a))
  }

  // Relations between the operations.

  /** Nil and empty sets: no match, vacuous `NoneOf`, zero value returned,
      and a nil copy stays nil while an empty copy stays empty. */
  lemma EmptySet<T(!new)>(p: T -> bool, zero: T, order: seq<T>)
    requires Dict.Enumerates(order, {})
    ensures NoneOf({}, p, order)
    ensures FindIfNot({}, p, zero, order) == Found(zero, false)
    ensures CopyIfNot(None, p, order) == None
    ensures CopyIfNot(Some({}), p, order) == Some({})
  {
  }

  /** `NoneOf`, and whether `FindIfNot` finds anything, answer the same for every iteration order. */
  lemma NoneOfIgnoresOrder<T(!new)>(s: set<T>, p: T -> bool, zero: T, o1: seq<T>, o2: seq<T>)
    requires Dict.Enumerates(o1, s) && Dict.Enumerates(o2, s)
    ensures NoneOf(s, p, o1) == NoneOf(s, p, o2)
    ensures FindIfNot(s, p, zero, o1).found == FindIfNot(s, p, zero, o2).found
  {
  }

  /** When exactly one element fails `p`, every iteration order finds it. */
  lemma FindIfNotSingleFailure<T(!new)>(s: set<T>, p: T -> bool, zero: T, x: T, order: seq<T>)
    requires Dict.Enumerates(order, s)
    requires x in s && !p(x)
    requires forall y :: y in s && y != x ==> p(y)
    ensures FindIfNot(s, p, zero, order) == Found(x, true)
  {
  }

  /** `CopyIfNot` keeps every element when nothing matches, none when
      everything matches, and leaves no match behind; the matches it drops
      together with the elements it keeps give back the original set. */
  lemma CopyIfNotLaws<T(!new)>(s: set<T>, p: T -> bool, order: seq<T>)
    requires Dict.Enumerates(order, s)
    ensures (forall x :: x in s ==> !p(x)) ==> CopyIfNot(Some(s), p, order) == Some(s)
    ensures (forall x :: x in s ==> p(x)) ==> CopyIfNot(Some(s), p, order) == Some({})
    ensures CopyIfNot(Some(s), p, order).value <= s
    ensures CopyIfNot(Some(s), p, order).value + (set x | x in s && p(x)) == s
  {
    var r := CopyIfNot(Some(s), p, order).value;
    if forall x :: x in s ==> !p(x) {
      assert r == s;
    }
    if forall x :: x in s ==> p(x) {
      assert forall x :: x !in r;
      assert r == {};
    }
  }

  /** The copy does not depend on the iteration order, and copying the copy
      again with the same predicate, in any order, changes nothing. */
  lemma CopyIfNotIdempotent<T(!new)>(s: set<T>, p: T -> bool, o1: seq<T>, o2: seq<T>, o3: seq<T>)
    requires Dict.Enumerates(o1, s) && Dict.Enumerates(o2, s)
    requires Dict.Enumerates(o3, CopyIfNot(Some(s), p, o1).value)
    ensures CopyIfNot(Some(s), p, o1) == CopyIfNot(Some(s), p, o2)
    ensures CopyIfNot(CopyIfNot(Some(s), p, o1), p, o3) == CopyIfNot(Some(s), p, o1)
  {
    var r := CopyIfNot(Some(s), p, o1).value;
    assert r == CopyIfNot(Some(s), p, o2).value;
    assert CopyIfNot(Some(r), p, o3).value == r;
  }
}
