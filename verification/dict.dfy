/** The key-to-value dict (package dict): a Go `map[K]V`, here `map<K, V>`.
    A nil map and an empty map are both `map[]`.

    Go leaves the iteration order of a map unspecified. Every search here
    takes that order as a parameter `order`, a sequence that lists each
    key exactly once, and the contracts say which results do not depend on
    it.
 */
module Dict {
  import opened Wrappers
  import opened Util
  import List

  /** `order` lists every key of the map exactly once. */
  predicate Enumerates<K(==,!new)>(order: seq<K>, keys: set<K>)
  {
    && (forall i, j :: 0 <= i < j < |order| ==> order[i] != order[j])
    && (forall k :: k in keys ==> k in order)
    && (forall k :: k in order ==> k in keys)
  }

  /** The first key, in iteration order, whose entry satisfies `p`; the
      single scan every search of this package is built on. */
  function FindKey<K(==,!new), V(!new)>(m: map<K, V>, p: (K, V) -> bool, order: seq<K>): (r: Option<K>)
    requires Enumerates(order, m.Keys)
    ensures r.Some? ==> r.value in m && p(r.value, m[r.value])
    ensures r.None? <==> forall k :: k in m ==> !p(k, m[k])
  {
    var i := List.FirstIndex(order, k => k in m && p(k, m[k]), 0);
    if i == -1 then None else Some(order[i])
  }

  /** True when no key satisfies the key-and-value predicate. */
  function NoKeyOf<K(==,!new), V(!new)>(m: map<K, V>, p: (K, V) -> bool, order: seq<K>): (r: bool)
    requires Enumerates(order, m.Keys)
    ensures r <==> forall k :: k in m ==> !p(k, m[k])
  {
    FindKey(m, p, order).None?
  }

  /** True when no VALUE satisfies `p`; keys play no part. */
  function NoneOf<K(==,!new), V(!new)>(m: map<K, V>, p: V -> bool, order: seq<K>): (r: bool)
    requires Enumerates(order, m.Keys)
    ensures r <==> forall k :: k in m ==> !p(m[k])
  {
    NoKeyOf(m, (k, v) => p(v), order)
  }

  /** True when some value is deep-equal to `value`: a pointer value is
      found by what it points at, not by its address. */
  function FindValue<K(==,!new)>(m: map<K, Value>, value: Value, order: seq<K>): (r: bool)
    requires Enumerates(order, m.Keys)
    ensures r <==> exists k :: k in m && DeepEqual(m[k], value)
  {
    FindKey(m, (k, v) => DeepEqual(v, value), order).Some?
  }

  /** Nil and empty dicts: nothing found, vacuous truth. */
  lemma EmptyDict<K(!new), V(!new)>(p: V -> bool, q: (K, V) -> bool, value: Value, order: seq<K>)
    requires Enumerates(order, {})
    ensures NoneOf(map[], p, order) && NoKeyOf(map[], q, order)
    ensures !FindValue(map[], value, order)
  {
  }

  /** The boolean searches answer the same for every iteration order. */
  lemma SearchesIgnoreOrder<K(!new), V(!new)>(m: map<K, V>, p: V -> bool, q: (K, V) -> bool, o1: seq<K>, o2: seq<K>)
    requires Enumerates(o1, m.Keys) && Enumerates(o2, m.Keys)
    ensures NoneOf(m, p, o1) == NoneOf(m, p, o2)
    ensures NoKeyOf(m, q, o1) == NoKeyOf(m, q, o2)
    ensures FindKey(m, q, o1).None? == FindKey(m, q, o2).None?
  {
  }

  /** With pointer-free values, deep equality is Go's `==` and `FindValue`
      is plain membership among the values. */
  lemma FindValueWithoutPointers<K(!new)>(m: map<K, Value>, value: Value, order: seq<K>)
    requires Enumerates(order, m.Keys)
    requires PointerFree(value) && forall v :: v in m.Values ==> PointerFree(v)
    ensures FindValue(m, value, order) <==> value in m.Values
  {
    if value in m.Values {
      DeepEqualReflexive(value);
    }
    if FindValue(m, value, order) {
      var v :| v in m.Values && DeepEqual(v, value);
      DeepEqualIsEqualWithoutPointers(v, value);
    }
  }

  /** A pointer to a fresh allocation is found when some stored pointer,
      at whatever address, points at deep-equal content. */
  lemma FindValueByContent<K(!new)>(m: map<K, Value>, k: K, addr: nat, content: Value, order: seq<K>)
    requires Enumerates(order, m.Keys)
    requires k in m && m[k].Pointer? && DeepEqual(m[k].target, content)
    ensures FindValue(m, Pointer(addr, content), order)
  {
    assert m[k] in m.Values;
  }
}
