/** The set tests, case by case (find_if_not_test.go and
    copy_if_not_test.go of package set), for every iteration order. */
module SetScenarios {
  import opened Wrappers
  import opened Util
  import opened Fixtures
  import opened Set
  import Dict

  function Int64Set(): set<int>
  {
    {21, 12, 34, 87, 52}
  }

  /** Each element is its own allocation, at 1 to 5. */
  function ItemPointerSet(): set<Value>
  {
    {ItemPtr(1, 21), ItemPtr(2, 12), ItemPtr(3, 34), ItemPtr(4, 87), ItemPtr(5, 52)}
  }

  /** Nil or empty: (0, false). Every element below 100: (0, false).
      Only 87 is not below 60: (87, true) whatever the order. */
  lemma FindIfNotRows(order: seq<int>)
    requires Dict.Enumerates(order, Int64Set())
    ensures FindIfNot(Int64Set(), i => i < 100, 0, order) == Found(0, false)
    ensures FindIfNot(Int64Set(), i => i < 60, 0, order) == Found(87, true)
  {
    FindIfNotSingleFailure(Int64Set(), i => i < 60, 0, 87, order);
  }

  /** For pointer elements the zero value is nil, and the element found
      is deep-equal (not `==`) to a fresh `&Item{87}`. */
  lemma FindIfNotPointerRows(order: seq<Value>, addr: nat)
    requires Dict.Enumerates(order, ItemPointerSet())
    requires addr > 5
    ensures FindIfNot(ItemPointerSet(), i => ItemValue(i) < 100, Nil, order) == Found(Nil, false)
    ensures FindIfNot(ItemPointerSet(), i => ItemValue(i) < 60, Nil, order).found
    ensures DeepEqual(FindIfNot(ItemPointerSet(), i => ItemValue(i) < 60, Nil, order).item, ItemPtr(addr, 87))
    ensures FindIfNot(ItemPointerSet(), i => ItemValue(i) < 60, Nil, order).item != ItemPtr(addr, 87)
  {
    var p := (i: Value) => ItemValue(i) < 60;
    assert ItemValue(ItemPtr(4, 87)) == 87;
    FindIfNotSingleFailure(ItemPointerSet(), p, Nil, ItemPtr(4, 87), order);
  }

  /** nil stays nil, empty stays empty, an always-false predicate copies
      everything, an always-true one nothing, and filtering out the evens
      or the odds leaves the other half. */
  lemma CopyIfNotRows(order: seq<int>)
    requires Dict.Enumerates(order, Int64Set())
    ensures CopyIfNot(None, i => GoRem(i, 2) == 0, []) == None
    ensures CopyIfNot(Some({}), i => GoRem(i, 2) == 0, []) == Some({})
    ensures CopyIfNot(Some(Int64Set()), i => false, order) == Some(Int64Set())
    ensures CopyIfNot(Some(Int64Set()), i => GoRem(i, 2) == 0, order) == Some({21, 87})
    ensures CopyIfNot(Some(Int64Set()), i => GoRem(i, 2) == 1, order) == Some({12, 34, 52})
    ensures CopyIfNot(Some(Int64Set()), i => true, order) == Some({})
  {
    CopyIfNotLaws(Int64Set(), i => false, order);
    CopyIfNotLaws(Int64Set(), i => true, order);
    assert CopyIfNot(Some(Int64Set()), i => GoRem(i, 2) == 0, order).value == {21, 87};
    assert CopyIfNot(Some(Int64Set()), i => GoRem(i, 2) == 1, order).value == {12, 34, 52};
  }

  /** Filtering the evens out of the pointer set keeps the fixture's own
      pointers to 21 and 87. */
  lemma CopyIfNotPointerRows(order: seq<Value>)
    requires Dict.Enumerates(order, ItemPointerSet())
    ensures CopyIfNot(Some(ItemPointerSet()), i => GoRem(ItemValue(i), 2) == 0, order)
         == Some({ItemPtr(1, 21), ItemPtr(4, 87)})
  {
    var even := (i: Value) => GoRem(ItemValue(i), 2) == 0;
    var r := CopyIfNot(Some(ItemPointerSet()), even, order).value;
    forall x | x in ItemPointerSet()
      ensures x in r <==> x in {ItemPtr(1, 21), ItemPtr(4, 87)}
    {
      assert x in {ItemPtr(1, 21), ItemPtr(2, 12), ItemPtr(3, 34), ItemPtr(4, 87), ItemPtr(5, 52)};
    }
    assert r == {ItemPtr(1, 21), ItemPtr(4, 87)};
  }

  /** That result is not `==` to the expected set of fresh allocations
      `{&Item{21}, &Item{87}}` ... */
  lemma PointerResultNotEqualExpected()
    ensures {ItemPtr(1, 21), ItemPtr(4, 87)} != {ItemPtr(11, 21), ItemPtr(14, 87)}
  {
    assert ItemPtr(1, 21) in {ItemPtr(1, 21), ItemPtr(4, 87)};
    assert ItemPtr(1, 21) !in {ItemPtr(11, 21), ItemPtr(14, 87)};
  }

  /** ... but it is deep-equal to it, which is how the test compares
      pointer sets. */
  lemma PointerResultDeepEqualsExpected()
    ensures DeepEqualSets({ItemPtr(1, 21), ItemPtr(4, 87)}, {ItemPtr(11, 21), ItemPtr(14, 87)})
    ensures DeepEqualSets({ItemPtr(11, 21), ItemPtr(14, 87)}, {ItemPtr(1, 21), ItemPtr(4, 87)})
  {
    DeepEqualItems(21, 21, 1, 11);
    DeepEqualItems(87, 87, 4, 14);
    DeepEqualItems(21, 21, 11, 1);
    DeepEqualItems(87, 87, 14, 4);
    PairwiseDeepEqual(ItemPtr(1, 21), ItemPtr(4, 87), ItemPtr(11, 21), ItemPtr(14, 87));
    PairwiseDeepEqual(ItemPtr(11, 21), ItemPtr(14, 87), ItemPtr(1, 21), ItemPtr(4, 87));
  }

  /** Two-element sets whose elements are deep-equal in pairs. */
  lemma PairwiseDeepEqual(x1: Value, x2: Value, y1: Value, y2: Value)
    requires DeepEqual(x1, y1) && DeepEqual(x2, y2)
    ensures DeepEqualSets({x1, x2}, {y1, y2})
  {
    var a, b := {x1, x2}, {y1, y2};
    DeepEqualSymmetric(x1, y1);
    DeepEqualSymmetric(x2, y2);
    assert y1 in b && y2 in b && x1 in a && x2 in a;
    assert DeepIn(x1, b) && DeepIn(x2, b) && DeepIn(y1, a) && DeepIn(y2, a);
    assert forall x :: x in a ==> x == x1 || x == x2;
    assert forall y :: y in b ==> y == y1 || y == y2;
  }
}
