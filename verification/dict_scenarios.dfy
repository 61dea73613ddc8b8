/** The dict tests, case by case (none_of_test.go and find_value_test.go
    of package dict), for every iteration order of the fixture maps. */
module DictScenarios {
  import opened Util
  import opened Fixtures
  import opened Dict

  /** Keys 10 to 50 with the values 21, 12, 34, 87, 52 of the fixtures. */
  function Int64Dict(): map<int, int>
  {
    map[10 := 21, 20 := 12, 30 := 34, 40 := 87, 50 := 52]
  }

  function Int64ValueDict(): map<int, Value>
  {
    map[10 := Int(21), 20 := Int(12), 30 := Int(34), 40 := Int(87), 50 := Int(52)]
  }

  function ItemDict(): map<int, Value>
  {
    map[10 := Item(21), 20 := Item(12), 30 := Item(34), 40 := Item(87), 50 := Item(52)]
  }

  /** Each `&Item{...}` of the fixture is its own allocation, at 1 to 5. */
  function ItemPointerDict(): map<int, Value>
  {
    map[10 := ItemPtr(1, 21), 20 := ItemPtr(2, 12), 30 := ItemPtr(3, 34), 40 := ItemPtr(4, 87), 50 := ItemPtr(5, 52)]
  }

  /** `NoneOf(> 100)` holds, `NoneOf(> 20)` and `NoneOf(< 100)` do not. */
  lemma NoneOfRows(order: seq<int>)
    requires Enumerates(order, Int64Dict().Keys)
    ensures NoneOf(Int64Dict(), v => v > 100, order)
    ensures !NoneOf(Int64Dict(), v => v > 20, order)
    ensures !NoneOf(Int64Dict(), v => v < 100, order)
  {
    assert Int64Dict()[10] == 21;
  }

  /** The predicate of `NoneOf` is typed on the values
      (dict/none_of_test.go:21-22) and never sees a key: no value is 10,
      while the key 10 is present. */
  lemma NoneOfSeesValues(order: seq<int>)
    requires Enumerates(order, Int64Dict().Keys)
    ensures NoneOf(Int64Dict(), v => v == 10, order)
    ensures !NoKeyOf(Int64Dict(), (k, v) => k == 10, order)
  {
    assert 10 in Int64Dict();
  }

  lemma NoneOfPointerRows(order: seq<int>)
    requires Enumerates(order, ItemPointerDict().Keys)
    ensures NoneOf(ItemPointerDict(), v => ItemValue(v) > 100, order)
    ensures !NoneOf(ItemPointerDict(), v => ItemValue(v) > 20, order)
    ensures !NoneOf(ItemPointerDict(), v => ItemValue(v) < 100, order)
  {
    var m := ItemPointerDict();
    assert m.Keys == {10, 20, 30, 40, 50};
    assert ItemValue(m[10]) == 21;
  }

  /** 34 is among the values and 99 is not, for int64 values. */
  lemma FindValueRows(order: seq<int>)
    requires Enumerates(order, Int64ValueDict().Keys)
    ensures FindValue(Int64ValueDict(), Int(34), order)
    ensures !FindValue(Int64ValueDict(), Int(99), order)
  {
    var m := Int64ValueDict();
    assert DeepEqual(m[30], Int(34));
    forall k | k in m
      ensures !DeepEqual(m[k], Int(99))
    {
      assert k in {10, 20, 30, 40, 50};
    }
  }

  /** The same for struct values, compared field by field. */
  lemma FindValueStructRows(order: seq<int>)
    requires Enumerates(order, ItemDict().Keys)
    ensures FindValue(ItemDict(), Item(34), order)
    ensures !FindValue(ItemDict(), Item(99), order)
  {
    var m := ItemDict();
    DeepEqualItems(34, 34, 0, 0);
    assert DeepEqual(m[30], Item(34));
    forall k | k in m
      ensures !DeepEqual(m[k], Item(99))
    {
      assert k in {10, 20, 30, 40, 50};
      DeepEqualItems(ItemValue(m[k]), 99, 0, 0);
    }
  }

  /** A fresh `&Item{34}`, at an address no stored pointer has, is found;
      a fresh `&Item{99}` is not. */
  lemma FindValuePointerRows(order: seq<int>, addr: nat)
    requires Enumerates(order, ItemPointerDict().Keys)
    requires addr > 5
    ensures ItemPtr(addr, 34) !in ItemPointerDict().Values
    ensures FindValue(ItemPointerDict(), ItemPtr(addr, 34), order)
    ensures !FindValue(ItemPointerDict(), ItemPtr(addr, 99), order)
  {
    var m := ItemPointerDict();
    DeepEqualItems(34, 34, 3, addr);
    assert DeepEqual(m[30], ItemPtr(addr, 34));
    forall k | k in m
      ensures !DeepEqual(m[k], ItemPtr(addr, 99))
    {
      assert k in {10, 20, 30, 40, 50};
      DeepEqualItems(ItemValue(m[k]), 99, m[k].addr, addr);
    }
  }
}
