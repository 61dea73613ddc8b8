/** The list tests, case by case (list_test.go, any_of_test.go,
    none_of_test.go). */
module ListScenarios {
  import opened Util
  import opened Fixtures
  import opened List

  /** The walk-through of list_test.go: build [10, 12, 10], add 17 twice,
      remove 10 (both copies go), then query, copy, filter and clear. */
  lemma ListWalkThrough()
    ensures
      var l0 := [Item(10), Item(12), Item(10)];
      var a1 := Add(l0, Item(17));
      var a2 := Add(a1.items, Item(17));
      var r1 := Remove(a2.items, Item(10));
      var r2 := Remove(r1.items, Item(10));
      && a1.changed && a2.changed
      && r1.changed && !r2.changed
      && r1.items == [Item(17), Item(12), Item(17)]
      && r2.items == r1.items
  {
    var l0 := [Item(10), Item(12), Item(10)];
    var a2 := [Item(10), Item(12), Item(10), Item(17), Item(17)];
    var s2 := [Item(17), Item(12), Item(17)];
    assert Add(l0, Item(17)).items == l0 + [Item(17)];
    assert Add(Add(l0, Item(17)).items, Item(17)).items == a2;
    ItemInjective(10, 12);
    ItemInjective(10, 17);
    RemoveTenFromWalkThrough(EqualTo(Item(10)));
    var r1 := Remove(a2, Item(10));
    assert r1.items == s2;
    assert Item(10) in a2;
    assert Item(10) !in s2;
    assert !Remove(s2, Item(10)).changed;
  }

  /** Removing 10 from [10, 12, 10, 17, 17], step by step, for any
      predicate that matches 10 and not 12 or 17: the first 10 is
      overwritten by the last 17, the second one by the other 17. */
  lemma RemoveTenFromWalkThrough(p: Value -> bool)
    requires p(Item(10)) && !p(Item(12)) && !p(Item(17))
    ensures SwapRemoveFrom([Item(10), Item(12), Item(10), Item(17), Item(17)], p, 0)
         == [Item(17), Item(12), Item(17)]
  {
    var a2 := [Item(10), Item(12), Item(10), Item(17), Item(17)];
    var s1 := [Item(17), Item(12), Item(10), Item(17)];
    var s2 := [Item(17), Item(12), Item(17)];
    RemoveTenStep1(p);
    RemoveTenStep2(p);
    RemoveTenStep3(p);
    RemoveTenStep4(p);
    assert SwapRemoveFrom(a2, p, 0) == SwapRemoveFrom(s1, p, 0) == SwapRemoveFrom(s1, p, 2);
    assert SwapRemoveFrom(s1, p, 2) == SwapRemoveFrom(s2, p, 2) == s2;
  }

  lemma RemoveTenStep1(p: Value -> bool)
    requires p(Item(10)) && !p(Item(12)) && !p(Item(17))
    ensures SwapRemoveFrom([Item(10), Item(12), Item(10), Item(17), Item(17)], p, 0)
         == SwapRemoveFrom([Item(17), Item(12), Item(10), Item(17)], p, 0)
  {
    var a2 := [Item(10), Item(12), Item(10), Item(17), Item(17)];
    assert a2[0 := a2[4]][..4] == [Item(17), Item(12), Item(10), Item(17)];
  }

  lemma RemoveTenStep2(p: Value -> bool)
    requires p(Item(10)) && !p(Item(12)) && !p(Item(17))
    ensures SwapRemoveFrom([Item(17), Item(12), Item(10), Item(17)], p, 0)
         == SwapRemoveFrom([Item(17), Item(12), Item(10), Item(17)], p, 2)
  {
    var s1 := [Item(17), Item(12), Item(10), Item(17)];
    assert SwapRemoveFrom(s1, p, 0) == SwapRemoveFrom(s1, p, 1);
  }

  lemma RemoveTenStep3(p: Value -> bool)
    requires p(Item(10)) && !p(Item(12)) && !p(Item(17))
    ensures SwapRemoveFrom([Item(17), Item(12), Item(10), Item(17)], p, 2)
         == SwapRemoveFrom([Item(17), Item(12), Item(17)], p, 2)
  {
    var s1 := [Item(17), Item(12), Item(10), Item(17)];
    assert s1[2 := s1[3]][..3] == [Item(17), Item(12), Item(17)];
  }

  lemma RemoveTenStep4(p: Value -> bool)
    requires p(Item(10)) && !p(Item(12)) && !p(Item(17))
    ensures SwapRemoveFrom([Item(17), Item(12), Item(17)], p, 2) == [Item(17), Item(12), Item(17)]
  {
    var s2 := [Item(17), Item(12), Item(17)];
    assert SwapRemoveFrom(s2, p, 3) == s2;
  }

  /** Queries on the list [17, 12, 17] that the removals leave. */
  lemma ListQueries()
    ensures
      var l := [Item(17), Item(12), Item(17)];
      && AllOf(l, i => ItemValue(i) < 20)
      && !AllOf(l, i => ItemValue(i) < 10)
      && NoneOf(l, i => ItemValue(i) < 10)
      && !AnyOf(l, i => ItemValue(i) < 10)
      && Find(l, Item(17))
      && !Find(l, Item(15))
      && FindIf(l, i => GoRem(ItemValue(i), 2) == 0, Item(0)) == Search(1, Item(12), true)
      && FindIfNot(l, i => GoRem(ItemValue(i), 2) == 0, Item(0)) == Search(0, Item(17), true)
  {
    var l := [Item(17), Item(12), Item(17)];
    assert l[1] == Item(12);
    assert l[0] == Item(17);
    assert ItemValue(l[0]) == 17;
    assert ItemValue(l[1]) == 12;
  }

  /** `Each` summing `item.Value` over [17, 12, 17] gives 12 + 17 + 17. */
  lemma ListEachSum()
    ensures Each([Item(17), Item(12), Item(17)], (sum: int, i: Value) => sum + ItemValue(i), 0) == 12 + 17 + 17
  {
    var l := [Item(17), Item(12), Item(17)];
    var add := (sum: int, i: Value) => sum + ItemValue(i);
    assert l[1..] == [Item(12), Item(17)];
    assert l[1..][1..] == [Item(17)];
  }

  /** Filtering copies of [17, 12, 17]: `RemoveIf(odd)` leaves [12],
      `KeepIf(odd)` leaves [17, 17], and both report a change. Then `Clear`
      empties the list once. */
  lemma ListCopyFilterClear()
    ensures
      var l := [Item(17), Item(12), Item(17)];
      var odd := (i: Value) => GoRem(ItemValue(i), 2) == 1;
      var odds := RemoveIf(Copy(l), odd);
      var evens := KeepIf(Copy(l), odd);
      && odds.changed && odds.items == [Item(12)]
      && evens.changed && evens.items == [Item(17), Item(17)]
      && |l| == 3 && !IsEmpty(l)
      && Clear(l).changed && |Clear(l).items| == 0 && IsEmpty(Clear(l).items)
      && !Clear(Clear(l).items).changed
  {
    var l := [Item(17), Item(12), Item(17)];
    var odd := (i: Value) => GoRem(ItemValue(i), 2) == 1;
    assert ItemValue(Item(17)) == 17 && ItemValue(Item(12)) == 12;
    assert Copy(l) == l;
    RemoveOddsTrace(odd);
    KeepOddsTrace(Not(odd));
  }

  /** `RemoveIf(odd)` on [17, 12, 17]: the 17 at 0 is overwritten by the
      last 17, then by 12. */
  lemma RemoveOddsTrace(p: Value -> bool)
    requires p(Item(17)) && !p(Item(12))
    ensures SwapRemoveFrom([Item(17), Item(12), Item(17)], p, 0) == [Item(12)]
  {
    var l := [Item(17), Item(12), Item(17)];
    var t1 := [Item(17), Item(12)];
    var t2 := [Item(12)];
    assert l[0 := l[2]][..2] == t1;
    assert t1[0 := t1[1]][..1] == t2;
    assert SwapRemoveFrom(t2, p, 1) == t2;
    assert SwapRemoveFrom(t2, p, 0) == t2;
    assert SwapRemoveFrom(t1, p, 0) == t2;
  }

  /** `KeepIf(odd)` on [17, 12, 17] removes the evens: the 12 at 1 is
      overwritten by the last 17. */
  lemma KeepOddsTrace(q: Value -> bool)
    requires !q(Item(17)) && q(Item(12))
    ensures SwapRemoveFrom([Item(17), Item(12), Item(17)], q, 0) == [Item(17), Item(17)]
  {
    var l := [Item(17), Item(12), Item(17)];
    var u1 := [Item(17), Item(17)];
    assert l[1 := l[2]][..2] == u1;
    assert SwapRemoveFrom(u1, q, 2) == u1;
    assert SwapRemoveFrom(u1, q, 1) == u1;
    assert SwapRemoveFrom(l, q, 1) == u1;
  }

  /** The rows of any_of_test.go and none_of_test.go that hold for every
      list and predicate: on nil or empty, `AnyOf` is false and `NoneOf`
      true; with no match the same; with some match, and in particular
      when every element of a non-empty list matches, `AnyOf` is true and
      `NoneOf` false. `NoneOf` is the negation of `AnyOf` in every row. */
  lemma AnyOfNoneOfRows<T(!new)>(items: seq<T>, p: T -> bool)
    ensures !AnyOf([], p) && NoneOf([], p)
    ensures (forall j :: 0 <= j < |items| ==> !p(items[j])) ==> !AnyOf(items, p) && NoneOf(items, p)
    ensures (exists j :: 0 <= j < |items| && p(items[j])) ==> AnyOf(items, p) && !NoneOf(items, p)
    ensures |items| > 0 && AllOf(items, p) ==> AnyOf(items, p) && !NoneOf(items, p)
    ensures NoneOf(items, p) == !AnyOf(items, p)
  {
    if |items| > 0 && AllOf(items, p) {
      assert p(items[0]);
    }
  }

  /** The same rows on int64, struct and pointer lists holding the values
      21, 12, 34, 87, 52: the answers agree across the three element kinds. */
  lemma AnyOfNoneOfByElementKind()
    ensures
      var ints: seq<int> := [21, 12, 34, 87, 52];
      var items := [Item(21), Item(12), Item(34), Item(87), Item(52)];
      var ptrs := [ItemPtr(1, 21), ItemPtr(2, 12), ItemPtr(3, 34), ItemPtr(4, 87), ItemPtr(5, 52)];
      && !AnyOf(ints, (i: int) => i > 100) && NoneOf(ints, (i: int) => i > 100)
      && AnyOf(ints, (i: int) => i > 20) && !NoneOf(ints, (i: int) => i > 20)
      && AnyOf(ints, (i: int) => i < 100) && !NoneOf(ints, (i: int) => i < 100)
      && !AnyOf(items, i => ItemValue(i) > 100) && NoneOf(items, i => ItemValue(i) > 100)
      && AnyOf(items, i => ItemValue(i) > 20) && !NoneOf(items, i => ItemValue(i) > 20)
      && AnyOf(items, i => ItemValue(i) < 100) && !NoneOf(items, i => ItemValue(i) < 100)
      && !AnyOf(ptrs, i => ItemValue(i) > 100) && NoneOf(ptrs, i => ItemValue(i) > 100)
      && AnyOf(ptrs, i => ItemValue(i) > 20) && !NoneOf(ptrs, i => ItemValue(i) > 20)
      && AnyOf(ptrs, i => ItemValue(i) < 100) && !NoneOf(ptrs, i => ItemValue(i) < 100)
  {
    var ints: seq<int> := [21, 12, 34, 87, 52];
    var items := [Item(21), Item(12), Item(34), Item(87), Item(52)];
    var ptrs := [ItemPtr(1, 21), ItemPtr(2, 12), ItemPtr(3, 34), ItemPtr(4, 87), ItemPtr(5, 52)];
    assert ints[0] == 21;
    assert ItemValue(items[0]) == 21 && ItemValue(ptrs[0]) == 21;
    assert forall j :: 0 <= j < 5 ==> ItemValue(items[j]) <= 87 && ItemValue(ptrs[j]) <= 87;
  }
}
