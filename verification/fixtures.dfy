/** Test data shared by the scenarios: the `Item` struct of the test
    packages, pointers to it, and Go's `%` on integers. */
module Fixtures {
  import opened Util

  /** `Item{Value: n}`. */
  function Item(n: int): Value
  {
    Struct([Int(n)])
  }

  /** `&Item{Value: n}`, allocated at `addr`. */
  function ItemPtr(addr: nat, n: int): Value
  {
    Pointer(addr, Item(n))
  }

  /** `item.Value` for an `Item` or an `*Item` (Go dereferences the pointer
      implicitly). Other shapes do not occur in the tests; they read 0. */
  function ItemValue(v: Value): int
  {
    match v
    case Struct(fs) => if |fs| == 1 && fs[0].Int? then fs[0].i else 0
    case Pointer(_, Struct(fs)) => if |fs| == 1 && fs[0].Int? then fs[0].i else 0
    case _ => 0
  }

  /** Go's `%`: the remainder takes the sign of the dividend. */
  function GoRem(a: int, b: int): (r: int)
    requires b > 0
    ensures a >= 0 ==> 0 <= r < b
    ensures a < 0 ==> -b < r <= 0
  {
    if a >= 0 then a % b else -((-a) % b)
  }

  /** Deep equality on fixture values reduces to equality of `Value`
      fields; pointers are compared by content. */
  lemma DeepEqualItems(a: int, b: int, p: nat, q: nat)
    ensures DeepEqual(Item(a), Item(b)) <==> a == b
    ensures DeepEqual(ItemPtr(p, a), ItemPtr(q, b)) <==> a == b
    ensures DeepEqual(Int(a), Int(b)) <==> a == b
  {
    assert Item(a).fields[0] == Int(a);
    assert Item(b).fields[0] == Int(b);
  }

  /** Distinct field values make distinct `Item`s. */
  lemma ItemInjective(a: int, b: int)
    ensures Item(a) == Item(b) <==> a == b
  {
    if Item(a) == Item(b) {
      assert Item(a).fields[0] == Item(b).fields[0];
    }
  }
}
