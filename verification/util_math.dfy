/** `Min` and `Max` over Go's ordered types (package util, math.go).

    Both are written once against a strict order `lt` standing for Go's
    `<`; the integer instance uses Dafny's `<` on `int` and the string
    instance uses `StrLess`, the lexicographic order Go applies to strings.
 */
module Math {

  /** Go's `<` on strings: lexicographic, a proper prefix comes first.
      Go compares bytes; on valid UTF-8, comparing Unicode scalar values
      gives the same order as comparing their UTF-8 encodings. */
  predicate StrLess(a: string, b: string)
  {
    if |a| == 0 then |b| > 0
    else if |b| == 0 then false
    else if a[0] != b[0] then a[0] < b[0]
    else StrLess(a[1..], b[1..])
  }

  ghost predicate StrictTotalOrder<T(!new)>(lt: (T, T) -> bool)
  {
    && (forall x :: !lt(x, x))
    && (forall x, y, z :: lt(x, y) && lt(y, z) ==> lt(x, z))
    && (forall x, y :: x != y ==> lt(x, y) || lt(y, x))
  }

  function Min<T>(lt: (T, T) -> bool, left: T, right: T): (r: T)
    ensures r == left || r == right
  {
    if lt(left, right) then left else right
  }

  function Max<T>(lt: (T, T) -> bool, left: T, right: T): (r: T)
    ensures r == left || r == right
  {
    if lt(left, right) then right else left
  }

  /** Under a strict total order, `Min` is below and `Max` above both
      arguments, and together they are the two arguments again. */
  lemma MinMaxBounds<T(!new)>(lt: (T, T) -> bool, a: T, b: T)
    requires StrictTotalOrder(lt)
    ensures !lt(a, Min(lt, a, b)) && !lt(b, Min(lt, a, b))
    ensures !lt(Max(lt, a, b), a) && !lt(Max(lt, a, b), b)
    ensures multiset{Min(lt, a, b), Max(lt, a, b)} == multiset{a, b}
  {
  }

  /** Arguments neither of which is below the other: `Min` answers the
      right one and `Max` the left one. */
  lemma TieBreak<T>(lt: (T, T) -> bool, a: T, b: T)
    requires !lt(a, b) && !lt(b, a)
    ensures Min(lt, a, b) == b && Max(lt, a, b) == a
  {
  }

  lemma IntMinMax(a: int, b: int)
    ensures Min((x: int, y: int) => x < y, a, b) <= a
    ensures Min((x: int, y: int) => x < y, a, b) <= b
    ensures Max((x: int, y: int) => x < y, a, b) >= a
    ensures Max((x: int, y: int) => x < y, a, b) >= b
    ensures multiset{Min((x: int, y: int) => x < y, a, b), Max((x: int, y: int) => x < y, a, b)} == multiset{a, b}
  {
  }

  lemma {:induction false} StrLessIrreflexive(a: string)
    ensures !StrLess(a, a)
    decreases |a|
  {
    if |a| > 0 {
      StrLessIrreflexive(a[1..]);
    }
  }

  lemma {:induction false} StrLessTransitive(a: string, b: string, c: string)
    requires StrLess(a, b) && StrLess(b, c)
    ensures StrLess(a, c)
    decreases |a|
  {
    if |a| > 0 && |b| > 0 && |c| > 0 && a[0] == b[0] && b[0] == c[0] {
      StrLessTransitive(a[1..], b[1..], c[1..]);
    }
  }

  lemma {:induction false} StrLessTotal(a: string, b: string)
    requires a != b
    ensures StrLess(a, b) || StrLess(b, a)
    decreases |a|
  {
    if |a| > 0 && |b| > 0 && a[0] == b[0] {
      assert a == [a[0]] + a[1..] && b == [b[0]] + b[1..];
      StrLessTotal(a[1..], b[1..]);
    }
  }

  /** Go's string order is a strict total order, so `MinMaxBounds`
      applies to the string instance. */
  lemma StrLessIsStrictTotalOrder()
    ensures StrictTotalOrder(StrLess)
  {
    forall x: string
      ensures !StrLess(x, x)
    {
      StrLessIrreflexive(x);
    }
    forall x: string, y: string, z: string | StrLess(x, y) && StrLess(y, z)
      ensures StrLess(x, z)
    {
      StrLessTransitive(x, y, z);
    }
    forall x: string, y: string | x != y
      ensures StrLess(x, y) || StrLess(y, x)
    {
      StrLessTotal(x, y);
    }
  }

  lemma StringMinMax(a: string, b: string)
    ensures !StrLess(a, Min(StrLess, a, b)) && !StrLess(b, Min(StrLess, a, b))
    ensures !StrLess(Max(StrLess, a, b), a) && !StrLess(Max(StrLess, a, b), b)
    ensures multiset{Min(StrLess, a, b), Max(StrLess, a, b)} == multiset{a, b}
  {
    StrLessIsStrictTotalOrder();
    MinMaxBounds(StrLess, a, b);
  }
}
