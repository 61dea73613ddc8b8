/** The ordered list (package list): a Go slice `[]T`, here `seq<T>`.
    A nil slice and an empty slice are both `[]`; no operation of this
    package can tell them apart.

    Predicates are pure total functions `T -> bool`. Mutating methods of
    `List[T]` are functions returning the new contents together with the
    `changed` flag the Go method returns.
 */
module List {

  /** Outcome of a search: position, element and whether anything matched.
      On no match the position is -1 and the element is the zero value. */
  datatype Search<T> = Search(index: int, item: T, found: bool)

  /** New contents of a list after a mutating method, and its flag. */
  datatype Update<T> = Update(items: seq<T>, changed: bool)

  /** First position at or after `from` whose element satisfies `p`, or -1:
      the scan shared by `FindIf`, `FindIfNot` and the quantifiers. */
  function FirstIndex<T(!new)>(items: seq<T>, p: T -> bool, from: nat): (r: int)
    requires from <= |items|
    ensures r == -1 || from <= r < |items|
    ensures r != -1 ==> p(items[r]) && forall j :: from <= j < r ==> !p(items[j])
    ensures r == -1 ==> forall j :: from <= j < |items| ==> !p(items[j])
    decreases |items| - from
  {
    if from == |items| then -1
    else if p(items[from]) then from
    else FirstIndex(items, p, from + 1)
  }

  /** First element, in index order, that satisfies `p`. */
  function FindIf<T(!new)>(items: seq<T>, p: T -> bool, zero: T): (r: Search<T>)
    ensures r.found <==> exists j :: 0 <= j < |items| && p(items[j])
    ensures r.found ==> 0 <= r.index < |items| && r.item == items[r.index] && p(r.item)
    ensures r.found ==> forall j :: 0 <= j < r.index ==> !p(items[j])
    ensures !r.found ==> r.index == -1 && r.item == zero
  {
    var i := FirstIndex(items, p, 0);
    if i == -1 then Search(-1, zero, false) else Search(i, items[i], true)
  }

  /** First element, in index order, that fails `p`. */
  function FindIfNot<T(!new)>(items: seq<T>, p: T -> bool, zero: T): (r: Search<T>)
    ensures r.found <==> exists j :: 0 <= j < |items| && !p(items[j])
    ensures r.found ==> 0 <= r.index < |items| && r.item == items[r.index] && !p(r.item)
    ensures r.found ==> forall j :: 0 <= j < r.index ==> p(items[j])
    ensures !r.found ==> r.index == -1 && r.item == zero
  {
    FindIf(items, Not(p), zero)
  }

  /** True when no element satisfies `p`: the negated `found` of `FindIf`. */
  function NoneOf<T(!new)>(items: seq<T>, p: T -> bool): (r: bool)
    ensures r <==> forall j :: 0 <= j < |items| ==> !p(items[j])
  {
    FirstIndex(items, p, 0) == -1
  }

  function AnyOf<T(!new)>(items: seq<T>, p: T -> bool): (r: bool)
    ensures r <==> exists j :: 0 <= j < |items| && p(items[j])
  {
    !NoneOf(items, p)
  }

  function AllOf<T(!new)>(items: seq<T>, p: T -> bool): (r: bool)
    ensures r <==> forall j :: 0 <= j < |items| ==> p(items[j])
  {
    NoneOf(items, Not(p))
  }

  /** The negation of `p`, the predicate `FindIfNot`, `AllOf` and `KeepIf`
      pass on to the positive searches. */
  function Not<T(!new)>(p: T -> bool): (q: T -> bool)
    ensures forall x :: q(x) <==> !p(x)
  {
    x => !p(x)
  }

  /** The predicate "is `==` to `item`" that `Find` and `Remove` search with. */
  function EqualTo<T(==,!new)>(item: T): (p: T -> bool)
    ensures forall x :: p(x) <==> x == item
  {
    x => x == item
  }

  /** True when some element is `==` to `value` (shallow equality). */
  function Find<T(==,!new)>(items: seq<T>, value: T): (r: bool)
    ensures r <==> value in items
  {
    FirstIndex(items, EqualTo(value), 0) != -1
  }

  /** `Each` runs `action` on every element in index order. The Go action
      works by side effect on captured variables; here that effect is an
      explicit state threaded from one call to the next. */
  function Each<T, S>(items: seq<T>, action: (S, T) -> S, state: S): S
    decreases |items|
  {
    if |items| == 0 then state else Each(items[1..], action, action(state, items[0]))
  }

  function IsEmpty<T>(items: seq<T>): (r: bool)
    ensures r <==> items == []
  {
    |items| == 0
  }

  /** An independent list with the same elements at the same positions. */
  function Copy<T>(items: seq<T>): (r: seq<T>)
    ensures |r| == |items| && forall j :: 0 <= j < |items| ==> r[j] == items[j]
  {
    items[..]
  }

  /** Appends, duplicates included; always reports a change. */
  function Add<T>(items: seq<T>, item: T): (r: Update<T>)
    ensures r.changed
    ensures |r.items| == |items| + 1 && r.items[..|items|] == items && r.items[|items|] == item
    ensures multiset(r.items) == multiset(items) + multiset{item}
  {
    Update(items + [item], true)
  }

  /** Empties the list; reports a change only if it held something. */
  function Clear<T>(items: seq<T>): (r: Update<T>)
    ensures r.items == []
    ensures r.changed <==> |items| > 0
  {
    Update([], |items| > 0)
  }

  /** Removing position `i` by moving the last element into it and dropping
      the last slot leaves the count of every other value unchanged. */
  lemma SwapDropMultiset<T>(s: seq<T>, i: nat)
    requires i < |s|
    ensures |s[i := s[|s| - 1]][..|s| - 1]| == |s| - 1
    ensures forall x :: x != s[i] ==> multiset(s[i := s[|s| - 1]][..|s| - 1])[x] == multiset(s)[x]
  {
    var n := |s| - 1;
    var next := s[i := s[n]][..n];
    if i == n {
      assert next == s[..n];
      assert s == next + [s[n]];
    } else {
      var a, b := s[..i], s[i + 1..n];
      assert next == a + [s[n]] + b;
      assert s == a + [s[i]] + b + [s[n]];
      forall x | x != s[i]
        ensures multiset(next)[x] == multiset(s)[x]
      {
        assert multiset(next)[x] == multiset(a)[x] + multiset([s[n]])[x] + multiset(b)[x];
        assert multiset(s)[x] == multiset(a)[x] + multiset([s[i]])[x] + multiset(b)[x] + multiset([s[n]])[x];
      }
    }
  }

  /** One step of the removal scan: the list after overwriting position
      `from` with the last element and dropping the last slot. */
  lemma SwapStep<T(!new)>(items: seq<T>, p: T -> bool, from: nat)
    requires from < |items| && p(items[from])
    requires forall j :: 0 <= j < from ==> !p(items[j])
    ensures var next := items[from := items[|items| - 1]][..|items| - 1];
      && |next| == |items| - 1
      && (forall j :: 0 <= j < from ==> !p(next[j]))
      && (forall x :: !p(x) ==> multiset(next)[x] == multiset(items)[x])
  {
    var next := items[from := items[|items| - 1]][..|items| - 1];
    SwapDropMultiset(items, from);
    forall x | !p(x)
      ensures multiset(next)[x] == multiset(items)[x]
    {
      assert x != items[from];
    }
  }

  /** The removal scan behind `Remove`, `RemoveIf` and `KeepIf`: walking from
      `from`, every element satisfying `p` is overwritten by the last element
      and the list shrinks by one; the scan then re-examines that position.
      Positions before `from` have already been checked. What the scan keeps
      and drops is stated by the three lemmas after it. */
  function SwapRemoveFrom<T(!new)>(items: seq<T>, p: T -> bool, from: nat): (r: seq<T>)
    requires from <= |items|
    requires forall j :: 0 <= j < from ==> !p(items[j])
    ensures |r| <= |items|
    decreases |items| - from
  {
    if from == |items| then items
    else if p(items[from]) then
      var last := |items| - 1;
      var next := items[from := items[last]][..last];
      SwapStep(items, p, from);
      SwapRemoveFrom(next, p, from)
    else SwapRemoveFrom(items, p, from + 1)
  }

  /** The scan keeps every element outside `p` with its multiplicity and
      drops every element in `p`. */
  lemma {:induction false} SwapRemoveFromCounts<T(!new)>(items: seq<T>, p: T -> bool, from: nat)
    requires from <= |items|
    requires forall j :: 0 <= j < from ==> !p(items[j])
    ensures var r := SwapRemoveFrom(items, p, from);
      forall x :: multiset(r)[x] == if p(x) then 0 else multiset(items)[x]
    decreases |items| - from
  {
    var r := SwapRemoveFrom(items, p, from);
    if from == |items| {
      forall x | p(x) ensures multiset(r)[x] == 0 {
        assert x !in r;
      }
    } else if p(items[from]) {
      var next := items[from := items[|items| - 1]][..|items| - 1];
      SwapStep(items, p, from);
      assert SwapRemoveFrom(items, p, from) == SwapRemoveFrom(next, p, from);
      SwapRemoveFromCounts(next, p, from);
    } else {
      assert SwapRemoveFrom(items, p, from) == SwapRemoveFrom(items, p, from + 1);
      SwapRemoveFromCounts(items, p, from + 1);
    }
  }

  /** The scan leaves no element satisfying `p`. */
  lemma {:induction false} SwapRemoveFromClean<T(!new)>(items: seq<T>, p: T -> bool, from: nat)
    requires from <= |items|
    requires forall j :: 0 <= j < from ==> !p(items[j])
    ensures var r := SwapRemoveFrom(items, p, from);
      forall j :: 0 <= j < |r| ==> !p(r[j])
    decreases |items| - from
  {
    if from == |items| {
    } else if p(items[from]) {
      var next := items[from := items[|items| - 1]][..|items| - 1];
      SwapStep(items, p, from);
      assert SwapRemoveFrom(items, p, from) == SwapRemoveFrom(next, p, from);
      SwapRemoveFromClean(next, p, from);
    } else {
      assert SwapRemoveFrom(items, p, from) == SwapRemoveFrom(items, p, from + 1);
      SwapRemoveFromClean(items, p, from + 1);
    }
  }

  /** The scan shortens the list exactly when something from `from` on
      satisfies `p`, and otherwise returns the list untouched. */
  lemma {:induction false} SwapRemoveFromLength<T(!new)>(items: seq<T>, p: T -> bool, from: nat)
    requires from <= |items|
    requires forall j :: 0 <= j < from ==> !p(items[j])
    ensures var r := SwapRemoveFrom(items, p, from);
      && (|r| == |items| <==> forall j :: from <= j < |items| ==> !p(items[j]))
      && (|r| == |items| ==> r == items)
    decreases |items| - from
  {
    if from == |items| {
    } else if p(items[from]) {
      var next := items[from := items[|items| - 1]][..|items| - 1];
      SwapStep(items, p, from);
      assert SwapRemoveFrom(items, p, from) == SwapRemoveFrom(next, p, from);
      assert |SwapRemoveFrom(next, p, from)| <= |next| < |items|;
    } else {
      assert SwapRemoveFrom(items, p, from) == SwapRemoveFrom(items, p, from + 1);
      SwapRemoveFromLength(items, p, from + 1);
    }
  }

  /** Removes every element satisfying `p`; reports whether any was removed. */
  function RemoveWhere<T(!new)>(items: seq<T>, p: T -> bool): (r: Update<T>)
    ensures forall x :: multiset(r.items)[x] == if p(x) then 0 else multiset(items)[x]
    ensures forall j :: 0 <= j < |r.items| ==> !p(r.items[j])
    ensures r.changed <==> exists j :: 0 <= j < |items| && p(items[j])
    ensures !r.changed ==> r.items == items
  {
    SwapRemoveFromCounts(items, p, 0);
    SwapRemoveFromClean(items, p, 0);
    SwapRemoveFromLength(items, p, 0);
    var rest := SwapRemoveFrom(items, p, 0);
    Update(rest, |rest| != |items|)
  }

  /** Removes EVERY element `==` to `item`, not only the first. */
  function Remove<T(==,!new)>(items: seq<T>, item: T): (r: Update<T>)
    ensures item !in r.items
    ensures forall x :: x != item ==> multiset(r.items)[x] == multiset(items)[x]
    ensures r.changed <==> item in items
    ensures !r.changed ==> r.items == items
  {
    RemoveWhere(items, EqualTo(item))
  }

  /** Drops the elements satisfying `p`, keeps the rest. */
  function RemoveIf<T(!new)>(items: seq<T>, p: T -> bool): (r: Update<T>)
    ensures forall x :: multiset(r.items)[x] == if p(x) then 0 else multiset(items)[x]
    ensures r.changed <==> exists j :: 0 <= j < |items| && p(items[j])
    ensures !r.changed ==> r.items == items
  {
    RemoveWhere(items, p)
  }

  /** Keeps the elements satisfying `p`, drops the rest. */
  function KeepIf<T(!new)>(items: seq<T>, p: T -> bool): (r: Update<T>)
    ensures forall x :: multiset(r.items)[x] == if p(x) then multiset(items)[x] else 0
    ensures r.changed <==> exists j :: 0 <= j < |items| && !p(items[j])
    ensures !r.changed ==> r.items == items
  {
    RemoveWhere(items, Not(p))
  }

  // Relations between the operations.

  /** `NoneOf` is the negated `found` of `FindIf`, whatever the zero value. */
  lemma NoneOfIsNotFound<T(!new)>(items: seq<T>, p: T -> bool, zero: T)
    ensures NoneOf(items, p) == !FindIf(items, p, zero).found
    ensures AnyOf(items, p) == FindIf(items, p, zero).found
    ensures AllOf(items, p) == !FindIfNot(items, p, zero).found
  {
  }

  /** Nil and empty lists: no match, vacuous truth, zero value returned. */
  lemma EmptyList<T(!new)>(p: T -> bool, zero: T)
    ensures NoneOf([], p) && AllOf([], p) && !AnyOf([], p)
    ensures FindIf([], p, zero) == Search(-1, zero, false)
    ensures FindIfNot([], p, zero) == Search(-1, zero, false)
    ensures IsEmpty<T>([])
  {
  }

  lemma NoneOfSnoc<T(!new)>(items: seq<T>, x: T, p: T -> bool)
    ensures NoneOf(items + [x], p) == (NoneOf(items, p) && !p(x))
  {
    if NoneOf(items, p) && !p(x) {
      forall j | 0 <= j < |items + [x]|
        ensures !p((items + [x])[j])
      {
        if j < |items| {
          assert (items + [x])[j] == items[j];
        }
      }
    } else if !NoneOf(items, p) {
      var j :| 0 <= j < |items| && p(items[j]);
      assert (items + [x])[j] == items[j];
    } else {
      assert (items + [x])[|items|] == x;
    }
  }

  /** `Each` visits the elements in index order, each exactly once:
      recording every visit reproduces the list. */
  lemma {:induction false} EachVisitsInOrder<T>(items: seq<T>, trace: seq<T>)
    ensures Each(items, (t: seq<T>, x: T) => t + [x], trace) == trace + items
    decreases |items|
  {
    if |items| > 0 {
      EachVisitsInOrder(items[1..], trace + [items[0]]);
      assert trace + [items[0]] + items[1..] == trace + items;
    }
  }

  /** Running `Each` on one more element is one more call of the action. */
  lemma {:induction false} EachSnoc<T, S>(items: seq<T>, x: T, action: (S, T) -> S, state: S)
    ensures Each(items + [x], action, state) == action(Each(items, action, state), x)
    decreases |items|
  {
    if |items| == 0 {
      assert (items + [x])[1..] == [];
    } else {
      assert (items + [x])[1..] == items[1..] + [x];
      EachSnoc(items[1..], x, action, action(state, items[0]));
    }
  }

  /** `RemoveIf` and `KeepIf` with the same predicate split the list:
      together they hold every element exactly as often as the list did. */
  lemma RemoveIfKeepIfPartition<T(!new)>(items: seq<T>, p: T -> bool)
    ensures multiset(RemoveIf(items, p).items) + multiset(KeepIf(items, p).items) == multiset(items)
    ensures RemoveIf(items, p).changed || KeepIf(items, p).changed || items == []
  {
    var a := multiset(RemoveIf(items, p).items);
    var b := multiset(KeepIf(items, p).items);
    assert forall x :: (a + b)[x] == multiset(items)[x];
    if items != [] {
      assert p(items[0]) || !p(items[0]);
    }
  }

  /** A second identical `Remove` finds nothing left to remove. */
  lemma RemoveTwice<T(!new)>(items: seq<T>, item: T)
    ensures !Remove(Remove(items, item).items, item).changed
    ensures Remove(Remove(items, item).items, item).items == Remove(items, item).items
  {
  }

  /** A second `Clear` reports no change; a cleared list is empty. */
  lemma ClearTwice<T>(items: seq<T>)
    ensures IsEmpty(Clear(items).items)
    ensures Clear(items).changed <==> !IsEmpty(items)
    ensures !Clear(Clear(items).items).changed
  {
  }

  /** After `Add`, the added element is found. */
  lemma AddThenFind<T(!new)>(items: seq<T>, item: T)
    ensures Find(Add(items, item).items, item)
    ensures !IsEmpty(Add(items, item).items)
  {
  }
}
