# al.go container algorithms, modelled in Dafny

This project models the core of `al.go`, a small generic Go library of
algorithms over three container shapes:

- the **list** (`list.List[T]`, a Go slice), modelled as `seq<T>`;
- the **dict** (`dict.Dict[K, V]`, a Go map), modelled as `map<K, V>`;
- the **set** (`set.Set[T]`, a Go `map[T]struct{}`), modelled as `set<T>`,
  and viewed as a `map<T, ()>` where it reuses dict searches;

together with the `util` helpers: shallow `Equal`, deep `DeepEqual`, and
`Min` / `Max` over ordered types.

Modules, one per Go package or test group:

| file | module | models |
|---|---|---|
| `wrappers.dfy` | `Wrappers` | `Option`, used where nil must differ from empty |
| `util_equal.dfy` | `Util` | Go values (`Value`), `Equal`, `DeepEqual`, `TestOnFirstArg` |
| `util_math.dfy` | `Math` | `Min`, `Max`, Go's string order |
| `list.dfy` | `List` | searches, quantifiers, `Each` and the mutating methods of `List` |
| `dict.dfy` | `Dict` | `NoKeyOf`, `NoneOf`, `FindValue` |
| `set.dfy` | `Set` | `NoneOf`, `FindIfNot`, `CopyIfNot`, deep set comparison |
| `fixtures.dfy` | `Fixtures` | the tests' `Item` struct, `*Item` pointers, Go's `%` |
| `list_scenarios.dfy`, `dict_scenarios.dfy`, `set_scenarios.dfy` | `*Scenarios` | the test tables, row by row |

Main modelling decisions:

- **Go values.** `Util.Value` is `Int | Struct(fields) | Pointer(addr, target) | Nil`.
  A pointer has an identity (`addr`) and a content (`target`). `Equal` is
  Go's `==`, which compares addresses. `DeepEqual` follows pointers and
  compares content, like `reflect.DeepEqual` on these shapes.
- **Nil and empty** containers are the same Dafny value (`[]`, `map[]`, `{}`).
  The exception is `set.CopyIfNot`: a nil set gives nil and an empty set
  gives empty. Its input and output are `Option<set<T>>`, with `None`
  standing for nil.
- **Iteration order** of Go maps is unspecified. Each dict or set search
  takes it as a parameter `order`, which must list every key exactly once
  (`Dict.Enumerates`). The contracts state which answers do not depend on
  the order. For a set, `FindIfNot` promises only *some* failing element
  when several fail.
- **Zero values.** `FindIf` / `FindIfNot` take the element type's Go zero
  value as a parameter `zero` (`0`, `Item{}`, `nil`). They return it when
  nothing matches.
- **Mutating list methods** are functions. Each returns the new contents and
  the method's `changed` flag (`List.Update`).
- **Predicates** are total, pure Dafny functions.

Behaviours the tests pin down:

- `Remove` deletes **every** element equal to its argument, not only the
  first. After removing 10 from `[10, 12, 10, 17, 17]`, a second `Remove(10)`
  reports no change (list/list_test.go:28-29).
- The elements left after a removal are not kept in insertion order. The
  test expects `[17, 12, 17]` (list/list_test.go:85). The comment at
  list/list_test.go:31 says `12, 17, 17`, and the test does not match it.
  The model removes by a swap-with-last scan, `List.SwapRemoveFrom`: a
  matching element is overwritten by the last element and the list
  shrinks by one. That scan reproduces line 85 exactly (`ListWalkThrough`).
  The general contracts of `Remove`, `RemoveIf` and `KeepIf` are stated on
  multisets, not positions.
- `Min` / `Max` are not left open on ties. `Min` answers the right argument
  and `Max` the left one (util/math.go:24, util/math.go:31; `Math.TieBreak`).
- `dict.FindValue` compares values **deeply**. The pointer test expects a
  fresh `&Item{34}`, an allocation no entry of the dict holds, to be found
  (dict/find_value_test.go:134-139). Under `==` on pointers that row would
  fail.

## Model

| member | source | states |
|---|---|---|
| Util.Equal | util/equal.go:5-7 | Go's `==`; characterised against deep equality by `EqualImpliesDeepEqual`, `DeepEqualIsEqualWithoutPointers` and `DistinctAllocationsDiverge` |
| Util.DeepEqual | util/equal.go:9-11 | `reflect.DeepEqual` on the value universe; an equivalence (`DeepEqualReflexive`, `DeepEqualSymmetric`, `DeepEqualTransitive`) that agrees with `==` away from pointers |
| Util.TestOnFirstArg | set/none_of.go:9 | the lifted predicate answers on every (key, value) pair exactly as the original predicate answers on the key |
| Util.DeepEqualReflexive | util/equal.go:9-11 | every value is deep-equal to itself, through any chain of pointers and nested structs |
| Util.DeepEqualSymmetric | util/equal.go:9-11 | deep equality does not depend on argument order |
| Util.DeepEqualTransitive | util/equal.go:9-11 | deep equality is transitive |
| Util.EqualImpliesDeepEqual | util/equal.go:5-11 | shallow `Equal` implies `DeepEqual` |
| Util.DeepEqualIsEqualWithoutPointers | util/equal.go:5-11 | on values holding no pointer, `DeepEqual` holds exactly when `Equal` does |
| Util.DistinctAllocationsDiverge | util/equal.go:5-11 | two pointers at different addresses with deep-equal content are not `Equal` but are `DeepEqual` |
| Util.NilDeepEqual | util/equal.go:9-11 | nil is deep-equal to nil and to no other value |
| Math.Min | util/math.go:23-28 | the result is one of the two arguments |
| Math.Max | util/math.go:30-35 | the result is one of the two arguments |
| Math.MinMaxBounds | util/math.go:23-35 | under a strict total order, `Min` is not above either argument, `Max` is not below either, and `{Min, Max}` is `{a, b}` as a multiset |
| Math.TieBreak | util/math.go:23-35 | when neither argument is below the other, `Min` returns the right one and `Max` the left one |
| Math.IntMinMax | util/math.go:23-35 | integer instance: `Min <= a, b <= Max`, and the pair is `{a, b}` as a multiset |
| Math.StrLess | util/math.go:19-21 | Go's `<` on strings, lexicographic with a proper prefix first; its order laws are stated by `StrLessIsStrictTotalOrder` |
| Math.StrLessIsStrictTotalOrder | util/math.go:19-21 | Go's lexicographic string `<` is irreflexive, transitive and total |
| Math.StringMinMax | util/math.go:23-35 | string instance: `Min` is not above and `Max` not below either argument, and the pair is `{a, b}` as a multiset |
| List.FindIf | list/list_test.go:47-49 | found exactly when some element satisfies `p`; then the result is the first such element, at its index; otherwise index -1 and the zero value |
| List.FindIfNot | list/list_test.go:51-53 | the same for the first element that fails `p` |
| List.NoneOf | list/none_of.go:3-6 | true exactly when no element satisfies `p` |
| List.AnyOf | list/any_of_test.go:26-52 | true exactly when some element satisfies `p` |
| List.AllOf | list/list_test.go:35-36 | true exactly when every element satisfies `p` |
| List.Find | list/list_test.go:42-45 | true exactly when the value is among the elements under `==` |
| List.IsEmpty | list/list_test.go:89-94 | true exactly for the nil or empty list |
| List.Copy | list/list_test.go:71-85 | same length and the same element at every position |
| List.Add | list/list_test.go:21-24 | always reports a change; appends after unchanged old contents, duplicates included; adds one occurrence to the multiset |
| List.Clear | list/list_test.go:89-96 | leaves the list empty; reports a change exactly when it held something |
| List.SwapRemoveFrom | list/list_test.go:85 | the swap-with-last scan never lengthens the list |
| List.SwapRemoveFromCounts | list/list_test.go:69-85 | the scan keeps every non-matching element with its multiplicity and drops every match |
| List.SwapRemoveFromClean | list/list_test.go:69-85 | no matching element survives the scan |
| List.SwapRemoveFromLength | list/list_test.go:69-85 | the scan shortens the list exactly when something from the start position on matches, and otherwise leaves it as it was |
| List.RemoveWhere | list/list_test.go:69-81 | drops exactly the matching elements, multiplicities of the rest unchanged; reports a change exactly when something matched |
| List.Remove | list/list_test.go:26-31 | no element equal to the argument remains; the multiplicity of every other value is unchanged; reports a change exactly when the value was present |
| List.RemoveIf | list/list_test.go:69-74 | keeps exactly the elements failing `p`, with their multiplicities; reports a change exactly when some element satisfied `p` |
| List.KeepIf | list/list_test.go:76-81 | keeps exactly the elements satisfying `p`, with their multiplicities; reports a change exactly when some element failed `p` |
| List.NoneOfIsNotFound | list/none_of.go:3-6 | `NoneOf` is the negated `found` of `FindIf`, whatever the zero value. Likewise `AnyOf` is `FindIf.found` and `AllOf` is the negated `found` of `FindIfNot` |
| List.EmptyList | list/any_of_test.go:27-36 | on nil or empty: `AnyOf` false, `NoneOf` and `AllOf` true, both searches return (-1, zero, false) |
| List.NoneOfSnoc | list/none_of.go:3-6 | `NoneOf(items + [x])` is `NoneOf(items) && !p(x)` |
| List.Each | list/list_test.go:57-61 | runs the action once per element in index order; stated by `EachVisitsInOrder` and `EachSnoc` |
| List.EachVisitsInOrder | list/list_test.go:57-61 | an action that records each visit reproduces the list: every element once, in index order |
| List.EachSnoc | list/list_test.go:57-67 | one more element means exactly one more call of the action, applied last |
| List.RemoveIfKeepIfPartition | list/list_test.go:69-81 | `RemoveIf` and `KeepIf` with one predicate together hold the list's multiset, and on a non-empty list at least one reports a change |
| List.RemoveTwice | list/list_test.go:28-29 | a second identical `Remove` reports no change and leaves the list as it is |
| List.ClearTwice | list/list_test.go:89-96 | a cleared list is empty; `Clear` reports a change exactly when the list was not empty; a second `Clear` reports none |
| List.AddThenFind | list/list_test.go:21-24 | after `Add(x)`, `Find(x)` holds and the list is not empty |
| Dict.NoKeyOf | set/none_of.go:9 | true exactly when no (key, value) entry satisfies the predicate, for every iteration order |
| Dict.NoneOf | dict/none_of_test.go:20-52 | true exactly when no value satisfies the predicate |
| Dict.FindValue | dict/find_value_test.go:134-144 | true exactly when some stored value is deep-equal to the one searched |
| Dict.EmptyDict | dict/none_of_test.go:27-36 | on a nil or empty dict, `NoneOf` and `NoKeyOf` are true and `FindValue` is false |
| Dict.SearchesIgnoreOrder | set/find_if_not_test.go:45-51 | `NoneOf`, `NoKeyOf` and whether a key search finds anything are the same for any two iteration orders |
| Dict.FindValueWithoutPointers | dict/find_value_test.go:26-45 | with pointer-free values, `FindValue` is membership among the dict's values |
| Dict.FindValueByContent | dict/find_value_test.go:134-144 | a pointer at any address is found when some stored pointer's content is deep-equal to its content |
| Set.NoneOf | set/none_of.go:8-10 | computed as `dict.NoKeyOf` with the predicate lifted to ignore the value; true exactly when no element satisfies `p` |
| Set.FindIfNot | set/find_if_not_test.go:26-58 | found exactly when some element fails `p`; then the result is a member that fails `p`; otherwise the zero value |
| Set.CollectIfNot | set/copy_if_not_test.go:41-57 | the set collected from an iteration order holds exactly the listed elements that fail `p` |
| Set.CopyIfNot | set/copy_if_not_test.go:25-63 | nil in, nil out. Otherwise the result holds exactly the elements failing `p`, whatever the iteration order |
| Set.EmptySet | set/copy_if_not_test.go:26-35 | on nil or empty: `NoneOf` true, `FindIfNot` returns (zero, false), the copy of nil is nil and that of empty is empty |
| Set.NoneOfIgnoresOrder | set/none_of.go:8-10 | `NoneOf`, and whether `FindIfNot` finds anything, agree for any two iteration orders |
| Set.FindIfNotSingleFailure | set/find_if_not_test.go:52-57 | when exactly one element fails `p`, every iteration order returns that element with `true` |
| Set.CopyIfNotLaws | set/copy_if_not_test.go:36-62 | an always-false predicate copies the set; an always-true one gives empty; the copy is a subset; copy plus matches is the whole set |
| Set.CopyIfNotIdempotent | set/copy_if_not_test.go:41-57 | the copy does not depend on the iteration order, and copying the copy again with the same predicate, in any order of its elements, gives the copy back |
| ListScenarios.ListWalkThrough | list/list_test.go:13-31 | building [10, 12, 10] and adding 17 twice reports two changes. `Remove(10)` reports a change and leaves [17, 12, 17]; a second `Remove(10)` reports none |
| ListScenarios.RemoveTenFromWalkThrough | list/list_test.go:85 | the removal scan turns [10, 12, 10, 17, 17] into [17, 12, 17] |
| ListScenarios.ListQueries | list/list_test.go:33-53 | on [17, 12, 17]: `AllOf(<20)`, not `AllOf(<10)`, `NoneOf(<10)`, not `AnyOf(<10)`, `Find(17)`, not `Find(15)`; `FindIf(even)` gives 12; `FindIfNot(even)` gives 17 |
| ListScenarios.ListEachSum | list/list_test.go:55-61 | summing with `Each` gives 12 + 17 + 17 |
| ListScenarios.ListCopyFilterClear | list/list_test.go:69-96 | `RemoveIf(odd)` on a copy gives [12] and `KeepIf(odd)` gives [17, 17], both changed. `Clear` then reports a change and leaves it empty; a second `Clear` reports none |
| ListScenarios.AnyOfNoneOfRows | list/none_of_test.go:26-52 | every row of the `AnyOf` / `NoneOf` tables, for any list and predicate, and `NoneOf` is the negation of `AnyOf` |
| ListScenarios.AnyOfNoneOfByElementKind | list/any_of_test.go:68-174 | int64, struct and pointer lists with the same values give the same `AnyOf` / `NoneOf` answers for `> 100`, `> 20` and `< 100` |
| DictScenarios.NoneOfRows | dict/none_of_test.go:37-51 | on values {21, 12, 34, 87, 52}: `NoneOf(>100)` holds, `NoneOf(>20)` and `NoneOf(<100)` do not, in every iteration order |
| DictScenarios.NoneOfSeesValues | dict/none_of_test.go:21-22 | the predicate sees values and never keys: `NoneOf(== 10)` holds although the key 10 is present, where `NoKeyOf(key == 10)` fails |
| DictScenarios.NoneOfPointerRows | dict/none_of_test.go:134-160 | the same rows on a dict of `*Item` |
| DictScenarios.FindValueRows | dict/find_value_test.go:36-45 | 34 is found and 99 is not, in every iteration order |
| DictScenarios.FindValueStructRows | dict/find_value_test.go:85-94 | `Item{34}` is found and `Item{99}` is not, field by field |
| DictScenarios.FindValuePointerRows | dict/find_value_test.go:134-144 | a fresh `&Item{34}` is not among the stored pointers yet is found; a fresh `&Item{99}` is not found |
| SetScenarios.FindIfNotRows | set/find_if_not_test.go:26-58 | all below 100 gives (0, false); only 87 not below 60 gives (87, true), in every iteration order |
| SetScenarios.FindIfNotPointerRows | set/find_if_not_test.go:150-182 | on a pointer set the not-found item is nil; the one-match item is deep-equal, but not `==`, to a fresh `&Item{87}` |
| SetScenarios.CopyIfNotRows | set/copy_if_not_test.go:25-63 | nil gives nil and empty gives empty; remove-none gives the set; removing evens gives {21, 87} and odds {12, 34, 52}; remove-all gives empty |
| SetScenarios.CopyIfNotPointerRows | set/copy_if_not_test.go:173-180 | removing evens from the pointer set keeps the set's own pointers to 21 and 87 |
| SetScenarios.PointerResultNotEqualExpected | set/copy_if_not_test.go:176-179 | that result is not `==` to the expected set of fresh allocations |
| SetScenarios.PointerResultDeepEqualsExpected | set/copy_if_not_test.go:207 | that result is deep-equal to the expected set of fresh allocations, compared either way round |

## Left out

- Aliasing and in-place update of Go slices. Lists are immutable
  sequences here, so a `Copy` is independent of its source by
  construction. The check at list/list_test.go:83-85, that filtering the
  copies left the source alone, has nothing left to state.
- Math.StrLess: Go strings are arbitrary byte sequences, and a Dafny
  `string` holds only Unicode scalar values. Strings that are not valid
  UTF-8 are therefore outside the string instance of `Min` / `Max`.
- The side effects of the caller's action in `Each`. The library has no
  other side effect and no I/O. In the model the action threads an explicit
  state through the calls instead of mutating captured variables.
- Go's fixed-width integers (`int64` and the other `Integer` types of
  util/math.go:3-13). Values are unbounded `int`. The library does no
  arithmetic on elements, so no wrap-around arises. The tests' `%` is
  modelled with Go's truncating sign rule (`Fixtures.GoRem`).
- The float instances of `Min` / `Max` (util/math.go:15-17). NaN makes `<`
  non-total on floats.
- `reflect.DeepEqual` in general: maps, slices, interfaces, functions and
  cyclic pointer graphs. It is modelled only over `Util.Value`, and pointers
  are compared by content even at the same address.
- The set and dict `Equal` / `DeepEqual` helpers behind the tests'
  `assertEqual` / `assertDeepEqual` are not part of this model. For sets of
  values, `Set.DeepEqualSets` (mutual deep membership) stands for the
  comparison that set/copy_if_not_test.go:207 relies on.
- The sources of `list.FindIf`, `list.AnyOf`, `list.List` methods,
  `dict.NoKeyOf`, `dict.NoneOf`, `dict.FindValue`, `set.FindIfNot` and
  `set.CopyIfNot` are not part of this model. Their behaviour is taken from
  the tests.
- List.FindIf: the not-found index -1 is the Go convention and is not
  pinned by any test in list/.
- List.SwapRemoveFrom: the swap-with-last scan is one algorithm that yields
  the order the test expects. The tests pin only that one outcome, so the
  general contracts are stated on multisets and not on positions.
- `List` methods returning `(item, found)` are the package functions without
  the index. The model keeps only the package form `(index, item, found)`.
- The list fixtures `DefaultInt64List`, `DefaultItemList` and
  `DefaultItemPointerList` are not part of this model.
  `AnyOfNoneOfByElementKind` uses the dict fixtures' values 21, 12, 34, 87
  and 52. The element-independent rows are proved for every list
  (`AnyOfNoneOfRows`).
- Which element `set.FindIfNot` returns when several fail. It depends on map
  iteration order and is deliberately left unspecified
  (set/find_if_not_test.go:45-51).
- Nil versus allocated-empty is observable only in `Set.CopyIfNot`. Everywhere
  else both are the same value.
- A test predicate reading `item.Value` through a nil pointer would panic
  in Go. `Fixtures.ItemValue` reads 0 there; no test does this.
- Test plumbing: `test.RunTestCases`, the zap logger, testify `require`, the
  debug formatter `toString` (dict/util_test.go:103-120), and the fixture
  variables, except as concrete witness data in the scenario modules.
- Sequence `CopyIf` / `CopyIfNot` and the dict and list `Equal` helpers
  belong to the rest of the library and are not modelled.
