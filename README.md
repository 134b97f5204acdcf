# Type-list algorithms, modelled in Dafny

This project is a model of a small header-only library of compile-time algorithms over
`type_list<Ts...>`, a list of types. Each algorithm is modelled as a pure Dafny function over
a finite sequence `seq<T>`: `size`, `at` / `at_t`, `any_of`, `concat`, `zip`, `transform`,
`count_if` and `count`. For `size`, `at`, `concat` and `zip` the element type `T` stands for
any C++ type. For `any_of`, `transform`, `count_if` and `count` it stands only for
cv-unqualified, non-array object types that can be default-constructed (in a constant
expression, for `any_of`, `count_if` and `count`); see "## Left out" for why.
The predicate and mapping arguments (`Pred`, `F`) become Dafny function values `T -> bool`
and `T -> U`.

Every function is defined by recursion over the sequence:
- `any_of` keeps the fold direction of the C++: the unary right fold `(Pred(x) || ...)` becomes recursion on the head.
- `count_if` keeps it too: the binary left fold `(0 + ... + (Pred(x) ? 1 : 0))` becomes recursion on the last element.
- `size` (`sizeof...(Ts)`), `at` (`std::tuple_element_t`), and the single pack expansions of `concat`, `zip` and `transform` are not recursive in C++. Their recursions are proved equal to `|xs|`, to `xs[n]`, and to the length and index laws of the expansions.

Each function's contract says what the result means in terms of length and indexing, except
for `count_if` and `count`: their contracts give only the bound `r <= |xs|`, and lemmas pin
their value. The lemmas relate the algorithms to each other and to independent reference definitions:
sequence append for `concat`, the set of matching indices for `count_if`, and multiset
multiplicity for `count`.

Where the C++ fails to compile, the model has a precondition:
- `at` past the end of the list (`std::tuple_element_t` out of range) requires `n < |xs|`.
- `zip` of two packs of different lengths requires `|a| == |b|`.

The static assertions of `tests.cpp` are lemmas in module `TypeListTests`, over the list
`[Int, Float, Double]`.

Files: `type_list.dfy` (module `TypeList`, models `type_list.hpp`), `tests.dfy`
(module `TypeListTests`, models `tests.cpp`).

## Model

| member | source | states |
|---|---|---|
| `TypeList.Size` | type_list.hpp:15-16 | the size is exactly the number of elements |
| `TypeList.At` | type_list.hpp:23-27 | defined only for `n < size`; the result is the 0-based n-th element |
| `TypeList.AtT` | type_list.hpp:29-30 | `at_t<N, Ts...>` needs `N` below the pack's length and gives the pack's N-th element |
| `TypeList.AtTIsAt` | type_list.hpp:23-30 | `at_t` on a pack selects the same element as `at` on the list made from that pack |
| `TypeList.AnyOf` | type_list.hpp:49-56 | true exactly when some index below the size holds an element satisfying the predicate (both directions) |
| `TypeList.AnyOfEmpty` | type_list.hpp:54 | the empty or-fold is false: `any_of` of the empty list is false for every predicate |
| `TypeList.Concat` | type_list.hpp:63-67 | the size is the sum of the sizes; index `i < size(a)` gives `a[i]` and index `size(a) + j` gives `b[j]` |
| `TypeList.ConcatIsAppend` | type_list.hpp:63-67 | `concat` is exactly sequence append `a + b` |
| `TypeList.AnyOfConcat` | type_list.hpp:49-56 | `any_of` over a concatenation holds exactly when it holds over either part |
| `TypeList.Zip` | type_list.hpp:74-78 | needs equal sizes; the result has that size and its i-th element is the pair `(a[i], b[i])` |
| `TypeList.ZipUnzip` | type_list.hpp:74-78 | projecting the first or second component of every pair gives back `a` or `b` |
| `TypeList.Transform` | type_list.hpp:85-92 | size is preserved and the i-th element is `f(xs[i])` |
| `TypeList.TransformConcat` | type_list.hpp:85-92 | `transform` of a concatenation is the concatenation of the transforms |
| `TypeList.CountIf` | type_list.hpp:99-106 | the count never exceeds the size |
| `TypeList.CountIfEmpty` | type_list.hpp:104 | the fold starts at 0: `count_if` of the empty list is 0 |
| `TypeList.CountIfCountsIndices` | type_list.hpp:99-106 | `count_if` equals the number of indices whose element satisfies the predicate |
| `TypeList.CountIfPositiveIffAnyOf` | type_list.hpp:49-56 | `count_if` is positive exactly when `any_of` holds, for the same predicate (both directions) |
| `TypeList.CountIfAppend` | type_list.hpp:99-106 | `count_if` of `a + b` is the sum of the counts of `a` and `b` |
| `TypeList.CountIfConcat` | type_list.hpp:63-67 | `count_if` of `concat(a, b)` is the sum of the counts of `a` and `b` |
| `TypeList.Count` | type_list.hpp:112-113 | `count` (`count_if` with the predicate "is the same as t") never exceeds the size |
| `TypeList.CountIsMultiplicity` | type_list.hpp:112-113 | `count(xs, t)` is the number of occurrences of `t` in `xs` (its multiset multiplicity) |
| `TypeList.CountConcat` | type_list.hpp:112-113 | `count(concat(a, b), t) == count(a, t) + count(b, t)` |
| `TypeList.CountPositiveIffMember` | type_list.hpp:112-113 | `count(xs, t)` is positive exactly when `t` occurs in `xs` |
| `TypeListTests.SampleSize` | tests.cpp:5-8 | the size of `[int, float, double]` is 3 |
| `TypeListTests.SampleAnyOfIsInt` | tests.cpp:10-12 | `any_of` of `[int, float, double]` with "is int" is true |

## Left out

- `to_tuple` (type_list.hpp:37-41): it only re-wraps the elements in `std::tuple`, a standard-library type, and has no behaviour of its own.
- The genericity over the list template (`template <typename...> typename List`): one sequence type stands for every list kind. So the model does not capture that `concat` accepts only `type_list`, nor that `transform` always produces a `type_list` whatever list it was given.
- Zip: the inner two-element list `List<T, U>` of each zipped element is modelled as the Dafny pair `(T, U)`, so the pair is not itself a list.
- The `std::index_sequence`, immediately-invoked lambda and `decltype` machinery: this is only how the folds are written in C++. Plain recursion with the same fold direction replaces it.
- The compile-time versus run-time distinction and `static_assert`: the tests' assertions are lemmas.
- The default construction of each element (`at_t<Is, Ts...>{}`, type_list.hpp:54, 90, 104) before `any_of`, `transform`, `count_if` and `count` call the predicate or mapping: the model applies it to the element type directly. This has two effects the model does not capture:
  - Those four do not compile when an element is a reference, a function type, an abstract class or a type that cannot be default-constructed. `any_of`, `count_if` and `count` also need that construction to work in a constant expression.
  - cv-qualifiers of non-class elements never reach the predicate or mapping. A by-value parameter, such as count's lambda (type_list.hpp:113) or tests.cpp's `is_int`, also drops top-level cv from class types and receives arrays as pointers; a forwarding-reference parameter (`U&&`) sees the element type unchanged. So `count<type_list<const int>, const int>` is 0 and `count<type_list<const int>, int>` is 1, and `CountIsMultiplicity` and `CountPositiveIffMember` hold of the source only for cv-unqualified, non-array element types.
- CountIsMultiplicity: states the multiplicity law over the model's element universe. For the source it holds only when element types are cv-unqualified and not arrays, because `count`'s by-value lambda drops top-level cv-qualifiers.
- CountPositiveIffMember: same restriction as `CountIsMultiplicity`. With `const int` in the list, the source's `count` for `int` is 1 although `int` is not in the list.
- `std::size_t` width for `size` and `count_if`: results are unbounded naturals. They never exceed the list length, so no wrap-around can happen.
- At: the index `auto N` is modelled as a `nat`, so a negative template argument (rejected at compile time in C++) cannot be stated.
- `index_of` and `find_if` are not defined in `type_list.hpp`, so they are not modelled.
