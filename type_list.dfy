/**
 A model of a compile-time type-list library. A `type_list<Ts...>` is a finite
 sequence of elements, and each algorithm of the library (size, at, any_of,
 concat, zip, transform, count_if, count) is a pure function on such sequences.
 Predicates and mappings passed to the algorithms are Dafny function values.

 Each algorithm is defined by recursion. any_of and count_if keep the
 direction of their C++ folds; size, at, concat, zip and transform are not
 recursive in C++, and their recursions are proved equal to the length, the
 indexing and the index laws of the pack expansions. The lemmas at the end
 relate the algorithms to each other.
 */
module TypeList {

  // ---------------------------------------------------------------------------
  // size
  // ---------------------------------------------------------------------------

  /** The number of elements of the list (`sizeof...(Ts)`). */
  function Size<T>(xs: seq<T>): (r: nat)
    ensures r == |xs|
  {
    if xs == [] then 0 else 1 + Size(xs[1..])
  }

  // ---------------------------------------------------------------------------
  // at / at_t
  // ---------------------------------------------------------------------------

  /** The N-th element, counting from 0. Selecting past the end does not
      compile in the source, hence the precondition. */
  function At<T>(n: nat, xs: seq<T>): (r: T)
    requires n < Size(xs)
    ensures r == xs[n]
  {
    if n == 0 then xs[0] else At(n - 1, xs[1..])
  }

  /** `at_t<N, Ts...>`: the N-th element of the list built from a pack. */
  function AtT<T>(n: nat, pack: seq<T>): (r: T)
    requires n < |pack|
    ensures r == pack[n]
  {
    At(n, pack)
  }

  // ---------------------------------------------------------------------------
  // any_of
  // ---------------------------------------------------------------------------

  /** The right fold `(p(x0) || (p(x1) || ...))`; an empty fold of `||` is false. */
  function AnyOf<T>(xs: seq<T>, p: T -> bool): (r: bool)
    ensures r <==> exists i :: 0 <= i < |xs| && p(xs[i])
  {
    if xs == [] then false else p(xs[0]) || AnyOf(xs[1..], p)
  }

  // ---------------------------------------------------------------------------
  // concat
  // ---------------------------------------------------------------------------

  /** `type_list<Ts..., Us...>`: the elements of `a` followed by those of `b`. */
  function Concat<T>(a: seq<T>, b: seq<T>): (r: seq<T>)
    ensures |r| == |a| + |b|
    ensures forall i :: 0 <= i < |a| ==> r[i] == a[i]
    ensures forall j :: 0 <= j < |b| ==> r[|a| + j] == b[j]
  {
    if a == [] then b else [a[0]] + Concat(a[1..], b)
  }

  // ---------------------------------------------------------------------------
  // zip
  // ---------------------------------------------------------------------------

  /** `List<List<Ts, Us>...>`: the two-element list `List<T, U>` is modelled as
      the pair `(T, U)`. The pack expansion only compiles for packs of equal
      length, hence the precondition. */
  function Zip<T, U>(a: seq<T>, b: seq<U>): (r: seq<(T, U)>)
    requires |a| == |b|
    ensures |r| == |a|
    ensures forall i :: 0 <= i < |r| ==> r[i] == (a[i], b[i])
  {
    if a == [] then [] else [(a[0], b[0])] + Zip(a[1..], b[1..])
  }

  // ---------------------------------------------------------------------------
  // transform
  // ---------------------------------------------------------------------------

  /** `type_list<decltype(F(x))...>`: `f` applied to every element, in order. */
  function Transform<T, U>(xs: seq<T>, f: T -> U): (r: seq<U>)
    ensures |r| == |xs|
    ensures forall i :: 0 <= i < |xs| ==> r[i] == f(xs[i])
  {
    if xs == [] then [] else [f(xs[0])] + Transform(xs[1..], f)
  }

  // ---------------------------------------------------------------------------
  // count_if / count
  // ---------------------------------------------------------------------------

  /** The left fold `(((0 + c(x0)) + c(x1)) + ...)` with `c(x) = p(x) ? 1 : 0`:
      the count of the list without its last element, plus the last one's. */
  function CountIf<T>(xs: seq<T>, p: T -> bool): (r: nat)
    ensures r <= |xs|
  {
    if xs == [] then 0
    else CountIf(xs[..|xs| - 1], p) + (if p(xs[|xs| - 1]) then 1 else 0)
  }

  /** `count_if` with the predicate "is the same as t". */
  function Count<T(==)>(xs: seq<T>, t: T): (r: nat)
    ensures r <= |xs|
  {
    CountIf(xs, u => u == t)
  }

  /** Reference definition for counting: the indices whose element satisfies `p`. */
  ghost function MatchingIndices<T>(xs: seq<T>, p: T -> bool): set<nat>
  {
    set i: nat | i < |xs| && p(xs[i])
  }

  // ---------------------------------------------------------------------------
  // Lemmas
  // ---------------------------------------------------------------------------

  /** `at_t` on a pack selects what `at` selects on the list made from it.
      This holds by definition, in the model as in the C++ alias. */
  lemma AtTIsAt<T>(n: nat, pack: seq<T>)
    requires n < |pack|
    ensures AtT(n, pack) == At(n, pack)
  {
  }

  /** `any_of` over the empty list is false. */
  lemma AnyOfEmpty<T>(p: T -> bool)
    ensures !AnyOf([], p)
  {
  }

  /** The two-sided index laws of Concat pin it down as sequence append. */
  lemma {:induction false} ConcatIsAppend<T>(a: seq<T>, b: seq<T>)
    ensures Concat(a, b) == a + b
  {
    var r := Concat(a, b);
    forall k | 0 <= k < |r|
      ensures r[k] == (a + b)[k]
    {
      if k >= |a| {
        assert r[|a| + (k - |a|)] == b[k - |a|];
      }
    }
  }

  /** Projecting either component of every pair of Zip gives back its inputs. */
  lemma {:induction false} ZipUnzip<T, U>(a: seq<T>, b: seq<U>)
    requires |a| == |b|
    ensures Transform(Zip(a, b), (pr: (T, U)) => pr.0) == a
    ensures Transform(Zip(a, b), (pr: (T, U)) => pr.1) == b
  {
    var z := Zip(a, b);
    var firsts := Transform(z, (pr: (T, U)) => pr.0);
    var seconds := Transform(z, (pr: (T, U)) => pr.1);
    forall i | 0 <= i < |a|
      ensures firsts[i] == a[i] && seconds[i] == b[i]
    {
      assert z[i] == (a[i], b[i]);
    }
  }

  /** Transform distributes over Concat. */
  lemma {:induction false} TransformConcat<T, U>(a: seq<T>, b: seq<T>, f: T -> U)
    ensures Transform(Concat(a, b), f) == Concat(Transform(a, f), Transform(b, f))
  {
    ConcatIsAppend(a, b);
    ConcatIsAppend(Transform(a, f), Transform(b, f));
    var lhs := Transform(a + b, f);
    var rhs := Transform(a, f) + Transform(b, f);
    forall k | 0 <= k < |lhs|
      ensures lhs[k] == rhs[k]
    {
      if k < |a| {
        assert (a + b)[k] == a[k];
      } else {
        assert (a + b)[k] == b[k - |a|];
      }
    }
    assert lhs == rhs;
  }

  /** Any_of of a Concat is the disjunction of the parts' any_of. */
  lemma {:induction false} AnyOfConcat<T>(a: seq<T>, b: seq<T>, p: T -> bool)
    ensures AnyOf(Concat(a, b), p) <==> AnyOf(a, p) || AnyOf(b, p)
  {
    var r := Concat(a, b);
    if AnyOf(r, p) {
      var k :| 0 <= k < |r| && p(r[k]);
      if k >= |a| {
        assert r[|a| + (k - |a|)] == b[k - |a|];
      }
    }
    if AnyOf(b, p) {
      var j :| 0 <= j < |b| && p(b[j]);
      assert r[|a| + j] == b[j];
    }
  }

  /** `count_if` over the empty list is 0. */
  lemma CountIfEmpty<T>(p: T -> bool)
    ensures CountIf([], p) == 0
  {
  }

  /** Count_if equals the number of indices whose element satisfies `p`. */
  lemma {:induction false} CountIfCountsIndices<T>(xs: seq<T>, p: T -> bool)
    ensures CountIf(xs, p) == |MatchingIndices(xs, p)|
  {
    if xs == [] {
      assert MatchingIndices(xs, p) == {};
    } else {
      var n := |xs| - 1;
      var init := xs[..n];
      CountIfCountsIndices(init, p);
      var before := MatchingIndices(init, p);
      var last: set<nat> := if p(xs[n]) then {n} else {};
      assert MatchingIndices(xs, p) == before + last by {
        forall i: nat | i < n
          ensures init[i] == xs[i]
        {
        }
      }
      assert n !in before;
    }
  }

  /** Count_if is positive exactly when any_of holds. */
  lemma {:induction false} CountIfPositiveIffAnyOf<T>(xs: seq<T>, p: T -> bool)
    ensures CountIf(xs, p) > 0 <==> AnyOf(xs, p)
  {
    CountIfCountsIndices(xs, p);
    var s := MatchingIndices(xs, p);
    if AnyOf(xs, p) {
      var i :| 0 <= i < |xs| && p(xs[i]);
      assert i in s;
    }
    if |s| > 0 {
      var i :| i in s;
      assert 0 <= i < |xs| && p(xs[i]);
    }
  }

  /** Count_if is additive over appending. */
  lemma {:induction false} CountIfAppend<T>(a: seq<T>, b: seq<T>, p: T -> bool)
    ensures CountIf(a + b, p) == CountIf(a, p) + CountIf(b, p)
  {
    if b == [] {
      assert a + b == a;
    } else {
      var n := |b| - 1;
      CountIfAppend(a, b[..n], p);
      assert (a + b)[..|a + b| - 1] == a + b[..n];
      assert (a + b)[|a + b| - 1] == b[n];
    }
  }

  /** Count_if is additive over Concat. */
  lemma {:induction false} CountIfConcat<T>(a: seq<T>, b: seq<T>, p: T -> bool)
    ensures CountIf(Concat(a, b), p) == CountIf(a, p) + CountIf(b, p)
  {
    ConcatIsAppend(a, b);
    CountIfAppend(a, b, p);
  }

  /** Count is the multiplicity of `t` among the elements. */
  lemma {:induction false} CountIsMultiplicity<T>(xs: seq<T>, t: T)
    ensures Count(xs, t) == multiset(xs)[t]
  {
    if xs != [] {
      var n := |xs| - 1;
      CountIsMultiplicity(xs[..n], t);
      assert xs == xs[..n] + [xs[n]];
      assert multiset(xs) == multiset(xs[..n]) + multiset{xs[n]};
    }
  }

  /** Count is additive over Concat. */
  lemma {:induction false} CountConcat<T>(a: seq<T>, b: seq<T>, t: T)
    ensures Count(Concat(a, b), t) == Count(a, t) + Count(b, t)
  {
    CountIfConcat(a, b, u => u == t);
  }

  /** Count is positive exactly when some element is `t`. */
  lemma {:induction false} CountPositiveIffMember<T>(xs: seq<T>, t: T)
    ensures Count(xs, t) > 0 <==> t in xs
  {
    CountIsMultiplicity(xs, t);
  }
}
