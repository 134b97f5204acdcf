/**
 The library's own assertions about the list `type_list<int, float, double>`,
 stated as lemmas over a small universe of element types.
 */
module TypeListTests {
  import opened TypeList

  /** The element types the tests use. */
  datatype CppType = Int | Float | Double

  /** The list `type_list<int, float, double>`. */
  const Sample: seq<CppType> := [Int, Float, Double]

  /** The predicate "is the same as int". */
  predicate IsInt(t: CppType) {
    t == Int
  }

  /** The size of the sample list is 3. */
  lemma SampleSize()
    ensures Size(Sample) == 3
  {
  }

  /** Some element of the sample list is int. */
  lemma SampleAnyOfIsInt()
    ensures AnyOf(Sample, IsInt)
  {
    assert IsInt(Sample[0]);
  }
}
