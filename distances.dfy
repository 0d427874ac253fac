/**
  * The multiset distances of the weight assigners, on the count vectors of `_to_vectors`:
  * `_sorensen`, `_jaccard`, `_canberra` and `_uniform` of src/features.py (the first two
  * also in features.py) and the Counter-based `_hamming` of features.py and
  * weight_assigner.py. Values are exact reals; numpy's float64 rounding is not modelled.
  *
  * Every distance is also written as a sum over the labels (`SumOver`), which does not
  * depend on the order of the labels; that is how symmetry is proved.
  */
module Distances {
  import opened LabelVectors

  function Abs(x: int): nat
  {
    if x < 0 then -x else x
  }

  function Max(x: int, y: int): int
  {
    if x < y then y else x
  }

  // ---------------------------------------------------------------------------------------
  // Sums over the entries of two count vectors, as numpy computes them

  /** `np.sum(np.abs(a - b))`. */
  function SumAbsDiff(a: seq<int>, b: seq<int>): int
    requires |a| == |b|
  {
    if a == [] then 0 else SumAbsDiff(a[..|a| - 1], b[..|b| - 1]) + Abs(a[|a| - 1] - b[|b| - 1])
  }

  /** The sum of the entrywise maxima: the size of the multiset union. */
  function SumMax(a: seq<int>, b: seq<int>): int
    requires |a| == |b|
  {
    if a == [] then 0 else SumMax(a[..|a| - 1], b[..|b| - 1]) + Max(a[|a| - 1], b[|b| - 1])
  }

  /** `np.sum(np.multiply(1 - a, 1 - b))`. */
  function ProductSum(a: seq<int>, b: seq<int>): int
    requires |a| == |b|
  {
    if a == [] then 0 else ProductSum(a[..|a| - 1], b[..|b| - 1]) + (1 - a[|a| - 1]) * (1 - b[|b| - 1])
  }

  /** `np.sum(np.abs(a - b) / (a + b))`, for vectors without an index where both are zero. */
  function CanberraSum(a: seq<int>, b: seq<int>): real
    requires |a| == |b| && forall i :: 0 <= i < |a| ==> a[i] + b[i] != 0
  {
    if a == [] then 0.0
    else
      var n := |a| - 1;
      CanberraSum(a[..n], b[..n]) + (Abs(a[n] - b[n]) as real) / ((a[n] + b[n]) as real)
  }

  ghost predicate NonNegative(v: seq<int>)
  {
    forall i :: 0 <= i < |v| ==> v[i] >= 0
  }

  // ---------------------------------------------------------------------------------------
  // The distances

  /** `_sorensen(A, B)`: the summed count differences over the summed counts, 0.0 when
      both lists are empty. */
  function Sorensen(A: seq<string>, B: seq<string>): real
  {
    var (a, b) := Vectors(A, B);
    var denominator := Sum(Add(a, b));
    if denominator == 0 then 0.0 else (SumAbsDiff(a, b) as real) / (denominator as real)
  }

  /** `_hamming(A, B)`: `Counter(A).subtract(B)` has an entry for every label of A + B,
      holding count in A minus count in B; their absolute values are summed and divided
      by len(A) + len(B). Two empty lists are at distance 0.0. */
  function Hamming(A: seq<string>, B: seq<string>): real
  {
    var n := |A| + |B|;
    if n == 0 then 0.0 else SumOver(Distinct(A + B), AbsDiff, A, B) / (n as real)
  }

  /** `_jaccard(A, B)` as written: the denominator len(a) - sum((1 - a) * (1 - b)) is the
      size of the union only when no count exceeds one. */
  function JaccardAsWritten(A: seq<string>, B: seq<string>): real
  {
    var (a, b) := Vectors(A, B);
    var denominator := |a| - ProductSum(a, b);
    if denominator == 0 then 0.0 else (SumAbsDiff(a, b) as real) / (denominator as real)
  }

  /** The multiset Jaccard distance the comment asks for: the summed count differences over
      the size of the multiset union, 0.0 when both lists are empty. */
  function Jaccard(A: seq<string>, B: seq<string>): real
  {
    var (a, b) := Vectors(A, B);
    var denominator := SumMax(a, b);
    if denominator == 0 then 0.0 else (SumAbsDiff(a, b) as real) / (denominator as real)
  }

  /** `_canberra(A, B)`: every label of A + B occurs in A or in B, so no term divides by zero. */
  function Canberra(A: seq<string>, B: seq<string>): real
  {
    var (a, b) := Vectors(A, B);
    VectorsCover(A, B);
    VectorSums(A, B);
    CanberraSum(a, b)
  }

  /** `_uniform(A, B)`. */
  function Uniform(A: seq<string>, B: seq<string>): real
  {
    1.0
  }

  // ---------------------------------------------------------------------------------------
  // Sums over the labels

  /** The per-label summands of the distances; `Union` is the summand 1 - (1 - a)(1 - b)
      of the denominator of `_jaccard` as written. */
  datatype Term = AbsDiff | Larger | CanberraTerm | Union

  function TermValue(t: Term, A: seq<string>, B: seq<string>, x: string): real
  {
    var ca, cb := Count(A, x), Count(B, x);
    match t
    case AbsDiff => Abs(ca - cb) as real
    case Larger => Max(ca, cb) as real
    case CanberraTerm => if ca + cb == 0 then 0.0 else (Abs(ca - cb) as real) / ((ca + cb) as real)
    case Union => (1 - (1 - ca) * (1 - cb)) as real
  }

  function SumOver(keys: seq<string>, t: Term, A: seq<string>, B: seq<string>): real
  {
    if keys == [] then 0.0 else SumOver(keys[..|keys| - 1], t, A, B) + TermValue(t, A, B, keys[|keys| - 1])
  }

  lemma {:induction false} SumOverAppend(u: seq<string>, v: seq<string>, t: Term, A: seq<string>, B: seq<string>)
    ensures SumOver(u + v, t, A, B) == SumOver(u, t, A, B) + SumOver(v, t, A, B)
  {
    if v != [] {
      var init := v[..|v| - 1];
      SumOverAppend(u, init, t, A, B);
      assert (u + v)[..|u + v| - 1] == u + init;
    } else {
      assert u + v == u;
    }
  }

  /** A sum over the labels does not depend on their order. */
  lemma {:induction false} SumOverPermutation(k1: seq<string>, k2: seq<string>, t: Term, A: seq<string>, B: seq<string>)
    requires multiset(k1) == multiset(k2)
    ensures SumOver(k1, t, A, B) == SumOver(k2, t, A, B)
    decreases |k1|
  {
    if k1 == [] {
      assert |k2| == |multiset(k2)| == 0;
    } else {
      var n := |k1| - 1;
      RemoveAt(k1, n);
      assert k1[n] in multiset(k2);
      var i := IndexOf(k2, k1[n]);
      RemoveAt(k2, i);
      SumOverRemoveAt(k2, i, t, A, B);
      assert k1[..n] + k1[n + 1..] == k1[..n];
      SumOverPermutation(k1[..n], k2[..i] + k2[i + 1..], t, A, B);
    }
  }

  lemma RemoveAt(s: seq<string>, i: nat)
    requires i < |s|
    ensures multiset(s[..i] + s[i + 1..]) == multiset(s) - multiset{s[i]}
  {
    assert s == s[..i] + [s[i]] + s[i + 1..];
  }

  lemma SumOverRemoveAt(s: seq<string>, i: nat, t: Term, A: seq<string>, B: seq<string>)
    requires i < |s|
    ensures SumOver(s, t, A, B) == SumOver(s[..i] + s[i + 1..], t, A, B) + TermValue(t, A, B, s[i])
  {
    var front, back := s[..i], s[i + 1..];
    assert s == front + [s[i]] + back;
    SumOverAppend(front, back, t, A, B);
    SumOverAppend(front + [s[i]], back, t, A, B);
    SumOverAppend(front, [s[i]], t, A, B);
    assert [s[i]][..0] == [];
  }

  lemma {:induction false} SumOverSwap(keys: seq<string>, t: Term, A: seq<string>, B: seq<string>)
    ensures SumOver(keys, t, A, B) == SumOver(keys, t, B, A)
  {
    if keys != [] {
      SumOverSwap(keys[..|keys| - 1], t, A, B);
    }
  }

  /** A list without repetitions holds each of its elements once. */
  lemma {:induction false} NoDuplicatesMultiset(s: seq<string>)
    requires NoDuplicates(s)
    ensures forall x :: multiset(s)[x] == if x in s then 1 else 0
  {
    if s != [] {
      var init, y := s[..|s| - 1], s[|s| - 1];
      assert s == init + [y];
      NoDuplicatesMultiset(init);
      assert y !in init;
    }
  }

  /** A + B and B + A have the same distinct labels, in another order. */
  lemma DistinctSwap(A: seq<string>, B: seq<string>)
    ensures multiset(Distinct(A + B)) == multiset(Distinct(B + A))
  {
    DistinctProperties(A + B);
    DistinctProperties(B + A);
    NoDuplicatesMultiset(Distinct(A + B));
    NoDuplicatesMultiset(Distinct(B + A));
    forall x
      ensures multiset(Distinct(A + B))[x] == multiset(Distinct(B + A))[x]
    {
      assert x in A + B <==> x in B + A;
    }
  }

  /** Summing over the labels of A + B in the other order gives the distance of B and A. */
  lemma SumOverSymmetric(t: Term, A: seq<string>, B: seq<string>)
    ensures SumOver(Distinct(A + B), t, A, B) == SumOver(Distinct(B + A), t, B, A)
  {
    DistinctSwap(A, B);
    SumOverPermutation(Distinct(A + B), Distinct(B + A), t, A, B);
    SumOverSwap(Distinct(B + A), t, A, B);
  }

  // ---------------------------------------------------------------------------------------
  // From the vectors to the sums over the labels

  lemma {:induction false} AbsDiffOverKeys(A: seq<string>, B: seq<string>, keys: seq<string>)
    ensures SumAbsDiff(CountVector(A, keys), CountVector(B, keys)) as real == SumOver(keys, AbsDiff, A, B)
  {
    if keys != [] {
      var n := |keys| - 1;
      AbsDiffOverKeys(A, B, keys[..n]);
      assert CountVector(A, keys)[..n] == CountVector(A, keys[..n]);
      assert CountVector(B, keys)[..n] == CountVector(B, keys[..n]);
    }
  }

  lemma {:induction false} MaxOverKeys(A: seq<string>, B: seq<string>, keys: seq<string>)
    ensures SumMax(CountVector(A, keys), CountVector(B, keys)) as real == SumOver(keys, Larger, A, B)
  {
    if keys != [] {
      var n := |keys| - 1;
      MaxOverKeys(A, B, keys[..n]);
      assert CountVector(A, keys)[..n] == CountVector(A, keys[..n]);
      assert CountVector(B, keys)[..n] == CountVector(B, keys[..n]);
    }
  }

  lemma {:induction false} UnionOverKeys(A: seq<string>, B: seq<string>, keys: seq<string>)
    ensures (|keys| - ProductSum(CountVector(A, keys), CountVector(B, keys))) as real == SumOver(keys, Union, A, B)
  {
    if keys != [] {
      var n := |keys| - 1;
      UnionOverKeys(A, B, keys[..n]);
      assert CountVector(A, keys)[..n] == CountVector(A, keys[..n]);
      assert CountVector(B, keys)[..n] == CountVector(B, keys[..n]);
    }
  }

  lemma {:induction false} CanberraOverKeys(A: seq<string>, B: seq<string>, keys: seq<string>)
    requires forall i :: 0 <= i < |keys| ==> Count(A, keys[i]) + Count(B, keys[i]) != 0
    ensures CanberraSum(CountVector(A, keys), CountVector(B, keys)) == SumOver(keys, CanberraTerm, A, B)
  {
    if keys != [] {
      var n := |keys| - 1;
      CanberraOverKeys(A, B, keys[..n]);
      assert CountVector(A, keys)[..n] == CountVector(A, keys[..n]);
      assert CountVector(B, keys)[..n] == CountVector(B, keys[..n]);
    }
  }

  // ---------------------------------------------------------------------------------------
  // Facts about sums of nonnegative vectors

  lemma {:induction false} AbsDiffAtMostSum(a: seq<int>, b: seq<int>)
    requires |a| == |b| && NonNegative(a) && NonNegative(b)
    ensures 0 <= SumAbsDiff(a, b) <= Sum(Add(a, b))
  {
    if a != [] {
      var n := |a| - 1;
      AbsDiffAtMostSum(a[..n], b[..n]);
      assert Add(a, b)[..n] == Add(a[..n], b[..n]);
    }
  }

  lemma {:induction false} AbsDiffAtMostMax(a: seq<int>, b: seq<int>)
    requires |a| == |b| && NonNegative(a) && NonNegative(b)
    ensures 0 <= SumAbsDiff(a, b) <= SumMax(a, b)
  {
    if a != [] {
      var n := |a| - 1;
      AbsDiffAtMostMax(a[..n], b[..n]);
    }
  }

  /** The summed differences vanish exactly when the vectors are equal. */
  lemma {:induction false} AbsDiffZeroIff(a: seq<int>, b: seq<int>)
    requires |a| == |b|
    ensures SumAbsDiff(a, b) == 0 <==> a == b
  {
    if a != [] {
      var n := |a| - 1;
      AbsDiffZeroIff(a[..n], b[..n]);
      AbsDiffNonNegative(a[..n], b[..n]);
      assert a == a[..n] + [a[n]] && b == b[..n] + [b[n]];
    }
  }

  lemma {:induction false} AbsDiffNonNegative(a: seq<int>, b: seq<int>)
    requires |a| == |b|
    ensures SumAbsDiff(a, b) >= 0
  {
    if a != [] {
      AbsDiffNonNegative(a[..|a| - 1], b[..|b| - 1]);
    }
  }

  /** On 0/1 vectors, len(a) - sum((1 - a) * (1 - b)) is the sum of the maxima. */
  lemma {:induction false} ProductSumOnZeroOne(a: seq<int>, b: seq<int>)
    requires |a| == |b|
    requires forall i :: 0 <= i < |a| ==> 0 <= a[i] <= 1 && 0 <= b[i] <= 1
    ensures |a| - ProductSum(a, b) == SumMax(a, b)
  {
    if a != [] {
      ProductSumOnZeroOne(a[..|a| - 1], b[..|b| - 1]);
    }
  }

  lemma CountVectorNonNegative(s: seq<string>, keys: seq<string>)
    ensures NonNegative(CountVector(s, keys))
  {
  }

  // ---------------------------------------------------------------------------------------
  // The properties of the distances

  /** The denominator of `_sorensen` is len(A) + len(B). */
  lemma SorensenDenominator(A: seq<string>, B: seq<string>)
    ensures Sum(Add(Vectors(A, B).0, Vectors(A, B).1)) == |A| + |B|
  {
    VectorSums(A, B);
    SumAdd(Vectors(A, B).0, Vectors(A, B).1);
  }

  /** `_sorensen` lies in [0, 1], is 0.0 exactly for equal multisets and is symmetric. */
  lemma SorensenProperties(A: seq<string>, B: seq<string>)
    ensures 0.0 <= Sorensen(A, B) <= 1.0
    ensures Sorensen(A, B) == 0.0 <==> multiset(A) == multiset(B)
    ensures Sorensen(A, B) == Sorensen(B, A)
  {
    SorensenRange(A, B);
    SorensenSymmetric(A, B);
  }

  lemma SorensenRange(A: seq<string>, B: seq<string>)
    ensures 0.0 <= Sorensen(A, B) <= 1.0
    ensures Sorensen(A, B) == 0.0 <==> multiset(A) == multiset(B)
  {
    var (a, b) := Vectors(A, B);
    SorensenDenominator(A, B);
    AbsDiffAtMostSum(a, b);
    AbsDiffZeroIff(a, b);
    VectorsEqualIffSameMultiset(A, B);
    if |A| + |B| == 0 {
      assert A == [] && B == [];
    } else {
      RatioBounds(SumAbsDiff(a, b), |A| + |B|);
    }
  }

  lemma SorensenSymmetric(A: seq<string>, B: seq<string>)
    ensures Sorensen(A, B) == Sorensen(B, A)
  {
    HammingIsSorensen(A, B);
    HammingIsSorensen(B, A);
    SumOverSymmetric(AbsDiff, A, B);
  }

  /** A ratio of a nonnegative count to a larger positive one. */
  lemma RatioBounds(x: int, y: int)
    requires 0 <= x <= y && y > 0
    ensures 0.0 <= (x as real) / (y as real) <= 1.0
    ensures (x as real) / (y as real) == 0.0 <==> x == 0
  {
  }

  /** The Counter-based `_hamming` is the Sorensen distance. */
  lemma HammingIsSorensen(A: seq<string>, B: seq<string>)
    ensures Hamming(A, B) == Sorensen(A, B)
  {
    SorensenDenominator(A, B);
    AbsDiffOverKeys(A, B, Distinct(A + B));
  }

  /** `_hamming` is 0.0 for two empty lists; otherwise the normalized count difference,
      in [0, 1]; it is 0.0 exactly for equal multisets and symmetric. */
  lemma HammingProperties(A: seq<string>, B: seq<string>)
    ensures A == [] && B == [] ==> Hamming(A, B) == 0.0
    ensures 0.0 <= Hamming(A, B) <= 1.0
    ensures Hamming(A, B) == 0.0 <==> multiset(A) == multiset(B)
    ensures Hamming(A, B) == Hamming(B, A)
  {
    HammingIsSorensen(A, B);
    SorensenRange(A, B);
    HammingSymmetric(A, B);
  }

  lemma HammingSymmetric(A: seq<string>, B: seq<string>)
    ensures Hamming(A, B) == Hamming(B, A)
  {
    SumOverSymmetric(AbsDiff, A, B);
  }

  /** The corrected Jaccard distance lies in [0, 1], is 0.0 exactly for equal multisets and
      is symmetric. */
  lemma JaccardProperties(A: seq<string>, B: seq<string>)
    ensures 0.0 <= Jaccard(A, B) <= 1.0
    ensures Jaccard(A, B) == 0.0 <==> multiset(A) == multiset(B)
    ensures Jaccard(A, B) == Jaccard(B, A)
  {
    var (a, b) := Vectors(A, B);
    VectorSums(A, B);
    AbsDiffAtMostMax(a, b);
    AbsDiffZeroIff(a, b);
    VectorsEqualIffSameMultiset(A, B);
    if SumMax(a, b) > 0 {
      RatioBounds(SumAbsDiff(a, b), SumMax(a, b));
    } else {
      AbsDiffNonNegative(a, b);
    }
    AbsDiffOverKeys(A, B, Distinct(A + B));
    AbsDiffOverKeys(B, A, Distinct(B + A));
    MaxOverKeys(A, B, Distinct(A + B));
    MaxOverKeys(B, A, Distinct(B + A));
    SumOverSymmetric(AbsDiff, A, B);
    SumOverSymmetric(Larger, A, B);
  }

  /** On lists without repeated labels the code's denominator is the union size, so the
      code computes the Jaccard distance. */
  lemma JaccardAsWrittenOnSets(A: seq<string>, B: seq<string>)
    requires NoDuplicates(A) && NoDuplicates(B)
    ensures JaccardAsWritten(A, B) == Jaccard(A, B)
  {
    var (a, b) := Vectors(A, B);
    NoDuplicatesMultiset(A);
    NoDuplicatesMultiset(B);
    ProductSumOnZeroOne(a, b);
  }

  /** `_jaccard` as written does not depend on the order of its arguments: its numerator
      and its denominator are both sums over the labels of A + B. */
  lemma JaccardAsWrittenSymmetric(A: seq<string>, B: seq<string>)
    ensures JaccardAsWritten(A, B) == JaccardAsWritten(B, A)
  {
    var kab, kba := Distinct(A + B), Distinct(B + A);
    AbsDiffOverKeys(A, B, kab);
    AbsDiffOverKeys(B, A, kba);
    UnionOverKeys(A, B, kab);
    UnionOverKeys(B, A, kba);
    SumOverSymmetric(AbsDiff, A, B);
    SumOverSymmetric(Union, A, B);
    var (a, b) := Vectors(A, B);
    var (a', b') := Vectors(B, A);
    assert SumAbsDiff(a, b) == SumAbsDiff(a', b');
    assert |a| - ProductSum(a, b) == |a'| - ProductSum(a', b');
  }

  /** With a repeated label the code's denominator can go negative: A = [x, x, x] and
      B = [x, x] give -1.0 where the Jaccard distance is 1/3. */
  lemma JaccardAsWrittenNegative()
    ensures JaccardAsWritten(["x", "x", "x"], ["x", "x"]) == -1.0
    ensures Jaccard(["x", "x", "x"], ["x", "x"]) == 1.0 / 3.0
  {
    var A, B := ["x", "x", "x"], ["x", "x"];
    RepeatedLabelVectors();
    assert [3][..0] == [] && [2][..0] == [];
  }

  /** A list repeating one label has that label as its only key. */
  lemma {:induction false} DistinctConstant(s: seq<string>, x: string)
    requires s != [] && forall i :: 0 <= i < |s| ==> s[i] == x
    ensures Distinct(s) == [x]
  {
    if |s| > 1 {
      DistinctConstant(s[..|s| - 1], x);
    }
  }

  lemma RepeatedLabelVectors()
    ensures Vectors(["x", "x", "x"], ["x", "x"]) == ([3], [2])
  {
    var A, B := ["x", "x", "x"], ["x", "x"];
    DistinctConstant(A + B, "x");
    assert multiset(A) == multiset{"x", "x", "x"};
    assert multiset(B) == multiset{"x", "x"};
    assert CountVector(A, ["x"]) == [Count(A, "x")];
    assert CountVector(B, ["x"]) == [Count(B, "x")];
  }

  /** `_canberra` lies between 0 and the number of distinct labels, is 0.0 exactly for
      equal multisets and is symmetric. */
  lemma CanberraProperties(A: seq<string>, B: seq<string>)
    ensures 0.0 <= Canberra(A, B) <= |Distinct(A + B)| as real
    ensures Canberra(A, B) == 0.0 <==> multiset(A) == multiset(B)
    ensures Canberra(A, B) == Canberra(B, A)
  {
    CanberraOfSum(A, B);
    CanberraOfSum(B, A);
    var keys := Distinct(A + B);
    CanberraTermsBounds(A, B, keys);
    SumOverSymmetric(CanberraTerm, A, B);
    VectorsEqualIffSameMultiset(A, B);
    if Canberra(A, B) == 0.0 {
      CanberraZero(A, B, keys);
    }
  }

  /** `_canberra` as a sum over the labels of A + B. */
  lemma CanberraOfSum(A: seq<string>, B: seq<string>)
    ensures Canberra(A, B) == SumOver(Distinct(A + B), CanberraTerm, A, B)
  {
    var keys := Distinct(A + B);
    VectorsCover(A, B);
    VectorSums(A, B);
    forall i | 0 <= i < |keys|
      ensures Count(A, keys[i]) + Count(B, keys[i]) != 0
    {
      assert Vectors(A, B).0[i] + Vectors(A, B).1[i] >= 1;
    }
    CanberraOverKeys(A, B, keys);
  }

  lemma {:induction false} CanberraTermsBounds(A: seq<string>, B: seq<string>, keys: seq<string>)
    ensures 0.0 <= SumOver(keys, CanberraTerm, A, B) <= |keys| as real
    ensures SumOver(keys, CanberraTerm, A, B) == 0.0 <==>
              forall i :: 0 <= i < |keys| ==> Count(A, keys[i]) == Count(B, keys[i])
  {
    if keys != [] {
      var n := |keys| - 1;
      CanberraTermsBounds(A, B, keys[..n]);
      var ca: int, cb: int := Count(A, keys[n]), Count(B, keys[n]);
      if ca + cb != 0 {
        RatioBounds(Abs(ca - cb), ca + cb);
      }
    }
  }

  lemma CanberraZero(A: seq<string>, B: seq<string>, keys: seq<string>)
    requires keys == Distinct(A + B)
    requires forall i :: 0 <= i < |keys| ==> Count(A, keys[i]) == Count(B, keys[i])
    ensures Vectors(A, B).0 == Vectors(A, B).1
  {
    assert CountVector(A, keys) == CountVector(B, keys);
  }

  /** With a repeated label the code's denominator can also vanish for different
      multisets: A = [x, x, y] and B = [x, x, x] have count vectors [2, 1] and [3, 0], so
      the denominator is 2 - ((1 - 2)(1 - 3) + (1 - 1)(1 - 0)) = 0 and the code returns 0.0,
      the value it reserves for equal label lists. */
  lemma JaccardAsWrittenZero()
    ensures multiset(["x", "x", "y"]) != multiset(["x", "x", "x"])
    ensures JaccardAsWritten(["x", "x", "y"], ["x", "x", "x"]) == 0.0
    ensures Jaccard(["x", "x", "y"], ["x", "x", "x"]) == 2.0 / 4.0
  {
    var A, B := ["x", "x", "y"], ["x", "x", "x"];
    MixedLabelVectors();
    assert "y" in multiset(A) && "y" !in multiset(B);
    var a, b := [2, 1], [3, 0];
    assert a[..1] == [2] && b[..1] == [3] && [2][..0] == [] && [3][..0] == [];
    assert ProductSum(a, b) == 2;
    assert SumAbsDiff(a, b) == 2 && SumMax(a, b) == 4;
  }

  lemma MixedLabelVectors()
    ensures Vectors(["x", "x", "y"], ["x", "x", "x"]) == ([2, 1], [3, 0])
  {
    var A, B := ["x", "x", "y"], ["x", "x", "x"];
    MixedLabelKeys();
    assert multiset(A) == multiset{"x", "x", "y"};
    assert multiset(B) == multiset{"x", "x", "x"};
    assert CountVector(A, ["x", "y"]) == [Count(A, "x"), Count(A, "y")];
    assert CountVector(B, ["x", "y"]) == [Count(B, "x"), Count(B, "y")];
  }

  lemma MixedLabelKeys()
    ensures Distinct(["x", "x", "y"] + ["x", "x", "x"]) == ["x", "y"]
  {
    var A := ["x", "x", "y"];
    assert A[..2] == ["x", "x"] && ["x", "x"][..1] == ["x"] && ["x"][..0] == [];
    assert Distinct(A) == ["x", "y"];
    DistinctRepeat(A, "x", 3);
    assert seq(3, i => "x") == ["x", "x", "x"];
  }

  /** Appending copies of a label that is already a key leaves the keys as they are. */
  lemma {:induction false} DistinctRepeat(s: seq<string>, x: string, k: nat)
    requires x in s
    ensures Distinct(s + seq(k, i => x)) == Distinct(s)
  {
    if k > 0 {
      var t := s + seq(k, i => x);
      DistinctRepeat(s, x, k - 1);
      var init := s + seq(k - 1, i => x);
      assert t == init + [x];
      assert t[..|t| - 1] == init && t[|t| - 1] == x;
      DistinctProperties(init);
      assert x in init;
    } else {
      assert s + seq(k, i => x) == s;
    }
  }
}
