/**
  * `WeightAssigner._to_vectors` (the same static method in src/features.py and features.py):
  * two label lists become two count vectors over the labels of A + B, indexed in the order
  * in which the labels are first seen. Sums over a list of keys are defined here once,
  * first-order, so that the distances can be moved between key orders.
  */
module LabelVectors {

  /** How often x occurs in s. */
  function Count(s: seq<string>, x: string): nat
  {
    multiset(s)[x]
  }

  ghost predicate NoDuplicates(s: seq<string>)
  {
    forall i, j :: 0 <= i < j < |s| ==> s[i] != s[j]
  }

  /** The labels of s without repetitions, in the order in which they first occur:
      the insertion order of `label_to_index`. */
  function Distinct(s: seq<string>): seq<string>
  {
    if s == [] then []
    else
      var d := Distinct(s[..|s| - 1]);
      if s[|s| - 1] in d then d else d + [s[|s| - 1]]
  }

  lemma {:induction false} DistinctProperties(s: seq<string>)
    ensures NoDuplicates(Distinct(s))
    ensures forall x :: x in Distinct(s) <==> x in s
  {
    if s != [] {
      var init := s[..|s| - 1];
      DistinctProperties(init);
      assert s == init + [s[|s| - 1]];
    }
  }

  /** `label_to_index` after the first loop: each distinct label maps to its position. */
  function IndexOf(keys: seq<string>, x: string): (i: nat)
    requires x in keys
    ensures i < |keys| && keys[i] == x
  {
    if keys[0] == x then 0 else 1 + IndexOf(keys[1..], x)
  }

  lemma IndexOfUnique(keys: seq<string>, i: nat)
    requires NoDuplicates(keys) && i < |keys|
    ensures IndexOf(keys, keys[i]) == i
  {
  }

  /** The count vector of s over the keys. */
  function CountVector(s: seq<string>, keys: seq<string>): (v: seq<int>)
    ensures |v| == |keys|
  {
    seq(|keys|, i requires 0 <= i < |keys| => Count(s, keys[i]))
  }

  /** The pair of vectors `_to_vectors(A, B)` returns. */
  function Vectors(A: seq<string>, B: seq<string>): (seq<int>, seq<int>)
  {
    var keys := Distinct(A + B);
    (CountVector(A, keys), CountVector(B, keys))
  }

  function Sum(v: seq<int>): int
  {
    if v == [] then 0 else Sum(v[..|v| - 1]) + v[|v| - 1]
  }

  // ---------------------------------------------------------------------------------------
  // The two loops of `_to_vectors`

  /** `_to_vectors(A, B)`: numbers the labels of A + B in first-seen order, then counts
      the labels of A into one zero vector and those of B into another. */
  method ToVectors(A: seq<string>, B: seq<string>) returns (a: array<int>, b: array<int>)
    ensures fresh(a) && fresh(b)
    ensures a[..] == Vectors(A, B).0 && b[..] == Vectors(A, B).1
  {
    var labelToIndex, size, keys := IndexLabels(A + B);
    DistinctProperties(A + B);
    a := new int[size](_ => 0);
    b := new int[size](_ => 0);
    assert a[..] == CountVector([], keys);
    CountInto(a, A, keys, labelToIndex);
    assert b[..] == CountVector([], keys);
    CountInto(b, B, keys, labelToIndex);
  }

  /** `labelToIndex` numbers the keys by their positions. */
  ghost predicate Numbered(labelToIndex: map<string, nat>, keys: seq<string>)
  {
    NoDuplicates(keys) &&
    (forall x :: x in labelToIndex <==> x in keys) &&
    (forall x :: x in labelToIndex ==> labelToIndex[x] == IndexOf(keys, x))
  }

  lemma NumberedSnoc(labelToIndex: map<string, nat>, keys: seq<string>, x: string)
    requires Numbered(labelToIndex, keys) && x !in labelToIndex
    ensures Numbered(labelToIndex[x := |keys|], keys + [x])
  {
    IndexOfSnoc(keys, x);
  }

  /** The first loop: gives every label not seen before the next free index; `size` is
      that index at the end, the number of entries of `label_to_index`. */
  method IndexLabels(labels: seq<string>) returns (labelToIndex: map<string, nat>, size: nat, ghost keys: seq<string>)
    ensures keys == Distinct(labels) && size == |keys| && Numbered(labelToIndex, keys)
  {
    labelToIndex := map[];
    var index := 0;
    keys := [];
    var i := 0;
    while i < |labels|
      invariant i <= |labels| && keys == Distinct(labels[..i]) && index == |keys|
      invariant Numbered(labelToIndex, keys)
    {
      var lbl := labels[i];
      assert labels[..i + 1] == labels[..i] + [lbl];
      DistinctSnoc(labels[..i], lbl);
      if lbl !in labelToIndex {
        NumberedSnoc(labelToIndex, keys, lbl);
        labelToIndex := labelToIndex[lbl := index];
        index := index + 1;
        keys := keys + [lbl];
      }
      i := i + 1;
    }
    assert labels[..i] == labels;
    size := index;
  }

  /** Appending a new key keeps the index of the old ones and gives it the last index. */
  lemma IndexOfSnoc(keys: seq<string>, x: string)
    requires x !in keys
    ensures IndexOf(keys + [x], x) == |keys|
    ensures forall y :: y in keys ==> IndexOf(keys + [x], y) == IndexOf(keys, y)
  {
    if keys != [] {
      assert (keys + [x])[1..] == keys[1..] + [x];
      IndexOfSnoc(keys[1..], x);
    }
  }

  /** One of the counting loops: `v[label_to_index[label]] += 1` for every label of s. */
  method CountInto(v: array<int>, s: seq<string>, ghost keys: seq<string>, labelToIndex: map<string, nat>)
    requires v[..] == CountVector([], keys) && Numbered(labelToIndex, keys)
    requires forall x :: x in s ==> x in keys
    modifies v
    ensures v[..] == CountVector(s, keys)
  {
    var i := 0;
    while i < |s|
      invariant i <= |s| && v.Length == |keys|
      invariant v[..] == CountVector(s[..i], keys)
    {
      var lbl := s[i];
      var k := labelToIndex[lbl];
      CountVectorSnoc(s[..i], keys, lbl);
      assert s[..i + 1] == s[..i] + [lbl];
      v[k] := v[k] + 1;
      i := i + 1;
    }
    assert s[..i] == s;
  }

  /** Counting one more label raises exactly the entry at its index. */
  lemma CountVectorSnoc(s: seq<string>, keys: seq<string>, x: string)
    requires NoDuplicates(keys) && x in keys
    ensures CountVector(s + [x], keys) == CountVector(s, keys)[IndexOf(keys, x) := Count(s, x) + 1]
  {
    var k := IndexOf(keys, x);
    forall i | 0 <= i < |keys|
      ensures CountVector(s + [x], keys)[i] == CountVector(s, keys)[k := Count(s, x) + 1][i]
    {
      assert multiset(s + [x]) == multiset(s) + multiset{x};
    }
  }

  // ---------------------------------------------------------------------------------------
  // What the vectors count

  /** A vector holds a count per label, so it sums to the length of its list. */
  lemma VectorSums(A: seq<string>, B: seq<string>)
    ensures |Vectors(A, B).0| == |Vectors(A, B).1| == |Distinct(A + B)|
    ensures Sum(Vectors(A, B).0) == |A| && Sum(Vectors(A, B).1) == |B|
  {
    DistinctProperties(A + B);
    SumCountVector(A, Distinct(A + B));
    SumCountVector(B, Distinct(A + B));
  }

  /** Every index belongs to a label of A + B, so no entry is zero in both vectors: the
      denominators of `_canberra` are positive. */
  lemma VectorsCover(A: seq<string>, B: seq<string>)
    ensures forall i :: 0 <= i < |Vectors(A, B).0| ==> Vectors(A, B).0[i] + Vectors(A, B).1[i] >= 1
  {
    DistinctProperties(A + B);
    var keys := Distinct(A + B);
    forall i | 0 <= i < |keys|
      ensures Count(A, keys[i]) + Count(B, keys[i]) >= 1
    {
      assert keys[i] in A + B;
      assert multiset(A + B) == multiset(A) + multiset(B);
      assert keys[i] in multiset(A + B);
    }
  }

  /** Two lists get equal vectors exactly when they hold the same labels equally often. */
  lemma VectorsEqualIffSameMultiset(A: seq<string>, B: seq<string>)
    ensures Vectors(A, B).0 == Vectors(A, B).1 <==> multiset(A) == multiset(B)
  {
    var keys := Distinct(A + B);
    DistinctProperties(A + B);
    if Vectors(A, B).0 == Vectors(A, B).1 {
      forall x
        ensures multiset(A)[x] == multiset(B)[x]
      {
        if x in keys {
          var i := IndexOf(keys, x);
          assert CountVector(A, keys)[i] == CountVector(B, keys)[i];
        } else {
          assert x !in A + B;
          assert x !in A && x !in B;
        }
      }
      assert multiset(A) == multiset(B);
    }
  }

  /** The example of the docstring: {a, a, b} and {a, c, c} give (2, 1, 0) and (1, 0, 2). */
  lemma DocstringExample()
    ensures Vectors(["a", "a", "b"], ["a", "c", "c"]) == ([2, 1, 0], [1, 0, 2])
  {
    var A, B := ["a", "a", "b"], ["a", "c", "c"];
    DocstringKeys();
    var keys := ["a", "b", "c"];
    assert multiset(A) == multiset{"a", "a", "b"};
    assert multiset(B) == multiset{"a", "c", "c"};
    assert CountVector(A, keys) == [Count(A, "a"), Count(A, "b"), Count(A, "c")];
    assert CountVector(B, keys) == [Count(B, "a"), Count(B, "b"), Count(B, "c")];
  }

  lemma DocstringKeys()
    ensures Distinct(["a", "a", "b"] + ["a", "c", "c"]) == ["a", "b", "c"]
  {
    DocstringKeysOfA();
    DistinctSnoc(["a", "a", "b"], "a");
    assert ["a", "a", "b"] + ["a"] == ["a", "a", "b", "a"];
    DistinctSnoc(["a", "a", "b", "a"], "c");
    assert ["a", "a", "b", "a"] + ["c"] == ["a", "a", "b", "a", "c"];
    DistinctSnoc(["a", "a", "b", "a", "c"], "c");
    assert ["a", "a", "b"] + ["a", "c", "c"] == ["a", "a", "b", "a", "c"] + ["c"];
  }

  lemma DocstringKeysOfA()
    ensures Distinct(["a", "a", "b"]) == ["a", "b"]
  {
    DistinctSnoc([], "a");
    assert [] + ["a"] == ["a"];
    DistinctSnoc(["a"], "a");
    assert ["a"] + ["a"] == ["a", "a"];
    DistinctSnoc(["a", "a"], "b");
    assert ["a", "a"] + ["b"] == ["a", "a", "b"];
  }

  /** One more label extends the distinct labels only if it is new. */
  lemma DistinctSnoc(s: seq<string>, x: string)
    ensures Distinct(s + [x]) == if x in Distinct(s) then Distinct(s) else Distinct(s) + [x]
  {
    assert (s + [x])[..|s|] == s;
  }

  // ---------------------------------------------------------------------------------------
  // Sums of a count vector

  /** The entries that x adds to a count vector: one at its own index. */
  function Indicator(keys: seq<string>, x: string): (v: seq<int>)
    ensures |v| == |keys|
  {
    seq(|keys|, i requires 0 <= i < |keys| => if keys[i] == x then 1 else 0)
  }

  lemma {:induction false} SumIndicator(keys: seq<string>, x: string)
    requires NoDuplicates(keys)
    ensures Sum(Indicator(keys, x)) == if x in keys then 1 else 0
  {
    if keys != [] {
      var init := keys[..|keys| - 1];
      SumIndicator(init, x);
      assert Indicator(keys, x)[..|keys| - 1] == Indicator(init, x);
      assert keys == init + [keys[|keys| - 1]];
    }
  }

  function Add(a: seq<int>, b: seq<int>): (r: seq<int>)
    requires |a| == |b|
    ensures |r| == |a|
  {
    seq(|a|, i requires 0 <= i < |a| => a[i] + b[i])
  }

  lemma {:induction false} SumAdd(a: seq<int>, b: seq<int>)
    requires |a| == |b|
    ensures Sum(Add(a, b)) == Sum(a) + Sum(b)
  {
    if a != [] {
      var n := |a| - 1;
      SumAdd(a[..n], b[..n]);
      assert Add(a, b)[..n] == Add(a[..n], b[..n]);
    }
  }

  lemma {:induction false} SumCountVector(s: seq<string>, keys: seq<string>)
    requires NoDuplicates(keys) && forall x :: x in s ==> x in keys
    ensures Sum(CountVector(s, keys)) == |s|
  {
    if s == [] {
      SumZero(keys);
    } else {
      var init, x := s[..|s| - 1], s[|s| - 1];
      assert s == init + [x];
      SumCountVector(init, keys);
      assert CountVector(s, keys) == Add(CountVector(init, keys), Indicator(keys, x)) by {
        assert multiset(s) == multiset(init) + multiset{x};
      }
      SumAdd(CountVector(init, keys), Indicator(keys, x));
      SumIndicator(keys, x);
    }
  }

  lemma {:induction false} SumZero(keys: seq<string>)
    ensures Sum(CountVector([], keys)) == 0
  {
    if keys != [] {
      SumZero(keys[..|keys| - 1]);
      assert CountVector([], keys)[..|keys| - 1] == CountVector([], keys[..|keys| - 1]);
    }
  }
}
