/**
  * What the feature generators of src/features.py share: the set of compressed labels of a
  * collection of graphs and its check that the labels are exactly 0..n-1, the per-label
  * vectors they fill with `x[label] += value`, and the rows of the feature matrix.
  */
module FeatureMatrix {
  import opened Wrappers

  // ---------------------------------------------------------------------------------------
  // The label set and its contiguity check

  /** `labels.update(...)` over the graphs: every label of every graph. */
  function LabelSet(labelings: seq<seq<int>>): set<int>
  {
    if labelings == [] then {}
    else LabelSet(labelings[..|labelings| - 1]) + Elements(labelings[|labelings| - 1])
  }

  /** The labels of one graph. */
  function Elements(s: seq<int>): (r: set<int>)
    ensures forall x :: x in r <==> x in s
  {
    set i | 0 <= i < |s| :: s[i]
  }

  lemma {:induction false} InLabelSet(labelings: seq<seq<int>>, i: nat, v: nat)
    requires i < |labelings| && v < |labelings[i]|
    ensures labelings[i][v] in LabelSet(labelings)
  {
    if i < |labelings| - 1 {
      InLabelSet(labelings[..|labelings| - 1], i, v);
    }
  }

  /** The labels that `collect` gathers: a label is in the set if and only if some graph
      has a vertex with it. */
  lemma {:induction false} LabelSetMembers(labelings: seq<seq<int>>, x: int)
    ensures x in LabelSet(labelings) <==> exists i, v :: 0 <= i < |labelings| && 0 <= v < |labelings[i]| && labelings[i][v] == x
  {
    if labelings != [] {
      var front := labelings[..|labelings| - 1];
      LabelSetMembers(front, x);
      if x in LabelSet(labelings) && x !in LabelSet(front) {
        var last := labelings[|labelings| - 1];
        var v :| 0 <= v < |last| && last[v] == x;
        assert labelings[|labelings| - 1][v] == x;
      }
      if x in LabelSet(front) {
        var i, v :| 0 <= i < |front| && 0 <= v < |front[i]| && front[i][v] == x;
        assert labelings[i][v] == x;
      }
    }
  }

  /** Collects the labels of all graphs, graph by graph. */
  method CollectLabels(labelings: seq<seq<int>>) returns (labels: set<int>)
    ensures labels == LabelSet(labelings)
  {
    labels := {};
    var i := 0;
    while i < |labelings|
      invariant i <= |labelings|
      invariant labels == LabelSet(labelings[..i])
    {
      assert labelings[..i + 1][..i] == labelings[..i];
      labels := labels + Elements(labelings[i]);
      i := i + 1;
    }
    assert labelings[..i] == labelings;
  }

  predicate IsMin(s: set<int>, m: int)
  {
    m in s && forall x :: x in s ==> m <= x
  }

  predicate IsMax(s: set<int>, m: int)
  {
    m in s && forall x :: x in s ==> x <= m
  }

  /** `num_labels = len(labels)` after `assert min(labels) == 0` and
      `assert max(labels) == num_labels - 1`; `min` of an empty set raises ValueError. */
  function NumLabels(labels: set<int>): (r: Result<nat>)
    ensures r.Ok? ==> r.value == |labels| > 0
    ensures r.Err? ==> r.error == ValueError || r.error == AssertionError
  {
    if labels == {} then Err(ValueError)
    else if !IsMin(labels, 0) then Err(AssertionError)
    else if !IsMax(labels, |labels| - 1) then Err(AssertionError)
    else Ok(|labels|)
  }

  /** The labels 0..n-1. */
  function Range(n: nat): (r: set<int>)
    ensures forall x :: x in r <==> 0 <= x < n
    ensures |r| == n
  {
    if n == 0 then {} else Range(n - 1) + {n - 1}
  }

  /** A subset as large as the whole set is the whole set. */
  lemma SubsetSameSize(a: set<int>, b: set<int>)
    requires a <= b && |a| == |b|
    ensures a == b
  {
    assert a * b == a && a + b == b && a - b == {};
    assert |b - a| == 0;
    assert b - a == {};
  }

  /** The check passes exactly when the labels are 0..n-1 for some n > 0. */
  lemma NumLabelsIff(labels: set<int>)
    ensures NumLabels(labels).Ok? <==> labels != {} && labels == Range(|labels|)
  {
    var n := |labels|;
    if NumLabels(labels).Ok? {
      assert labels <= Range(n);
      SubsetSameSize(labels, Range(n));
    }
    if labels != {} && labels == Range(n) {
      assert 0 in labels && n - 1 in labels;
    }
  }

  /** Once the contiguity check passes, every label of every graph is one of 0..n-1. */
  lemma LabelingsBelow(labelings: seq<seq<int>>)
    requires NumLabels(LabelSet(labelings)).Ok?
    ensures forall i :: 0 <= i < |labelings| ==> Below(labelings[i], NumLabels(LabelSet(labelings)).value)
  {
    var labels := LabelSet(labelings);
    NumLabelsIff(labels);
    forall i, v | 0 <= i < |labelings| && 0 <= v < |labelings[i]|
      ensures 0 <= labelings[i][v] < |labels|
    {
      InLabelSet(labelings, i, v);
    }
  }

  // ---------------------------------------------------------------------------------------
  // Per-label vectors

  predicate Below(keys: seq<int>, n: nat)
  {
    forall i :: 0 <= i < |keys| ==> 0 <= keys[i] < n
  }

  /** `np.zeros(n)`. */
  function Zeros(n: nat): (x: seq<real>)
    ensures |x| == n && forall i :: 0 <= i < n ==> x[i] == 0.0
  {
    seq(n, _ => 0.0)
  }

  function Ones(n: nat): (x: seq<real>)
    ensures |x| == n && forall i :: 0 <= i < n ==> x[i] == 1.0
  {
    seq(n, _ => 1.0)
  }

  /** `np.zeros(n)` followed by `x[keys[i]] += values[i]` for every i in order. */
  function Accumulate(keys: seq<int>, values: seq<real>, n: nat): (x: seq<real>)
    requires |keys| == |values| && Below(keys, n)
    ensures |x| == n
  {
    if keys == [] then Zeros(n)
    else
      var x := Accumulate(keys[..|keys| - 1], values[..|values| - 1], n);
      var k := keys[|keys| - 1];
      x[k := x[k] + values[|values| - 1]]
  }

  /** Entry l of an accumulation is the sum of the values filed under l. */
  function SumFor(keys: seq<int>, values: seq<real>, l: int): real
    requires |keys| == |values|
  {
    if keys == [] then 0.0
    else SumFor(keys[..|keys| - 1], values[..|values| - 1], l) + (if keys[|keys| - 1] == l then values[|values| - 1] else 0.0)
  }

  lemma {:induction false} AccumulateEntry(keys: seq<int>, values: seq<real>, n: nat, l: nat)
    requires |keys| == |values| && Below(keys, n) && l < n
    ensures Accumulate(keys, values, n)[l] == SumFor(keys, values, l)
  {
    if keys != [] {
      AccumulateEntry(keys[..|keys| - 1], values[..|values| - 1], n, l);
    }
  }

  /** Counting (every value 1) gives each label its multiplicity. */
  lemma {:induction false} CountEntry(keys: seq<int>, l: int)
    ensures SumFor(keys, Ones(|keys|), l) == multiset(keys)[l] as real
  {
    if keys != [] {
      var front := keys[..|keys| - 1];
      assert Ones(|keys|)[..|keys| - 1] == Ones(|front|);
      CountEntry(front, l);
      assert keys == front + [keys[|keys| - 1]];
    }
  }

  function SumReal(values: seq<real>): real
  {
    if values == [] then 0.0 else SumReal(values[..|values| - 1]) + values[|values| - 1]
  }

  /** Nothing is lost: the entries add up to the sum of the values. */
  lemma {:induction false} SumAccumulate(keys: seq<int>, values: seq<real>, n: nat)
    requires |keys| == |values| && Below(keys, n)
    ensures SumReal(Accumulate(keys, values, n)) == SumReal(values)
  {
    if keys == [] {
      SumZeros(n);
    } else {
      var x := Accumulate(keys[..|keys| - 1], values[..|values| - 1], n);
      SumAccumulate(keys[..|keys| - 1], values[..|values| - 1], n);
      var k := keys[|keys| - 1];
      SumUpdate(x, k, x[k] + values[|values| - 1]);
    }
  }

  lemma {:induction false} SumZeros(n: nat)
    ensures SumReal(Zeros(n)) == 0.0
  {
    if n > 0 {
      assert Zeros(n)[..n - 1] == Zeros(n - 1);
      SumZeros(n - 1);
    }
  }

  /** Replacing one entry changes the sum by the difference. */
  lemma {:induction false} SumUpdate(x: seq<real>, k: nat, v: real)
    requires k < |x|
    ensures SumReal(x[k := v]) == SumReal(x) - x[k] + v
  {
    var m := |x| - 1;
    if k < m {
      assert x[k := v][..m] == x[..m][k := v];
      SumUpdate(x[..m], k, v);
    } else {
      assert x[k := v][..m] == x[..m];
    }
  }

  lemma SumOnes(n: nat)
    ensures SumReal(Ones(n)) == n as real
  {
    if n > 0 {
      assert Ones(n)[..n - 1] == Ones(n - 1);
      SumOnes(n - 1);
    }
  }

  /** The accumulation over the first i + 1 entries is one more `x[keys[i]] += values[i]`. */
  lemma AccumulatePrefix(keys: seq<int>, values: seq<real>, n: nat, i: nat)
    requires |keys| == |values| && Below(keys, n) && i < |keys|
    ensures Below(keys[..i], n) && Below(keys[..i + 1], n)
    ensures var x := Accumulate(keys[..i], values[..i], n);
            Accumulate(keys[..i + 1], values[..i + 1], n) == x[keys[i] := x[keys[i]] + values[i]]
  {
    assert keys[..i + 1][..i] == keys[..i];
    assert values[..i + 1][..i] == values[..i];
  }

  /** Adds `value` to entry `key` of `x`: one `x[label] += value` of the source. */
  method AddAt(x: array<real>, key: int, value: real)
    requires 0 <= key < x.Length
    modifies x
    ensures x[..] == old(x[..])[key := old(x[key]) + value]
  {
    x[key] := x[key] + value;
  }

  /** One `x[keys[i]] += values[i]` on an array holding the accumulation of the first i
      entries leaves that of the first i + 1. */
  method AccumulateStep(x: array<real>, ghost keys: seq<int>, ghost values: seq<real>, ghost n: nat, ghost i: nat,
                        key: int, value: real)
    requires |keys| == |values| && Below(keys, n) && i < |keys| && key == keys[i] && value == values[i]
    requires Below(keys[..i], n) && x[..] == Accumulate(keys[..i], values[..i], n)
    modifies x
    ensures Below(keys[..i + 1], n) && x[..] == Accumulate(keys[..i + 1], values[..i + 1], n)
  {
    AccumulatePrefix(keys, values, n, i);
    AddAt(x, key, value);
  }

  // ---------------------------------------------------------------------------------------
  // Rows of a feature matrix

  /** `X[index, :] = row`. */
  method SetRow(X: array2<real>, index: nat, row: seq<real>)
    requires index < X.Length0 && |row| == X.Length1
    modifies X
    ensures forall j :: 0 <= j < X.Length1 ==> X[index, j] == row[j]
    ensures forall i, j :: 0 <= i < X.Length0 && i != index && 0 <= j < X.Length1 ==> X[i, j] == old(X[i, j])
  {
    var j := 0;
    while j < X.Length1
      invariant j <= X.Length1
      invariant forall c :: 0 <= c < j ==> X[index, c] == row[c]
      invariant forall i, c :: 0 <= i < X.Length0 && i != index && 0 <= c < X.Length1 ==> X[i, c] == old(X[i, c])
    {
      X[index, j] := row[j];
      j := j + 1;
    }
  }
}
