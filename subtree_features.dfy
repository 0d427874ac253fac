/**
  * The Weisfeiler–Lehman subtree features of src/features.py: the label histogram of every
  * graph of a collection (`get_subtree_feature_vectors`), and the selection of the columns
  * that belong to the first iterations (`FeatureSelector`).
  */
module SubtreeFeatures {
  import opened Wrappers
  import FM = FeatureMatrix

  // ---------------------------------------------------------------------------------------
  // get_subtree_feature_vectors

  /** The row of one graph: how often each label 0..n-1 occurs among its vertices. */
  function CountRow(labels: seq<int>, n: nat): (r: seq<real>)
    requires FM.Below(labels, n)
    ensures |r| == n
  {
    FM.Accumulate(labels, FM.Ones(|labels|), n)
  }

  /** Entry l of a row is the number of vertices labelled l. */
  lemma CountRowEntry(labels: seq<int>, n: nat, l: nat)
    requires FM.Below(labels, n) && l < n
    ensures CountRow(labels, n)[l] == multiset(labels)[l] as real
  {
    FM.AccumulateEntry(labels, FM.Ones(|labels|), n, l);
    FM.CountEntry(labels, l);
  }

  /** Every vertex is counted once: a row adds up to the number of vertices of its graph. */
  lemma CountRowSum(labels: seq<int>, n: nat)
    requires FM.Below(labels, n)
    ensures FM.SumReal(CountRow(labels, n)) == |labels| as real
  {
    FM.SumAccumulate(labels, FM.Ones(|labels|), n);
    FM.SumOnes(|labels|);
  }

  /** `x = np.zeros(num_columns)` followed by `x[label] += 1` for every vertex. */
  method CountLabels(labels: seq<int>, n: nat) returns (x: seq<real>)
    requires FM.Below(labels, n)
    ensures x == CountRow(labels, n)
  {
    ghost var values := FM.Ones(|labels|);
    var a := new real[n](_ => 0.0);
    assert a[..] == FM.Zeros(n);
    var i := 0;
    while i < |labels|
      invariant i <= |labels| && FM.Below(labels[..i], n)
      invariant a[..] == FM.Accumulate(labels[..i], values[..i], n)
    {
      FM.AccumulateStep(a, labels, values, n, i, labels[i], 1.0);
      i := i + 1;
    }
    assert labels[..i] == labels && values[..i] == values;
    x := a[..];
  }

  /** The rows of the graphs whose vertex labels are `labelings`, or the exception of the
      contiguity check on their labels. */
  function SubtreeRows(labelings: seq<seq<int>>): (r: Result<seq<seq<real>>>)
    ensures r.Ok? ==> |r.value| == |labelings|
  {
    var numLabels := FM.NumLabels(FM.LabelSet(labelings));
    if numLabels.Err? then Err(numLabels.error)
    else
      FM.LabelingsBelow(labelings);
      Ok(seq(|labelings|, i requires 0 <= i < |labelings| => CountRow(labelings[i], numLabels.value)))
  }

  /** The rows exist exactly when the labels of all graphs together are 0..n-1 for some
      n > 0; each row then has n entries. */
  lemma SubtreeRowsErrors(labelings: seq<seq<int>>)
    ensures var labels := FM.LabelSet(labelings);
            SubtreeRows(labelings).Ok? <==> labels != {} && labels == FM.Range(|labels|)
    ensures SubtreeRows(labelings).Ok? ==>
            forall i :: 0 <= i < |labelings| ==> |SubtreeRows(labelings).value[i]| == |FM.LabelSet(labelings)|
    ensures SubtreeRows(labelings).Err? ==> SubtreeRows(labelings).error in {ValueError, AssertionError}
  {
    FM.NumLabelsIff(FM.LabelSet(labelings));
  }

  /** Row i counts the vertices of graph i by label, and adds up to its number of vertices. */
  lemma SubtreeRowCounts(labelings: seq<seq<int>>, i: nat, l: nat)
    requires SubtreeRows(labelings).Ok? && i < |labelings|
    ensures var row := SubtreeRows(labelings).value[i];
            FM.SumReal(row) == |labelings[i]| as real && (l < |row| ==> row[l] == multiset(labelings[i])[l] as real)
  {
    var n := FM.NumLabels(FM.LabelSet(labelings)).value;
    FM.LabelingsBelow(labelings);
    assert SubtreeRows(labelings).value[i] == CountRow(labelings[i], n);
    CountRowSum(labelings[i], n);
    if l < n {
      CountRowEntry(labelings[i], n, l);
    }
  }

  /** `get_subtree_feature_vectors(graphs)`, the graphs given by their vertex labels: one row
      per graph, one column per label. */
  method GetSubtreeFeatureVectors(labelings: seq<seq<int>>) returns (r: Result<array2<real>>)
    ensures SubtreeRows(labelings).Err? ==> r == Err(SubtreeRows(labelings).error)
    ensures SubtreeRows(labelings).Ok? ==>
      r.Ok? && fresh(r.value) && r.value.Length0 == |labelings| &&
      r.value.Length1 == FM.NumLabels(FM.LabelSet(labelings)).value &&
      forall i, j :: 0 <= i < r.value.Length0 && 0 <= j < r.value.Length1 ==>
        r.value[i, j] == SubtreeRows(labelings).value[i][j]
  {
    var labels := FM.CollectLabels(labelings);
    var numLabels := FM.NumLabels(labels);
    if numLabels.Err? {
      return Err(numLabels.error);
    }
    var n := numLabels.value;
    FM.LabelingsBelow(labelings);
    ghost var rows := SubtreeRows(labelings).value;
    var X := new real[|labelings|, n]((_, _) => 0.0);
    var index := 0;
    while index < |labelings|
      invariant index <= |labelings|
      invariant forall i, j :: 0 <= i < index && 0 <= j < n ==> X[i, j] == rows[i][j]
    {
      var x := CountLabels(labelings[index], n);
      FM.SetRow(X, index, x);
      index := index + 1;
    }
    return Ok(X);
  }

  // ---------------------------------------------------------------------------------------
  // FeatureSelector

  /** `sum(num_columns_per_iteration[i] for i in range(0, k + 1))`, or the KeyError of the
      first iteration without an entry. */
  function ColumnsThrough(widths: map<int, nat>, k: int): (r: Result<nat>)
    ensures r.Err? ==> r.error == KeyError
    decreases if k < 0 then 0 else k + 1
  {
    if k < 0 then Ok(0)
    else
      var before := ColumnsThrough(widths, k - 1);
      if before.Err? then before
      else if k !in widths then Err(KeyError)
      else Ok(before.value + widths[k])
  }

  /** The count exists exactly when every iteration 0..k has an entry. */
  lemma {:induction false} ColumnsThroughDefined(widths: map<int, nat>, k: int)
    ensures ColumnsThrough(widths, k).Ok? <==> forall i :: 0 <= i <= k ==> i in widths
    decreases if k < 0 then 0 else k + 1
  {
    if k >= 0 {
      ColumnsThroughDefined(widths, k - 1);
    }
  }

  /** More iterations keep at least as many columns, so the selection for fewer iterations
      is a prefix of that for more. */
  lemma {:induction false} ColumnsThroughMonotone(widths: map<int, nat>, j: int, k: int)
    requires j <= k && ColumnsThrough(widths, k).Ok?
    ensures ColumnsThrough(widths, j).Ok? && ColumnsThrough(widths, j).value <= ColumnsThrough(widths, k).value
    decreases k - j
  {
    if j < k {
      ColumnsThroughMonotone(widths, j, k - 1);
    }
  }

  function Min(a: nat, b: nat): nat
  {
    if a <= b then a else b
  }

  /** `sklearn`-style selector of the columns of the first `num_iterations` + 1 iterations. */
  class FeatureSelector {
    /** `_num_columns_per_iteration`: the number of columns each iteration contributed. */
    const numColumnsPerIteration: map<int, nat>
    /** `num_iterations`: unset until `set_params` provides it. */
    var numIterations: Option<int>

    constructor (numColumnsPerIteration: map<int, nat>)
      ensures this.numColumnsPerIteration == numColumnsPerIteration && numIterations == None
    {
      this.numColumnsPerIteration := numColumnsPerIteration;
      numIterations := None;
    }

    /** `set_params(num_iterations=k)`. */
    method SetNumIterations(k: int)
      modifies this
      ensures numIterations == Some(k)
    {
      numIterations := Some(k);
    }

    /** The loop of `fit_transform` that adds up the widths of iterations 0..k. */
    method LastColumn(k: int) returns (r: Result<nat>)
      ensures r == ColumnsThrough(numColumnsPerIteration, k)
    {
      var lastColumn := 0;
      var iteration := 0;
      while iteration <= k
        invariant 0 <= iteration && (if k >= 0 then iteration <= k + 1 else iteration == 0)
        invariant ColumnsThrough(numColumnsPerIteration, iteration - 1) == Ok(lastColumn)
      {
        if iteration !in numColumnsPerIteration {
          ColumnsThroughDefined(numColumnsPerIteration, k);
          return Err(KeyError);
        }
        lastColumn := lastColumn + numColumnsPerIteration[iteration];
        iteration := iteration + 1;
      }
      return Ok(lastColumn);
    }

    /** `X[:, :last_column]`, as a copy: slicing past the last column keeps all columns. */
    static method TakeColumns(X: array2<real>, count: nat) returns (Y: array2<real>)
      ensures fresh(Y) && Y.Length0 == X.Length0 && Y.Length1 == Min(count, X.Length1)
      ensures forall i, j :: 0 <= i < Y.Length0 && 0 <= j < Y.Length1 ==> Y[i, j] == X[i, j]
    {
      Y := new real[X.Length0, Min(count, X.Length1)];
      forall i, j | 0 <= i < Y.Length0 && 0 <= j < Y.Length1 {
        Y[i, j] := X[i, j];
      }
    }

    /** `fit_transform(X)`: the columns of iterations 0..num_iterations; AttributeError while
        `num_iterations` is unset, KeyError for an iteration without a column count. */
    method FitTransform(X: array2<real>) returns (r: Result<array2<real>>)
      ensures numIterations.None? ==> r == Err(AttributeError)
      ensures numIterations.Some? ==>
        var count := ColumnsThrough(numColumnsPerIteration, numIterations.value);
        (r.Err? <==> count.Err?) && (r.Err? ==> r.error == KeyError) &&
        (r.Ok? ==> fresh(r.value) && r.value.Length0 == X.Length0 && r.value.Length1 == Min(count.value, X.Length1) &&
                   forall i, j :: 0 <= i < r.value.Length0 && 0 <= j < r.value.Length1 ==> r.value[i, j] == X[i, j])
    {
      if numIterations.None? {
        return Err(AttributeError);
      }
      var lastColumn := LastColumn(numIterations.value);
      if lastColumn.Err? {
        return Err(lastColumn.error);
      }
      var Y := TakeColumns(X, lastColumn.value);
      return Ok(Y);
    }
  }
}
