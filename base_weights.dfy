/**
  * `WeightAssigner` of features.py: every edge's weight is overwritten with the distance
  * between the secondary labels of its endpoints, plus the 0/1 mismatch of their primary
  * labels, plus `base_weight`.
  *
  * 'angular' and 'minkowski' (square roots and arccos) are not modelled: a parameter
  * `numeric` gives their value.
  */
module BaseWeights {
  import opened Wrappers
  import opened WeightAssignment
  import D = Distances
  import LV = LabelVectors

  datatype Metric = Angular | Canberra | Hamming | Jaccard | Minkowski | Sorensen

  /** The key of `metric_map` that selects a metric. */
  function Name(m: Metric): string
  {
    match m
    case Angular => "angular"
    case Canberra => "canberra"
    case Hamming => "hamming"
    case Jaccard => "jaccard"
    case Minkowski => "minkowski"
    case Sorensen => "sorensen"
  }

  /** `metric_map[metric]`: the lookup of a metric by name. */
  function Lookup(name: string): (r: Option<Metric>)
    ensures r.Some? ==> Name(r.value) == name
    ensures r.None? ==> forall m: Metric :: Name(m) != name
  {
    if name == "angular" then Some(Angular)
    else if name == "canberra" then Some(Canberra)
    else if name == "hamming" then Some(Hamming)
    else if name == "jaccard" then Some(Jaccard)
    else if name == "minkowski" then Some(Minkowski)
    else if name == "sorensen" then Some(Sorensen)
    else None
  }

  /** Every metric is found under its own name. */
  lemma LookupName(m: Metric)
    ensures Lookup(Name(m)) == Some(m)
  {
  }

  /** The distance of two lists of secondary labels under a metric. */
  function Distance(m: Metric, numeric: (Metric, seq<string>, seq<string>) -> real, A: seq<string>, B: seq<string>): real
  {
    match m
    case Canberra => D.Canberra(A, B)
    case Hamming => D.Hamming(A, B)
    case Jaccard => D.JaccardAsWritten(A, B)
    case Sorensen => D.Sorensen(A, B)
    case _ => numeric(m, A, B)
  }

  /** Hamming and Sorensen lie in [0, 1], Canberra in [0, number of distinct labels], and
      all three vanish exactly on equal multisets and are symmetric. `_jaccard` as written
      shares the properties of Hamming and Sorensen only on lists without repeated labels
      (JaccardWeightBelowBase, JaccardWeightIsBase). */
  lemma DistanceProperties(m: Metric, numeric: (Metric, seq<string>, seq<string>) -> real, A: seq<string>, B: seq<string>)
    requires m in {Canberra, Hamming, Jaccard, Sorensen}
    requires m == Jaccard ==> LV.NoDuplicates(A) && LV.NoDuplicates(B)
    ensures 0.0 <= Distance(m, numeric, A, B)
    ensures m != Canberra ==> Distance(m, numeric, A, B) <= 1.0
    ensures m == Canberra ==> Distance(m, numeric, A, B) <= |LV.Distinct(A + B)| as real
    ensures Distance(m, numeric, A, B) == 0.0 <==> multiset(A) == multiset(B)
    ensures Distance(m, numeric, A, B) == Distance(m, numeric, B, A)
  {
    match m
    case Canberra => D.CanberraProperties(A, B);
    case Hamming => D.HammingProperties(A, B);
    case Jaccard =>
      D.JaccardAsWrittenOnSets(A, B);
      D.JaccardAsWrittenOnSets(B, A);
      D.JaccardProperties(A, B);
    case Sorensen => D.SorensenProperties(A, B);
  }

  /** Every modelled distance, `_jaccard` as written included, is symmetric. */
  lemma DistanceSymmetric(m: Metric, numeric: (Metric, seq<string>, seq<string>) -> real, A: seq<string>, B: seq<string>)
    requires m in {Canberra, Hamming, Jaccard, Sorensen}
    ensures Distance(m, numeric, A, B) == Distance(m, numeric, B, A)
  {
    match m
    case Canberra => D.CanberraProperties(A, B);
    case Hamming => D.HammingSymmetric(A, B);
    case Jaccard => D.JaccardAsWrittenSymmetric(A, B);
    case Sorensen => D.SorensenProperties(A, B);
  }

  datatype WeightAssigner = WeightAssigner(ignoreLabelOrder: bool, metric: Metric, baseWeight: real)
  {
    /** The weight of an edge between vertices labelled `source` and `target`; a vertex
        whose label is an empty list raises IndexError, the source vertex first. */
    function Weight(numeric: (Metric, seq<string>, seq<string>) -> real, source: VertexLabel, target: VertexLabel): Result<real>
    {
      var s := Split(source);
      var t := Split(target);
      if s.Err? then Err(s.error)
      else if t.Err? then Err(t.error)
      else Ok(Distance(metric, numeric, s.value.1, t.value.1) + Mismatch(s.value.0, t.value.0) + baseWeight)
    }

    /** The assigner's weight as a function of an edge's two end labels. */
    function WeightOf(numeric: (Metric, seq<string>, seq<string>) -> real): (VertexLabel, VertexLabel) -> Result<real>
    {
      (source, target) => Weight(numeric, source, target)
    }

    /** `fit_transform(graph)`: walks the edges in order and overwrites each one's weight, so
        the new weights depend on the labels alone and a second call changes nothing. When an
        edge's weight raises IndexError, the edges before it have been updated and the others
        keep their weights. */
    method FitTransform(numeric: (Metric, seq<string>, seq<string>) -> real, g: LabelledGraph, weights: array<real>)
      returns (r: Result<()>)
      requires g.Valid() && weights.Length == |g.edges|
      modifies weights
      ensures var results := EdgeResults(WeightOf(numeric), g, |g.edges|); var k := OkPrefix(results);
        (r.Ok? <==> k == |g.edges|) && (r.Err? ==> r.error == IndexError) &&
        (forall e :: 0 <= e < k ==> weights[e] == results[e].value) &&
        (forall e :: k <= e < weights.Length ==> weights[e] == old(weights[e]))
    {
      r := AssignWeights(WeightOf(numeric), false, g, weights);
    }
  }

  /** `WeightAssigner(ignore_label_order, metric, base_weight)`: an unknown metric name raises
      RuntimeError. */
  function New(ignoreLabelOrder: bool, metric: string, baseWeight: real): (r: Result<WeightAssigner>)
    ensures r.Ok? <==> metric in {"angular", "canberra", "hamming", "jaccard", "minkowski", "sorensen"}
    ensures r.Ok? ==> Name(r.value.metric) == metric && r.value.baseWeight == baseWeight
    ensures r.Err? ==> r.error.RuntimeError?
  {
    match Lookup(metric)
    case Some(m) => Ok(WeightAssigner(ignoreLabelOrder, m, baseWeight))
    case None => Err(RuntimeError("Unknown metric \"" + metric + "\" requested"))
  }

  /** The default assigner uses the Hamming metric with base weight 1.0. */
  lemma DefaultAssigner()
    ensures New(false, "hamming", 1.0) == Ok(WeightAssigner(false, Hamming, 1.0))
  {
  }

  /** Under the Hamming, Sorensen and Jaccard metrics every weight lies in
      [base_weight, base_weight + 2]; under Canberra the distance adds at most one per distinct
      secondary label. For Jaccard this needs secondary labels without repetitions. */
  lemma WeightBounds(a: WeightAssigner, numeric: (Metric, seq<string>, seq<string>) -> real, source: VertexLabel, target: VertexLabel)
    requires a.metric in {Canberra, Hamming, Jaccard, Sorensen} && Split(source).Ok? && Split(target).Ok?
    requires a.metric == Jaccard ==> LV.NoDuplicates(Split(source).value.1) && LV.NoDuplicates(Split(target).value.1)
    ensures var w := a.Weight(numeric, source, target).value;
      a.baseWeight <= w &&
      (a.metric != Canberra ==> w <= a.baseWeight + 2.0) &&
      (a.metric == Canberra ==> w <= a.baseWeight + 1.0 + |LV.Distinct(Split(source).value.1 + Split(target).value.1)| as real)
  {
    DistanceProperties(a.metric, numeric, Split(source).value.1, Split(target).value.1);
  }

  /** Under the modelled metrics an edge weighs exactly `base_weight` if and only if its ends
      have the same primary label and the same secondary labels, counted with multiplicity.
      For Jaccard this needs secondary labels without repetitions. */
  lemma WeightIsBaseIff(a: WeightAssigner, numeric: (Metric, seq<string>, seq<string>) -> real, source: VertexLabel, target: VertexLabel)
    requires a.metric in {Canberra, Hamming, Jaccard, Sorensen} && Split(source).Ok? && Split(target).Ok?
    requires a.metric == Jaccard ==> LV.NoDuplicates(Split(source).value.1) && LV.NoDuplicates(Split(target).value.1)
    ensures var (s, A) := Split(source).value; var (t, B) := Split(target).value;
      a.Weight(numeric, source, target).value == a.baseWeight <==> s == t && multiset(A) == multiset(B)
  {
    DistanceProperties(a.metric, numeric, Split(source).value.1, Split(target).value.1);
  }

  /** Swapping the ends of an edge does not change its weight under a modelled metric. */
  lemma WeightSymmetric(a: WeightAssigner, numeric: (Metric, seq<string>, seq<string>) -> real, source: VertexLabel, target: VertexLabel)
    requires a.metric in {Canberra, Hamming, Jaccard, Sorensen}
    ensures a.Weight(numeric, source, target).Ok? <==> a.Weight(numeric, target, source).Ok?
    ensures a.Weight(numeric, source, target).Ok? ==>
      a.Weight(numeric, source, target).value == a.Weight(numeric, target, source).value
  {
    if Split(source).Ok? && Split(target).Ok? {
      DistanceSymmetric(a.metric, numeric, Split(source).value.1, Split(target).value.1);
    }
  }

  /** With repeated secondary labels the 'jaccard' weight drops below `base_weight`: the
      vertices labelled [p, x, x, x] and [p, x, x] are joined by an edge of weight
      base_weight - 1. */
  lemma JaccardWeightBelowBase(a: WeightAssigner, numeric: (Metric, seq<string>, seq<string>) -> real)
    requires a.metric == Jaccard
    ensures a.Weight(numeric, Items(["p"] + ["x", "x", "x"]), Items(["p"] + ["x", "x"])) == Ok(a.baseWeight - 1.0)
  {
    D.JaccardAsWrittenNegative();
    JaccardWeightSameHead(a, numeric, "p", ["x", "x", "x"], ["x", "x"]);
    assert D.JaccardAsWritten(["x", "x", "x"], ["x", "x"]) + a.baseWeight == a.baseWeight - 1.0;
  }

  /** With repeated secondary labels the 'jaccard' weight can be exactly `base_weight` for
      ends whose secondary labels differ: [p, x, x, y] against [p, x, x, x]. */
  lemma JaccardWeightIsBase(a: WeightAssigner, numeric: (Metric, seq<string>, seq<string>) -> real)
    requires a.metric == Jaccard
    ensures multiset(["x", "x", "y"]) != multiset(["x", "x", "x"])
    ensures a.Weight(numeric, Items(["p"] + ["x", "x", "y"]), Items(["p"] + ["x", "x", "x"])) == Ok(a.baseWeight)
  {
    D.JaccardAsWrittenZero();
    JaccardWeightSameHead(a, numeric, "p", ["x", "x", "y"], ["x", "x", "x"]);
    assert D.JaccardAsWritten(["x", "x", "y"], ["x", "x", "x"]) + a.baseWeight == a.baseWeight;
  }

  /** Ends with the same primary label weigh `base_weight` plus `_jaccard` of their
      secondary labels. */
  lemma JaccardWeightSameHead(a: WeightAssigner, numeric: (Metric, seq<string>, seq<string>) -> real, s: string, A: seq<string>, B: seq<string>)
    requires a.metric == Jaccard
    ensures a.Weight(numeric, Items([s] + A), Items([s] + B)) == Ok(D.JaccardAsWritten(A, B) + a.baseWeight)
  {
    DistanceJaccard(numeric, A, B);
    WeightSameHead(a, numeric, s, A, B, D.JaccardAsWritten(A, B));
  }

  /** The 'jaccard' metric is `_jaccard` as written. */
  lemma DistanceJaccard(numeric: (Metric, seq<string>, seq<string>) -> real, A: seq<string>, B: seq<string>)
    ensures Distance(Jaccard, numeric, A, B) == D.JaccardAsWritten(A, B)
  {
  }

  /** Ends with the same primary label weigh `base_weight` plus the distance d of their
      secondary labels. */
  lemma WeightSameHead(a: WeightAssigner, numeric: (Metric, seq<string>, seq<string>) -> real, s: string, A: seq<string>, B: seq<string>, d: real)
    requires Distance(a.metric, numeric, A, B) == d
    ensures a.Weight(numeric, Items([s] + A), Items([s] + B)) == Ok(d + a.baseWeight)
  {
    assert ([s] + A)[1..] == A && ([s] + B)[1..] == B;
    assert Split(Items([s] + A)) == Ok((s, A)) && Split(Items([s] + B)) == Ok((s, B));
    assert Mismatch(s, s) == 0.0;
    assert a.Weight(numeric, Items([s] + A), Items([s] + B)) == Ok(d + Mismatch(s, s) + a.baseWeight);
  }

  /** With single (non-list) labels an edge weighs `base_weight` plus the mismatch of its
      ends' labels under every modelled metric. */
  lemma ScalarLabelsWeight(a: WeightAssigner, numeric: (Metric, seq<string>, seq<string>) -> real, x: string, y: string)
    requires a.metric in {Canberra, Hamming, Jaccard, Sorensen}
    ensures a.Weight(numeric, Scalar(x), Scalar(y)) == Ok(Mismatch(x, y) + a.baseWeight)
  {
    SplitScalar(x);
    SplitScalar(y);
    DistanceProperties(a.metric, numeric, [], []);
  }
}
