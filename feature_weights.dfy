/**
  * `WeightAssigner` of src/features.py: every edge gets the distance between the secondary
  * labels of its endpoints, plus the 0/1 mismatch of their primary labels, plus `tau`;
  * with `smooth` the weight is added to the edge's current weight instead of replacing it.
  *
  * The metrics built from square roots, arccos and logarithms ('angular', 'minkowski',
  * 'kullback_leibler', 'jensen_shannon') are not modelled: a parameter `numeric` gives
  * their value.
  */
module FeatureWeights {
  import opened Wrappers
  import opened WeightAssignment
  import D = Distances
  import LV = LabelVectors

  datatype Metric = Angular | Canberra | Jaccard | JensenShannon | KullbackLeibler | Minkowski | Uniform | Sorensen

  /** The key of `metric_map` that selects a metric. */
  function Name(m: Metric): string
  {
    match m
    case Angular => "angular"
    case Canberra => "canberra"
    case Jaccard => "jaccard"
    case JensenShannon => "jensen_shannon"
    case KullbackLeibler => "kullback_leibler"
    case Minkowski => "minkowski"
    case Uniform => "uniform"
    case Sorensen => "sorensen"
  }

  /** The metrics this model computes itself. */
  predicate Modelled(m: Metric)
  {
    m == Canberra || m == Jaccard || m == Sorensen || m == Uniform
  }

  /** `metric_map[metric]`: the lookup of a metric by name. */
  function Lookup(name: string): (r: Option<Metric>)
    ensures r.Some? ==> Name(r.value) == name
    ensures r.None? ==> forall m: Metric :: Name(m) != name
  {
    if name == "angular" then Some(Angular)
    else if name == "canberra" then Some(Canberra)
    else if name == "jaccard" then Some(Jaccard)
    else if name == "jensen_shannon" then Some(JensenShannon)
    else if name == "kullback_leibler" then Some(KullbackLeibler)
    else if name == "minkowski" then Some(Minkowski)
    else if name == "uniform" then Some(Uniform)
    else if name == "sorensen" then Some(Sorensen)
    else None
  }

  /** Every metric is found under its own name. */
  lemma LookupName(m: Metric)
    ensures Lookup(Name(m)) == Some(m)
  {
  }

  /** The distance of two lists of secondary labels under a metric. */
  function Distance(m: Metric, numeric: (Metric, seq<string>, seq<string>) -> real, A: seq<string>, B: seq<string>): real
  {
    match m
    case Canberra => D.Canberra(A, B)
    case Jaccard => D.JaccardAsWritten(A, B)
    case Sorensen => D.Sorensen(A, B)
    case Uniform => D.Uniform(A, B)
    case _ => numeric(m, A, B)
  }

  datatype WeightAssigner = WeightAssigner(metric: Metric, p: real, tau: real, smooth: bool)
  {
    /** The weight of an edge between vertices labelled `source` and `target`; a vertex
        whose label is an empty list raises IndexError, the source vertex first. */
    function Weight(numeric: (Metric, seq<string>, seq<string>) -> real, source: VertexLabel, target: VertexLabel): Result<real>
    {
      var s := Split(source);
      var t := Split(target);
      if s.Err? then Err(s.error)
      else if t.Err? then Err(t.error)
      else
        var w := Distance(metric, numeric, s.value.1, t.value.1);
        if metric != Uniform then Ok(w + Mismatch(s.value.0, t.value.0) + tau) else Ok(w)
    }

    /** The assigner's weight as a function of an edge's two end labels. */
    function WeightOf(numeric: (Metric, seq<string>, seq<string>) -> real): (VertexLabel, VertexLabel) -> Result<real>
    {
      (source, target) => Weight(numeric, source, target)
    }

    /** `fit_transform(graph)`: walks the edges in order and assigns each its weight, added
        to the current one in smooth mode. When an edge's weight raises IndexError, the
        edges before it have been updated and the others keep their weights. */
    method FitTransform(numeric: (Metric, seq<string>, seq<string>) -> real, g: LabelledGraph, weights: array<real>)
      returns (r: Result<()>)
      requires g.Valid() && weights.Length == |g.edges|
      modifies weights
      ensures var results := EdgeResults(WeightOf(numeric), g, |g.edges|); var k := OkPrefix(results);
        (r.Ok? <==> k == |g.edges|) && (r.Err? ==> r.error == IndexError) &&
        (forall e :: 0 <= e < k ==> weights[e] == Assigned(smooth, old(weights[e]), results[e].value)) &&
        (forall e :: k <= e < weights.Length ==> weights[e] == old(weights[e]))
    {
      r := AssignWeights(WeightOf(numeric), smooth, g, weights);
    }
  }

  /** `WeightAssigner(metric, p, tau, smooth)`: an unknown metric name raises RuntimeError. */
  function New(metric: string, p: real, tau: real, smooth: bool): (r: Result<WeightAssigner>)
    ensures r.Ok? <==> metric in {"angular", "canberra", "jaccard", "jensen_shannon", "kullback_leibler", "minkowski", "uniform", "sorensen"}
    ensures r.Ok? ==> Name(r.value.metric) == metric && r.value.p == p && r.value.tau == tau && r.value.smooth == smooth
    ensures r.Err? ==> r.error.RuntimeError?
  {
    match Lookup(metric)
    case Some(m) => Ok(WeightAssigner(m, p, tau, smooth))
    case None => Err(RuntimeError("Unknown metric \"" + metric + "\" requested"))
  }

  /** With the uniform metric every edge between list-labelled vertices weighs exactly 1.0,
      whatever the labels and `tau`. */
  lemma UniformWeight(a: WeightAssigner, numeric: (Metric, seq<string>, seq<string>) -> real, source: VertexLabel, target: VertexLabel)
    requires a.metric == Uniform && EnsureList(source) != [] && EnsureList(target) != []
    ensures a.Weight(numeric, source, target) == Ok(1.0)
  {
  }

  /** What the Sorensen, Canberra and (on lists without repeated labels) Jaccard distances
      share: they are non-negative, vanish exactly on equal multisets and do not depend on
      the order of their arguments. `_jaccard` as written has these properties only on such
      lists (JaccardWeightBelowTau, JaccardWeightIsTau). */
  lemma DistanceProperties(m: Metric, numeric: (Metric, seq<string>, seq<string>) -> real, A: seq<string>, B: seq<string>)
    requires m in {Canberra, Jaccard, Sorensen}
    requires m == Jaccard ==> LV.NoDuplicates(A) && LV.NoDuplicates(B)
    ensures 0.0 <= Distance(m, numeric, A, B)
    ensures m != Canberra ==> Distance(m, numeric, A, B) <= 1.0
    ensures m == Canberra ==> Distance(m, numeric, A, B) <= |LV.Distinct(A + B)| as real
    ensures Distance(m, numeric, A, B) == 0.0 <==> multiset(A) == multiset(B)
    ensures Distance(m, numeric, A, B) == Distance(m, numeric, B, A)
  {
    match m
    case Canberra => D.CanberraProperties(A, B);
    case Jaccard =>
      D.JaccardAsWrittenOnSets(A, B);
      D.JaccardAsWrittenOnSets(B, A);
      D.JaccardProperties(A, B);
    case Sorensen => D.SorensenProperties(A, B);
  }

  /** Every modelled distance, `_jaccard` as written included, is symmetric. */
  lemma DistanceSymmetric(m: Metric, numeric: (Metric, seq<string>, seq<string>) -> real, A: seq<string>, B: seq<string>)
    requires Modelled(m)
    ensures Distance(m, numeric, A, B) == Distance(m, numeric, B, A)
  {
    match m
    case Canberra => D.CanberraProperties(A, B);
    case Jaccard => D.JaccardAsWrittenSymmetric(A, B);
    case Sorensen => D.SorensenProperties(A, B);
    case Uniform =>
  }

  /** For the other modelled metrics the weight is at least `tau`; the Sorensen and Jaccard
      distances add at most 1 and the mismatch at most 1 more, while Canberra adds at most one
      per distinct secondary label. For Jaccard this needs secondary labels without
      repetitions. */
  lemma WeightBounds(a: WeightAssigner, numeric: (Metric, seq<string>, seq<string>) -> real, source: VertexLabel, target: VertexLabel)
    requires a.metric in {Canberra, Jaccard, Sorensen} && Split(source).Ok? && Split(target).Ok?
    requires a.metric == Jaccard ==> LV.NoDuplicates(Split(source).value.1) && LV.NoDuplicates(Split(target).value.1)
    ensures var w := a.Weight(numeric, source, target).value;
      a.tau <= w &&
      (a.metric != Canberra ==> w <= a.tau + 2.0) &&
      (a.metric == Canberra ==> w <= a.tau + 1.0 + |LV.Distinct(Split(source).value.1 + Split(target).value.1)| as real)
  {
    DistanceProperties(a.metric, numeric, Split(source).value.1, Split(target).value.1);
  }

  /** For the other modelled metrics an edge weighs exactly `tau` if and only if its ends have
      the same primary label and the same secondary labels, counted with multiplicity. For
      Jaccard this needs secondary labels without repetitions. */
  lemma WeightIsTauIff(a: WeightAssigner, numeric: (Metric, seq<string>, seq<string>) -> real, source: VertexLabel, target: VertexLabel)
    requires a.metric in {Canberra, Jaccard, Sorensen} && Split(source).Ok? && Split(target).Ok?
    requires a.metric == Jaccard ==> LV.NoDuplicates(Split(source).value.1) && LV.NoDuplicates(Split(target).value.1)
    ensures var (s, A) := Split(source).value; var (t, B) := Split(target).value;
      a.Weight(numeric, source, target).value == a.tau <==> s == t && multiset(A) == multiset(B)
  {
    DistanceProperties(a.metric, numeric, Split(source).value.1, Split(target).value.1);
  }

  /** With repeated secondary labels the 'jaccard' weight drops below `tau`: the vertices
      labelled [p, x, x, x] and [p, x, x] are joined by an edge of weight tau - 1. */
  lemma JaccardWeightBelowTau(a: WeightAssigner, numeric: (Metric, seq<string>, seq<string>) -> real)
    requires a.metric == Jaccard
    ensures a.Weight(numeric, Items(["p"] + ["x", "x", "x"]), Items(["p"] + ["x", "x"])) == Ok(a.tau - 1.0)
  {
    D.JaccardAsWrittenNegative();
    JaccardWeightSameHead(a, numeric, "p", ["x", "x", "x"], ["x", "x"]);
    assert D.JaccardAsWritten(["x", "x", "x"], ["x", "x"]) + a.tau == a.tau - 1.0;
  }

  /** With repeated secondary labels the 'jaccard' weight can be exactly `tau` for ends whose
      secondary labels differ: [p, x, x, y] against [p, x, x, x]. */
  lemma JaccardWeightIsTau(a: WeightAssigner, numeric: (Metric, seq<string>, seq<string>) -> real)
    requires a.metric == Jaccard
    ensures multiset(["x", "x", "y"]) != multiset(["x", "x", "x"])
    ensures a.Weight(numeric, Items(["p"] + ["x", "x", "y"]), Items(["p"] + ["x", "x", "x"])) == Ok(a.tau)
  {
    D.JaccardAsWrittenZero();
    JaccardWeightSameHead(a, numeric, "p", ["x", "x", "y"], ["x", "x", "x"]);
    assert D.JaccardAsWritten(["x", "x", "y"], ["x", "x", "x"]) + a.tau == a.tau;
  }

  /** Ends with the same primary label weigh `tau` plus `_jaccard` of their secondary labels. */
  lemma JaccardWeightSameHead(a: WeightAssigner, numeric: (Metric, seq<string>, seq<string>) -> real, s: string, A: seq<string>, B: seq<string>)
    requires a.metric == Jaccard
    ensures a.Weight(numeric, Items([s] + A), Items([s] + B)) == Ok(D.JaccardAsWritten(A, B) + a.tau)
  {
    DistanceJaccard(numeric, A, B);
    WeightSameHead(a, numeric, s, A, B, D.JaccardAsWritten(A, B));
  }

  /** The 'jaccard' metric is `_jaccard` as written. */
  lemma DistanceJaccard(numeric: (Metric, seq<string>, seq<string>) -> real, A: seq<string>, B: seq<string>)
    ensures Distance(Jaccard, numeric, A, B) == D.JaccardAsWritten(A, B)
  {
  }

  /** Ends with the same primary label weigh `tau` plus the distance d of their
      secondary labels. */
  lemma WeightSameHead(a: WeightAssigner, numeric: (Metric, seq<string>, seq<string>) -> real, s: string, A: seq<string>, B: seq<string>, d: real)
    requires a.metric != Uniform && Distance(a.metric, numeric, A, B) == d
    ensures a.Weight(numeric, Items([s] + A), Items([s] + B)) == Ok(d + a.tau)
  {
    assert ([s] + A)[1..] == A && ([s] + B)[1..] == B;
    assert Split(Items([s] + A)) == Ok((s, A)) && Split(Items([s] + B)) == Ok((s, B));
    assert Mismatch(s, s) == 0.0;
    assert a.Weight(numeric, Items([s] + A), Items([s] + B)) == Ok(d + Mismatch(s, s) + a.tau);
  }

  /** Swapping the ends of an edge does not change its weight under a modelled metric. */
  lemma WeightSymmetric(a: WeightAssigner, numeric: (Metric, seq<string>, seq<string>) -> real, source: VertexLabel, target: VertexLabel)
    requires Modelled(a.metric)
    ensures a.Weight(numeric, source, target).Ok? <==> a.Weight(numeric, target, source).Ok?
    ensures a.Weight(numeric, source, target).Ok? ==>
      a.Weight(numeric, source, target).value == a.Weight(numeric, target, source).value
  {
    if Split(source).Ok? && Split(target).Ok? && a.metric != Uniform {
      DistanceSymmetric(a.metric, numeric, Split(source).value.1, Split(target).value.1);
    }
  }

  /** A graph with single (non-list) labels has no secondary labels, so under the Sorensen,
      Jaccard or Canberra metric an edge weighs `tau` plus the mismatch of its ends' labels. */
  lemma ScalarLabelsWeight(a: WeightAssigner, numeric: (Metric, seq<string>, seq<string>) -> real, x: string, y: string)
    requires a.metric in {Canberra, Jaccard, Sorensen}
    ensures a.Weight(numeric, Scalar(x), Scalar(y)) == Ok(Mismatch(x, y) + a.tau)
  {
    SplitScalar(x);
    SplitScalar(y);
    DistanceProperties(a.metric, numeric, [], []);
  }
}
