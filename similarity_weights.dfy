/**
  * `WeightAssigner` of weight_assigner.py: every edge's weight is overwritten with the
  * Hamming distance between the secondary labels of its endpoints plus the 0/1 mismatch of
  * their primary labels. 'jaccard' is accepted by the constructor, but the method it selects
  * is declared without `self`, so calling it raises TypeError.
  */
module SimilarityWeights {
  import opened Wrappers
  import opened WeightAssignment
  import D = Distances

  datatype Similarity = Hamming | Jaccard

  datatype WeightAssigner = WeightAssigner(ignoreLabelOrder: bool, similarity: Similarity)
  {
    /** The weight of an edge between vertices labelled `source` and `target`. An empty label
        list raises IndexError (the source vertex first); the 'jaccard' measure raises
        TypeError once both labels have been split. */
    function Weight(source: VertexLabel, target: VertexLabel): (r: Result<real>)
    {
      var s := Split(source);
      var t := Split(target);
      if s.Err? then Err(s.error)
      else if t.Err? then Err(t.error)
      else if similarity == Jaccard then Err(TypeError)
      else Ok(D.Hamming(s.value.1, t.value.1) + Mismatch(s.value.0, t.value.0))
    }

    /** The assigner's weight as a function of an edge's two end labels. */
    function WeightOf(): (VertexLabel, VertexLabel) -> Result<real>
    {
      (source, target) => Weight(source, target)
    }

    /** `fit_transform(graph)`: walks the edges in order and overwrites each one's weight, so
        the new weights depend on the labels alone and a second call changes nothing. When an
        edge's weight raises, the edges before it have been updated, the others keep their
        weights, and the exception is the one that edge raised. */
    method FitTransform(g: LabelledGraph, weights: array<real>) returns (r: Result<()>)
      requires g.Valid() && weights.Length == |g.edges|
      modifies weights
      ensures var results := EdgeResults(WeightOf(), g, |g.edges|); var k := OkPrefix(results);
        (r.Ok? <==> k == |g.edges|) && (r.Err? ==> r.error == results[k].error) &&
        (forall e :: 0 <= e < k ==> weights[e] == results[e].value) &&
        (forall e :: k <= e < weights.Length ==> weights[e] == old(weights[e]))
    {
      r := AssignWeights(WeightOf(), false, g, weights);
    }
  }

  /** `WeightAssigner(ignore_label_order, similarity)`: a name other than 'hamming' or
      'jaccard' raises RuntimeError. */
  function New(ignoreLabelOrder: bool, similarity: string): (r: Result<WeightAssigner>)
    ensures r.Ok? <==> similarity == "hamming" || similarity == "jaccard"
    ensures r.Ok? ==> (r.value.similarity == Hamming <==> similarity == "hamming")
    ensures r.Err? ==> r.error.RuntimeError?
  {
    if similarity == "hamming" then Ok(WeightAssigner(ignoreLabelOrder, Hamming))
    else if similarity == "jaccard" then Ok(WeightAssigner(ignoreLabelOrder, Jaccard))
    else Err(RuntimeError("Unknown similarity measure \"" + similarity + "\" requested"))
  }

  /** Every computed weight lies in [0, 2], and it is 0 exactly when the primary labels agree
      and the secondary labels are equal as multisets. */
  lemma WeightRange(a: WeightAssigner, source: VertexLabel, target: VertexLabel)
    requires a.Weight(source, target).Ok?
    ensures var w := a.Weight(source, target).value; 0.0 <= w <= 2.0
    ensures var (s, A) := Split(source).value; var (t, B) := Split(target).value;
      a.Weight(source, target).value == 0.0 <==> s == t && multiset(A) == multiset(B)
  {
    D.HammingProperties(Split(source).value.1, Split(target).value.1);
  }

  /** An edge's weight, or the exception it raises, does not depend on its direction. */
  lemma WeightSymmetric(a: WeightAssigner, source: VertexLabel, target: VertexLabel)
    ensures a.Weight(target, source).Ok? <==> a.Weight(source, target).Ok?
    ensures a.Weight(source, target).Err? ==> a.Weight(target, source).error == a.Weight(source, target).error
    ensures a.Weight(source, target).Ok? ==> a.Weight(target, source).value == a.Weight(source, target).value
  {
    if Split(source).Ok? && Split(target).Ok? && a.similarity == Hamming {
      HammingWeightSymmetric(a, source, target);
    }
  }

  /** The Hamming weight of an edge is the same in both directions. */
  lemma HammingWeightSymmetric(a: WeightAssigner, source: VertexLabel, target: VertexLabel)
    requires Split(source).Ok? && Split(target).Ok? && a.similarity == Hamming
    ensures a.Weight(target, source) == a.Weight(source, target)
  {
    var A, B := Split(source).value.1, Split(target).value.1;
    var h := D.Hamming(A, B);
    D.HammingSymmetric(A, B);
    assert D.Hamming(B, A) == h;
  }

  /** The 'jaccard' measure fails on the first edge whose labels are lists with a first
      element. */
  lemma JaccardRaises(a: WeightAssigner, source: VertexLabel, target: VertexLabel)
    requires a.similarity == Jaccard && Split(source).Ok? && Split(target).Ok?
    ensures a.Weight(source, target) == Err(TypeError)
  {
  }

  /** With single (non-list) labels an edge weighs exactly the mismatch of its ends' labels. */
  lemma ScalarLabelsWeight(a: WeightAssigner, x: string, y: string)
    requires a.similarity == Hamming
    ensures a.Weight(Scalar(x), Scalar(y)) == Ok(Mismatch(x, y))
  {
    SplitScalar(x);
    SplitScalar(y);
    D.HammingProperties([], []);
  }
}
