/**
  * What the three WeightAssigner classes (src/features.py, features.py, weight_assigner.py)
  * share: a graph whose vertex `label` is a single label or a list of labels, the list
  * `_ensure_list` makes of it, its split into the primary label (the first) and the
  * secondary labels (the rest), and the loop of `fit_transform` that walks the edges and
  * stores each one's weight. Each class supplies its own weight of an edge.
  */
module WeightAssignment {
  import opened Wrappers

  /** A vertex `label` attribute: one value, or a list of values. */
  datatype VertexLabel = Scalar(value: string) | Items(items: seq<string>)

  /** An igraph graph as the assigners see it: the edges and the vertex labels. The edge
      `weight` attribute is kept apart, as an array the assigners write. */
  datatype LabelledGraph = LabelledGraph(vertexCount: nat, edges: seq<(nat, nat)>, labels: seq<VertexLabel>)
  {
    ghost predicate Valid()
    {
      |labels| == vertexCount &&
      forall e :: 0 <= e < |edges| ==> edges[e].0 < vertexCount && edges[e].1 < vertexCount
    }
  }

  /** `_ensure_list(l)`: a single value becomes a one-element list. */
  function EnsureList(l: VertexLabel): seq<string>
  {
    match l
    case Scalar(x) => [x]
    case Items(xs) => xs
  }

  /** `labels[0]` and `labels[1:]` of `_ensure_list(label)`; an empty list has no first
      element and raises IndexError. */
  function Split(l: VertexLabel): (r: Result<(string, seq<string>)>)
    ensures r.Ok? <==> EnsureList(l) != []
    ensures r.Err? ==> r.error == IndexError
  {
    var xs := EnsureList(l);
    if xs == [] then Err(IndexError) else Ok((xs[0], xs[1..]))
  }

  /** The primary label followed by the secondary labels is the whole list again. */
  lemma SplitJoin(l: VertexLabel)
    requires Split(l).Ok?
    ensures [Split(l).value.0] + Split(l).value.1 == EnsureList(l)
  {
  }

  /** A single label has itself as primary label and no secondary labels. */
  lemma SplitScalar(x: string)
    ensures Split(Scalar(x)) == Ok((x, []))
  {
    assert [x][1..] == [];
  }

  /** `(source_label != target_label)` as a number. */
  function Mismatch(s: string, t: string): (r: real)
    ensures r == 0.0 <==> s == t
    ensures r == 0.0 || r == 1.0
  {
    if s != t then 1.0 else 0.0
  }
  /** The outcome of one edge of `g` under an assigner's weight: the weight of its two end
      labels, or the exception computing it raises. */
  function EdgeResult(weight: (VertexLabel, VertexLabel) -> Result<real>, g: LabelledGraph, e: nat): Result<real>
    requires g.Valid() && e < |g.edges|
  {
    weight(g.labels[g.edges[e].0], g.labels[g.edges[e].1])
  }

  /** The outcomes of the first `k` edges of `g`, in edge order: entry e belongs to edge e. */
  function EdgeResults(weight: (VertexLabel, VertexLabel) -> Result<real>, g: LabelledGraph, k: nat): (r: seq<Result<real>>)
    requires g.Valid() && k <= |g.edges|
    ensures |r| == k
    ensures forall e :: 0 <= e < k ==> r[e] == EdgeResult(weight, g, e)
  {
    if k == 0 then [] else EdgeResults(weight, g, k - 1) + [EdgeResult(weight, g, k - 1)]
  }

  /** An edge's weight after it has been assigned `w`: added to its current weight in
      smooth mode, replacing it otherwise. */
  function Assigned(smooth: bool, current: real, w: real): real
  {
    if smooth then current + w else w
  }

  /** The loop of `fit_transform`: walks the edges in order and assigns each its weight.
      When an edge's weight raises, the edges before it have been updated, the others keep
      their weights, and the exception is the one that edge raised. */
  method AssignWeights(weight: (VertexLabel, VertexLabel) -> Result<real>, smooth: bool, g: LabelledGraph, weights: array<real>)
    returns (r: Result<()>)
    requires g.Valid() && weights.Length == |g.edges|
    modifies weights
    ensures var results := EdgeResults(weight, g, |g.edges|); var k := OkPrefix(results);
      (r.Ok? <==> k == |g.edges|) && (r.Err? ==> r.error == results[k].error) &&
      (forall e :: 0 <= e < k ==> weights[e] == Assigned(smooth, old(weights[e]), results[e].value)) &&
      (forall e :: k <= e < weights.Length ==> weights[e] == old(weights[e]))
  {
    ghost var results := EdgeResults(weight, g, |g.edges|);
    var i := 0;
    while i < |g.edges|
      invariant i <= |g.edges|
      invariant forall e :: 0 <= e < i ==> results[e].Ok?
      invariant forall e :: 0 <= e < i ==> weights[e] == Assigned(smooth, old(weights[e]), results[e].value)
      invariant forall e :: i <= e < weights.Length ==> weights[e] == old(weights[e])
    {
      var (source, target) := g.edges[i];
      var w := weight(g.labels[source], g.labels[target]);
      if w.Err? {
        OkPrefixAt(results, i);
        return Err(w.error);
      }
      weights[i] := Assigned(smooth, weights[i], w.value);
      i := i + 1;
    }
    OkPrefixAt(results, i);
    r := Ok(());
  }
}
