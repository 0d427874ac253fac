/**
  * `PersistenceFeaturesGenerator` of src/features.py: for every graph of a collection, the
  * persistence diagram of its weighted edges (topology.py) becomes one row of a feature
  * matrix, made of up to five blocks -- the infinity norm, the total persistence, the
  * persistence per vertex label, the vertex count per label ("original features") and the
  * cycle-edge weight per label.
  *
  * Persistences are `|x - y|^p` for a whole exponent p; the (1/p)-th root that
  * `total_persistence` takes is not modelled, so that column holds the sum of the powers.
  */
module PersistenceFeatures {
  import opened Wrappers
  import T = Topology
  import FM = FeatureMatrix

  /** A weighted graph with the `compressed_label` of each of its vertices. */
  datatype LabelledGraph = LabelledGraph(graph: T.WeightedGraph, labels: seq<int>)
  {
    ghost predicate Valid()
    {
      graph.Valid() && |labels| == graph.vertexCount
    }
  }

  /** `PersistenceDiagramCalculator()`: sublevel order, no unpaired value, no vertex attribute. */
  const DefaultCalculator := T.Calculator(T.Sublevel, None, None)

  /** Every pair records a vertex below n. */
  ghost predicate IndexedBy(pairs: seq<T.Pair>, n: nat)
  {
    forall i :: 0 <= i < |pairs| ==> pairs[i].index.Some? && pairs[i].index.value < n
  }

  /** Every entry is the index of an edge of g. */
  ghost predicate EdgesOf(g: T.WeightedGraph, cycles: seq<nat>)
  {
    forall i :: 0 <= i < |cycles| ==> cycles[i] < |g.edges|
  }

  /** A successful calculation records a vertex of the graph in each of its pairs and lists
      only edges of the graph as cycle edges. */
  lemma DiagramIndexed(g: T.WeightedGraph)
    requires g.Valid() && T.Diagram(DefaultCalculator, g).Ok?
    ensures IndexedBy(T.Diagram(DefaultCalculator, g).value.pairs, g.vertexCount)
    ensures EdgesOf(g, T.Diagram(DefaultCalculator, g).value.cycles)
  {
    var pairs := T.Diagram(DefaultCalculator, g).value.pairs;
    T.DiagramIndicesArePermutation(DefaultCalculator, g);
    forall i | 0 <= i < |pairs|
      ensures pairs[i].index.value < g.vertexCount
    {
      assert T.Vertices(pairs)[i] in multiset(T.AllVertices(g.vertexCount));
      T.InAllVertices(g.vertexCount, T.Vertices(pairs)[i]);
    }
  }

  /** Where the parts of a row made of a head and three blocks sit. */
  lemma PartEntries(head: seq<real>, c: seq<real>, o: seq<real>, e: seq<real>, i: nat)
    ensures i < |c| ==> (head + (c + o + e))[|head| + i] == c[i]
    ensures i < |o| ==> (head + (c + o + e))[|head| + |c| + i] == o[i]
    ensures i < |e| ==> (head + (c + o + e))[|head| + |c| + |o| + i] == e[i]
  {
  }

  // ---------------------------------------------------------------------------------------
  // Keys and values of the per-label blocks

  /** `graph.vs[c]['compressed_label']` for the vertex c of every pair, in diagram order. */
  function PairLabels(labels: seq<int>, pairs: seq<T.Pair>): (r: seq<int>)
    requires IndexedBy(pairs, |labels|)
    ensures |r| == |pairs| && forall i :: 0 <= i < |pairs| ==> r[i] == labels[pairs[i].index.value]
  {
    if pairs == [] then [] else PairLabels(labels, pairs[..|pairs| - 1]) + [labels[pairs[|pairs| - 1].index.value]]
  }

  /** The label of vertex v; a vertex beyond the labels (never one of a valid graph) gets 0. */
  function LabelAt(labels: seq<int>, v: nat): int
  {
    if v < |labels| then labels[v] else 0
  }

  /** The labels of the vertices vs, in their order. */
  ghost function LabelsOf(labels: seq<int>, vs: seq<nat>): (r: seq<int>)
    ensures |r| == |vs| && forall i :: 0 <= i < |vs| ==> r[i] == LabelAt(labels, vs[i])
  {
    seq(|vs|, i requires 0 <= i < |vs| => LabelAt(labels, vs[i]))
  }

  /** Labelling a concatenation labels each part. */
  lemma LabelsOfConcat(labels: seq<int>, u: seq<nat>, w: seq<nat>)
    ensures LabelsOf(labels, u + w) == LabelsOf(labels, u) + LabelsOf(labels, w)
  {
  }

  /** Relabelling a permutation of vertices gives a permutation of labels. */
  lemma {:induction false} LabelsOfPermutation(labels: seq<int>, a: seq<nat>, b: seq<nat>)
    requires multiset(a) == multiset(b)
    ensures multiset(LabelsOf(labels, a)) == multiset(LabelsOf(labels, b))
    decreases |a|
  {
    if a == [] {
      assert |multiset(b)| == 0;
    } else {
      var x := a[|a| - 1];
      assert x in multiset(a);
      var j :| 0 <= j < |b| && b[j] == x;
      RemoveAt(a, |a| - 1);
      RemoveAt(b, j);
      LabelsOfPermutation(labels, Without(a, |a| - 1), Without(b, j));
      LabelsOfRemoveAt(labels, a, |a| - 1);
      LabelsOfRemoveAt(labels, b, j);
    }
  }

  /** s without its entry at j. */
  function Without(s: seq<nat>, j: nat): (r: seq<nat>)
    requires j < |s|
    ensures |r| == |s| - 1
  {
    s[..j] + s[j + 1..]
  }

  /** Taking out the entry at j takes one copy of it out of the multiset. */
  lemma RemoveAt(s: seq<nat>, j: nat)
    requires j < |s|
    ensures multiset(Without(s, j)) == multiset(s) - multiset{s[j]}
  {
    assert s == s[..j] + [s[j]] + s[j + 1..];
  }

  /** Taking out vertex j takes one copy of its label out of the labels. */
  lemma LabelsOfRemoveAt(labels: seq<int>, s: seq<nat>, j: nat)
    requires j < |s|
    ensures multiset(LabelsOf(labels, s)) == multiset(LabelsOf(labels, Without(s, j))) + multiset{LabelAt(labels, s[j])}
  {
    assert s == s[..j] + [s[j]] + s[j + 1..];
    LabelsOfConcat(labels, s[..j] + [s[j]], s[j + 1..]);
    LabelsOfConcat(labels, s[..j], [s[j]]);
    LabelsOfConcat(labels, s[..j], s[j + 1..]);
  }

  /** Every vertex appears once among the pairs of a diagram, so the labels of the pairs are
      the labels of the graph, each as often as a vertex carries it. */
  lemma PairLabelsArePermutation(g: LabelledGraph)
    requires g.Valid() && T.Diagram(DefaultCalculator, g.graph).Ok?
    ensures IndexedBy(T.Diagram(DefaultCalculator, g.graph).value.pairs, |g.labels|)
    ensures multiset(PairLabels(g.labels, T.Diagram(DefaultCalculator, g.graph).value.pairs)) == multiset(g.labels)
  {
    var pairs := T.Diagram(DefaultCalculator, g.graph).value.pairs;
    var n := g.graph.vertexCount;
    DiagramIndexed(g.graph);
    T.DiagramIndicesArePermutation(DefaultCalculator, g.graph);
    var vs := T.Vertices(pairs);
    LabelsOfPermutation(g.labels, vs, T.AllVertices(n));
    assert PairLabels(g.labels, pairs) == LabelsOf(g.labels, vs);
    assert LabelsOf(g.labels, T.AllVertices(n)) == g.labels;
  }

  /** `abs(x - y)**p` of every pair, in diagram order. */
  function Persistences(pairs: seq<T.Pair>, p: nat): (r: seq<real>)
    ensures |r| == |pairs| && forall i :: 0 <= i < |pairs| ==> r[i] == T.Persistence(pairs[i], p)
  {
    if pairs == [] then [] else Persistences(pairs[..|pairs| - 1], p) + [T.Persistence(pairs[|pairs| - 1], p)]
  }

  /** The persistences add up to the total persistence. */
  lemma {:induction false} SumPersistences(pairs: seq<T.Pair>, p: nat)
    ensures FM.SumReal(Persistences(pairs, p)) == T.PowerSum(pairs, p)
  {
    if pairs != [] {
      var front := Persistences(pairs[..|pairs| - 1], p);
      SumPersistences(pairs[..|pairs| - 1], p);
      assert (front + [T.Persistence(pairs[|pairs| - 1], p)])[..|front|] == front;
    }
  }

  /** The labels of the source and the target of every cycle edge, edge by edge. */
  function CycleLabels(g: LabelledGraph, cycles: seq<nat>): (r: seq<int>)
    requires g.Valid() && EdgesOf(g.graph, cycles)
    ensures |r| == 2 * |cycles|
  {
    if cycles == [] then []
    else
      var e := g.graph.edges[cycles[|cycles| - 1]];
      CycleLabels(g, cycles[..|cycles| - 1]) + [g.labels[e.0], g.labels[e.1]]
  }

  /** `weight**p` of every cycle edge, twice: once for each endpoint. */
  function CyclePowers(g: T.WeightedGraph, cycles: seq<nat>, p: nat): (r: seq<real>)
    requires g.Valid() && EdgesOf(g, cycles)
    ensures |r| == 2 * |cycles|
  {
    if cycles == [] then []
    else
      var w := T.Power(g.weights[cycles[|cycles| - 1]], p);
      CyclePowers(g, cycles[..|cycles| - 1], p) + [w, w]
  }

  /** The sum of `weight**p` over the cycle edges (`total_cycle_persistence`). */
  function CyclePowerSum(g: T.WeightedGraph, cycles: seq<nat>, p: nat): real
    requires g.Valid() && EdgesOf(g, cycles)
  {
    if cycles == [] then 0.0
    else CyclePowerSum(g, cycles[..|cycles| - 1], p) + T.Power(g.weights[cycles[|cycles| - 1]], p)
  }

  /** Each cycle edge is counted at both of its endpoints. */
  lemma {:induction false} SumCyclePowers(g: T.WeightedGraph, cycles: seq<nat>, p: nat)
    requires g.Valid() && EdgesOf(g, cycles)
    ensures FM.SumReal(CyclePowers(g, cycles, p)) == 2.0 * CyclePowerSum(g, cycles, p)
  {
    if cycles != [] {
      var front := CyclePowers(g, cycles[..|cycles| - 1], p);
      var w := T.Power(g.weights[cycles[|cycles| - 1]], p);
      SumCyclePowers(g, cycles[..|cycles| - 1], p);
      assert (front + [w, w])[..|front| + 1] == front + [w];
      assert (front + [w])[..|front|] == front;
    }
  }

  /** Labels below n give cycle keys below n. */
  lemma {:induction false} CycleLabelsBelow(g: LabelledGraph, cycles: seq<nat>, n: nat)
    requires g.Valid() && EdgesOf(g.graph, cycles) && FM.Below(g.labels, n)
    ensures FM.Below(CycleLabels(g, cycles), n)
  {
    if cycles != [] {
      CycleLabelsBelow(g, cycles[..|cycles| - 1], n);
    }
  }

  /** Cycle edge i contributes entries 2i and 2i + 1: its source's and its target's label,
      each with the edge's power. */
  lemma {:induction false} CycleEntries(g: LabelledGraph, cycles: seq<nat>, i: nat, p: nat)
    requires g.Valid() && i < |cycles| && EdgesOf(g.graph, cycles)
    ensures var e := g.graph.edges[cycles[i]];
            CycleLabels(g, cycles)[2 * i] == g.labels[e.0] && CycleLabels(g, cycles)[2 * i + 1] == g.labels[e.1]
    ensures var w := T.Power(g.graph.weights[cycles[i]], p);
            CyclePowers(g.graph, cycles, p)[2 * i] == w && CyclePowers(g.graph, cycles, p)[2 * i + 1] == w
  {
    if i < |cycles| - 1 {
      CycleEntries(g, cycles[..|cycles| - 1], i, p);
    }
  }

  /** The graphs' label lists, `graph.vs['compressed_label']` of every graph. */
  function Labelings(graphs: seq<LabelledGraph>): (r: seq<seq<int>>)
    ensures |r| == |graphs| && forall i :: 0 <= i < |graphs| ==> r[i] == graphs[i].labels
  {
    seq(|graphs|, i requires 0 <= i < |graphs| => graphs[i].labels)
  }

  ghost predicate AllValid(graphs: seq<LabelledGraph>)
  {
    forall i :: 0 <= i < |graphs| ==> graphs[i].Valid()
  }

  ghost predicate AllBelow(graphs: seq<LabelledGraph>, n: nat)
  {
    forall i :: 0 <= i < |graphs| ==> FM.Below(graphs[i].labels, n)
  }

  /** Once the contiguity check passes, every label of every graph indexes a column of a
      per-label block. */
  lemma LabelsBelowCount(graphs: seq<LabelledGraph>)
    requires FM.NumLabels(FM.LabelSet(Labelings(graphs))).Ok?
    ensures AllBelow(graphs, FM.NumLabels(FM.LabelSet(Labelings(graphs))).value)
  {
    FM.LabelingsBelow(Labelings(graphs));
  }

  // ---------------------------------------------------------------------------------------
  // The generator

  class PersistenceFeaturesGenerator {
    const useInfinityNorm: bool
    const useTotalPersistence: bool
    const useLabelPersistence: bool
    const useCyclePersistence: bool
    const useOriginalFeatures: bool
    const storePersistenceDiagrams: bool
    const p: nat
    /** `_persistence_diagrams`: the pairs of the diagrams stored by the last `fit_transform`. */
    var persistenceDiagrams: seq<seq<T.Pair>>

    constructor (useInfinityNorm: bool, useTotalPersistence: bool, useLabelPersistence: bool,
                 useCyclePersistence: bool, useOriginalFeatures: bool, storePersistenceDiagrams: bool, p: nat)
      ensures this.useInfinityNorm == useInfinityNorm && this.useTotalPersistence == useTotalPersistence
      ensures this.useLabelPersistence == useLabelPersistence && this.useCyclePersistence == useCyclePersistence
      ensures this.useOriginalFeatures == useOriginalFeatures
      ensures this.storePersistenceDiagrams == storePersistenceDiagrams && this.p == p
      ensures persistenceDiagrams == []
    {
      this.useInfinityNorm := useInfinityNorm;
      this.useTotalPersistence := useTotalPersistence;
      this.useLabelPersistence := useLabelPersistence;
      this.useCyclePersistence := useCyclePersistence;
      this.useOriginalFeatures := useOriginalFeatures;
      this.storePersistenceDiagrams := storePersistenceDiagrams;
      this.p := p;
      persistenceDiagrams := [];
    }

    /** `PersistenceFeaturesGenerator(...)`: a power that is not positive raises RuntimeError. */
    static method New(useInfinityNorm: bool, useTotalPersistence: bool, useLabelPersistence: bool,
                      useCyclePersistence: bool, useOriginalFeatures: bool, storePersistenceDiagrams: bool, p: int)
      returns (r: Result<PersistenceFeaturesGenerator>)
      ensures r.Ok? <==> p > 0
      ensures r.Err? ==> r.error.RuntimeError?
      ensures r.Ok? ==> fresh(r.value) && r.value.p == p && r.value.persistenceDiagrams == []
      ensures r.Ok? ==> r.value.useInfinityNorm == useInfinityNorm && r.value.useTotalPersistence == useTotalPersistence
      ensures r.Ok? ==> r.value.useLabelPersistence == useLabelPersistence && r.value.useCyclePersistence == useCyclePersistence
      ensures r.Ok? ==> r.value.useOriginalFeatures == useOriginalFeatures && r.value.storePersistenceDiagrams == storePersistenceDiagrams
    {
      if p <= 0 {
        return Err(RuntimeError("Power parameter must be non-negative"));
      }
      var generator := new PersistenceFeaturesGenerator(useInfinityNorm, useTotalPersistence, useLabelPersistence,
                                                        useCyclePersistence, useOriginalFeatures, storePersistenceDiagrams, p);
      return Ok(generator);
    }

    /** A per-label block is requested, so the labels must be collected and checked. */
    predicate NeedsLabels()
    {
      useLabelPersistence || useOriginalFeatures || useCyclePersistence
    }

    /** `num_columns`: one column per scalar feature, `num_labels` per per-label block. */
    function NumColumns(numLabels: nat): nat
    {
      (if useInfinityNorm then 1 else 0) + (if useTotalPersistence then 1 else 0) +
      (if useLabelPersistence then numLabels else 0) + (if useOriginalFeatures then numLabels else 0) +
      (if useCyclePersistence then numLabels else 0)
    }

    /** Where the label-persistence block starts in a row. */
    function LabelOffset(): nat
    {
      (if useInfinityNorm then 1 else 0) + (if useTotalPersistence then 1 else 0)
    }

    /** Where the original-features block starts in a row. */
    function OriginalOffset(numLabels: nat): nat
    {
      LabelOffset() + (if useLabelPersistence then numLabels else 0)
    }

    /** Where the cycle-persistence block starts in a row. */
    function CycleOffset(numLabels: nat): nat
    {
      OriginalOffset(numLabels) + (if useOriginalFeatures then numLabels else 0)
    }

    /** `x_label_persistence`: the persistence of every pair added to its vertex's label. */
    function LabelBlock(g: LabelledGraph, pairs: seq<T.Pair>, n: nat): (r: seq<real>)
      requires g.Valid() && IndexedBy(pairs, |g.labels|) && FM.Below(g.labels, n)
      ensures |r| == n
    {
      FM.Accumulate(PairLabels(g.labels, pairs), Persistences(pairs, p), n)
    }

    /** `x_original_features`: 1 for every pair, added to its vertex's label. */
    function OriginalBlock(g: LabelledGraph, pairs: seq<T.Pair>, n: nat): (r: seq<real>)
      requires g.Valid() && IndexedBy(pairs, |g.labels|) && FM.Below(g.labels, n)
      ensures |r| == n
    {
      FM.Accumulate(PairLabels(g.labels, pairs), FM.Ones(|pairs|), n)
    }

    /** `x_cycle_persistence`: `weight**p` of every cycle edge added to the labels of both of its
        endpoints. */
    function CycleBlock(g: LabelledGraph, cycles: seq<nat>, n: nat): (r: seq<real>)
      requires g.Valid() && EdgesOf(g.graph, cycles) && FM.Below(g.labels, n)
      ensures |r| == n
    {
      CycleLabelsBelow(g, cycles, n);
      FM.Accumulate(CycleLabels(g, cycles), CyclePowers(g.graph, cycles, p), n)
    }

    /** The requested scalar columns: the infinity norm, then the total persistence. */
    function ScalarColumns(pairs: seq<T.Pair>): (r: seq<real>)
      requires useInfinityNorm ==> pairs != []
      ensures |r| == LabelOffset()
    {
      (if useInfinityNorm then [T.MaxPersistence(pairs, p)] else []) +
      (if useTotalPersistence then [T.PowerSum(pairs, p)] else [])
    }

    /** The label-persistence columns of a row: the block when it is requested, else none. */
    function LabelColumns(g: LabelledGraph, pairs: seq<T.Pair>, n: nat): (r: seq<real>)
      requires g.Valid() && IndexedBy(pairs, |g.labels|)
      requires NeedsLabels() ==> FM.Below(g.labels, n)
      ensures |r| == OriginalOffset(n) - LabelOffset()
    {
      if useLabelPersistence then LabelBlock(g, pairs, n) else []
    }

    /** The original-features columns of a row: the block when it is requested, else none. */
    function OriginalColumns(g: LabelledGraph, pairs: seq<T.Pair>, n: nat): (r: seq<real>)
      requires g.Valid() && IndexedBy(pairs, |g.labels|)
      requires NeedsLabels() ==> FM.Below(g.labels, n)
      ensures |r| == CycleOffset(n) - OriginalOffset(n)
    {
      if useOriginalFeatures then OriginalBlock(g, pairs, n) else []
    }

    /** The cycle-persistence columns of a row: the block when it is requested, else none. */
    function CycleColumns(g: LabelledGraph, cycles: seq<nat>, n: nat): (r: seq<real>)
      requires g.Valid() && EdgesOf(g.graph, cycles)
      requires NeedsLabels() ==> FM.Below(g.labels, n)
      ensures |r| == NumColumns(n) - CycleOffset(n)
    {
      if useCyclePersistence then CycleBlock(g, cycles, n) else []
    }

    /** The requested per-label blocks: label persistence, original features, cycle persistence. */
    function BlockColumns(g: LabelledGraph, d: T.Output, n: nat): (r: seq<real>)
      requires g.Valid() && IndexedBy(d.pairs, |g.labels|) && EdgesOf(g.graph, d.cycles)
      requires NeedsLabels() ==> FM.Below(g.labels, n)
      ensures |r| == NumColumns(n) - LabelOffset()
    {
      LabelColumns(g, d.pairs, n) + OriginalColumns(g, d.pairs, n) + CycleColumns(g, d.cycles, n)
    }

    /** The row of one graph: the requested blocks, in their fixed order. */
    function Features(g: LabelledGraph, d: T.Output, n: nat): (r: seq<real>)
      requires g.Valid() && IndexedBy(d.pairs, |g.labels|) && EdgesOf(g.graph, d.cycles)
      requires useInfinityNorm ==> d.pairs != []
      requires NeedsLabels() ==> FM.Below(g.labels, n)
      ensures |r| == NumColumns(n)
    {
      ScalarColumns(d.pairs) + BlockColumns(g, d, n)
    }

    /** The row of a graph whose diagram calculation gave d, or the exception raised while
        it is built: `max` of an empty diagram, the Betti number missing from `m - n + k`, or
        the failed assertion on the number of cycle edges. */
    function RowOf(g: LabelledGraph, d: T.Output, n: nat): (r: Result<seq<real>>)
      requires g.Valid() && IndexedBy(d.pairs, |g.labels|) && EdgesOf(g.graph, d.cycles)
      requires NeedsLabels() ==> FM.Below(g.labels, n)
      ensures r.Ok? ==> |r.value| == NumColumns(n)
    {
      if useInfinityNorm && d.pairs == [] then Err(ValueError)
      else if useCyclePersistence && d.betti.None? then Err(TypeError)
      else if useCyclePersistence && |d.cycles| != |g.graph.edges| - |d.pairs| + d.betti.value then Err(AssertionError)
      else Ok(Features(g, d, n))
    }

    /** The row `fit_transform` writes for graph g with n labels, or the exception it raises,
        starting with that of the diagram calculation. */
    function Row(g: LabelledGraph, n: nat): (r: Result<seq<real>>)
      requires g.Valid() && (NeedsLabels() ==> FM.Below(g.labels, n))
      ensures r.Ok? ==> |r.value| == NumColumns(n)
    {
      var d := T.Diagram(DefaultCalculator, g.graph);
      if d.Err? then Err(d.error)
      else
        DiagramIndexed(g.graph);
        RowOf(g, d.value, n)
    }

    /** The rows of the graphs, in order. */
    function Rows(graphs: seq<LabelledGraph>, n: nat): (r: seq<Result<seq<real>>>)
      requires AllValid(graphs) && (NeedsLabels() ==> AllBelow(graphs, n))
      ensures |r| == |graphs| && forall i :: 0 <= i < |graphs| && r[i].Ok? ==> |r[i].value| == NumColumns(n)
    {
      seq(|graphs|, i requires 0 <= i < |graphs| => Row(graphs[i], n))
    }

    /** The number of labels, 0 when no per-label block is requested. */
    function NumLabelsOf(graphs: seq<LabelledGraph>): Result<nat>
    {
      if NeedsLabels() then FM.NumLabels(FM.LabelSet(Labelings(graphs))) else Ok(0)
    }

    /** The diagrams stored while the row of g is computed: with label persistence, the diagram
        once its label block is filled. */
    ghost function StoredFor(g: LabelledGraph): seq<seq<T.Pair>>
      requires g.Valid()
    {
      var d := T.Diagram(DefaultCalculator, g.graph);
      if d.Ok? then StoredOf(d.value) else []
    }

    /** The diagrams stored while the row for diagram d is built. */
    ghost function StoredOf(d: T.Output): seq<seq<T.Pair>>
    {
      if useLabelPersistence && !(useInfinityNorm && d.pairs == []) then [d.pairs] else []
    }

    /** The diagrams stored while the rows of the first k graphs are computed. */
    ghost function Stored(graphs: seq<LabelledGraph>, k: nat): seq<seq<T.Pair>>
      requires AllValid(graphs) && k <= |graphs|
    {
      if k == 0 then [] else Stored(graphs, k - 1) + StoredFor(graphs[k - 1])
    }

    // -------------------------------------------------------------------------------------
    // What a row holds

    /** The scalar columns come first: the infinity norm, then the total persistence. */
    lemma ScalarLayout(g: LabelledGraph, d: T.Output, n: nat)
      requires g.Valid() && IndexedBy(d.pairs, |g.labels|) && EdgesOf(g.graph, d.cycles)
      requires useInfinityNorm ==> d.pairs != []
      requires NeedsLabels() ==> FM.Below(g.labels, n)
      ensures useInfinityNorm ==> Features(g, d, n)[0] == T.MaxPersistence(d.pairs, p)
      ensures useTotalPersistence ==> Features(g, d, n)[LabelOffset() - 1] == T.PowerSum(d.pairs, p)
    {
      var s, b := ScalarColumns(d.pairs), BlockColumns(g, d, n);
      assert Features(g, d, n) == s + b;
      if useInfinityNorm {
        assert s[0] == T.MaxPersistence(d.pairs, p);
      }
      if useTotalPersistence {
        assert s[LabelOffset() - 1] == T.PowerSum(d.pairs, p);
      }
    }

    /** Entry l of the label-persistence block of a row. */
    lemma LabelLayout(g: LabelledGraph, d: T.Output, n: nat, l: nat)
      requires useLabelPersistence && l < n
      requires g.Valid() && IndexedBy(d.pairs, |g.labels|) && EdgesOf(g.graph, d.cycles)
      requires useInfinityNorm ==> d.pairs != []
      requires NeedsLabels() ==> FM.Below(g.labels, n)
      ensures Features(g, d, n)[LabelOffset() + l] == LabelBlock(g, d.pairs, n)[l]
    {
      assert LabelColumns(g, d.pairs, n) == LabelBlock(g, d.pairs, n);
      PartEntries(ScalarColumns(d.pairs), LabelColumns(g, d.pairs, n),
        OriginalColumns(g, d.pairs, n), CycleColumns(g, d.cycles, n), l);
    }

    /** Entry l of the original-features block of a row. */
    lemma OriginalLayout(g: LabelledGraph, d: T.Output, n: nat, l: nat)
      requires useOriginalFeatures && l < n
      requires g.Valid() && IndexedBy(d.pairs, |g.labels|) && EdgesOf(g.graph, d.cycles)
      requires useInfinityNorm ==> d.pairs != []
      requires NeedsLabels() ==> FM.Below(g.labels, n)
      ensures Features(g, d, n)[OriginalOffset(n) + l] == OriginalBlock(g, d.pairs, n)[l]
    {
      assert OriginalColumns(g, d.pairs, n) == OriginalBlock(g, d.pairs, n);
      PartEntries(ScalarColumns(d.pairs), LabelColumns(g, d.pairs, n),
        OriginalColumns(g, d.pairs, n), CycleColumns(g, d.cycles, n), l);
    }

    /** Entry l of the cycle-persistence block of a row. */
    lemma CycleLayout(g: LabelledGraph, d: T.Output, n: nat, l: nat)
      requires useCyclePersistence && l < n
      requires g.Valid() && IndexedBy(d.pairs, |g.labels|) && EdgesOf(g.graph, d.cycles)
      requires useInfinityNorm ==> d.pairs != []
      requires NeedsLabels() ==> FM.Below(g.labels, n)
      ensures Features(g, d, n)[CycleOffset(n) + l] == CycleBlock(g, d.cycles, n)[l]
    {
      assert CycleColumns(g, d.cycles, n) == CycleBlock(g, d.cycles, n);
      PartEntries(ScalarColumns(d.pairs), LabelColumns(g, d.pairs, n),
        OriginalColumns(g, d.pairs, n), CycleColumns(g, d.cycles, n), l);
    }

    /** The label-persistence block adds up to the total persistence. */
    lemma LabelBlockTotal(g: LabelledGraph, pairs: seq<T.Pair>, n: nat)
      requires g.Valid() && IndexedBy(pairs, |g.labels|) && FM.Below(g.labels, n)
      ensures FM.SumReal(LabelBlock(g, pairs, n)) == T.PowerSum(pairs, p)
    {
      FM.SumAccumulate(PairLabels(g.labels, pairs), Persistences(pairs, p), n);
      SumPersistences(pairs, p);
    }

    /** Entry l of the original-features block counts the pairs whose vertex has label l. */
    lemma OriginalBlockCounts(g: LabelledGraph, pairs: seq<T.Pair>, n: nat, l: nat)
      requires g.Valid() && IndexedBy(pairs, |g.labels|) && FM.Below(g.labels, n) && l < n
      ensures OriginalBlock(g, pairs, n)[l] == multiset(PairLabels(g.labels, pairs))[l] as real
    {
      var keys := PairLabels(g.labels, pairs);
      FM.AccumulateEntry(keys, FM.Ones(|pairs|), n, l);
      FM.CountEntry(keys, l);
    }

    /** The original-features block adds up to the number of pairs. */
    lemma OriginalBlockTotal(g: LabelledGraph, pairs: seq<T.Pair>, n: nat)
      requires g.Valid() && IndexedBy(pairs, |g.labels|) && FM.Below(g.labels, n)
      ensures FM.SumReal(OriginalBlock(g, pairs, n)) == |pairs| as real
    {
      FM.SumAccumulate(PairLabels(g.labels, pairs), FM.Ones(|pairs|), n);
      FM.SumOnes(|pairs|);
    }

    /** The cycle block adds up to twice the summed `weight**p` of the cycle edges. */
    lemma CycleBlockTotal(g: LabelledGraph, cycles: seq<nat>, n: nat)
      requires g.Valid() && EdgesOf(g.graph, cycles) && FM.Below(g.labels, n)
      ensures FM.SumReal(CycleBlock(g, cycles, n)) == 2.0 * CyclePowerSum(g.graph, cycles, p)
    {
      CycleLabelsBelow(g, cycles, n);
      FM.SumAccumulate(CycleLabels(g, cycles), CyclePowers(g.graph, cycles, p), n);
      SumCyclePowers(g.graph, cycles, p);
    }

    /** The infinity norm is at most the total persistence column, which here is the sum of
        the powers without the 1/p-th root. */
    lemma InfinityNormAtMostTotal(g: LabelledGraph, d: T.Output, n: nat)
      requires useInfinityNorm && useTotalPersistence
      requires g.Valid() && IndexedBy(d.pairs, |g.labels|) && EdgesOf(g.graph, d.cycles) && d.pairs != []
      requires NeedsLabels() ==> FM.Below(g.labels, n)
      ensures Features(g, d, n)[0] <= Features(g, d, n)[1]
    {
      ScalarLayout(g, d, n);
      T.PowerSumBound(d.pairs, p);
    }

    /** A row is missing exactly for a graph without edges, which raises IndexError: on a
        graph with an edge, the diagram has a pair per vertex (so `max` has something to take)
        and its cycle edges satisfy `m - n + k`, so neither the ValueError nor the checks of
        the cycle block can fire. */
    lemma RowErrors(g: LabelledGraph, n: nat)
      requires g.Valid() && (NeedsLabels() ==> FM.Below(g.labels, n))
      ensures Row(g, n).Err? <==> |g.graph.edges| == 0
      ensures Row(g, n).Err? ==> Row(g, n).error == IndexError
    {
      var d := T.Diagram(DefaultCalculator, g.graph);
      if d.Ok? {
        assert g.graph.edges[0].0 < g.graph.vertexCount;
        T.DiagramIndicesArePermutation(DefaultCalculator, g.graph);
        T.DiagramEuler(DefaultCalculator, g.graph);
      }
    }

    /** With original features, entry l of that block of a row is the number of vertices
        labelled l, and the block adds up to the number of vertices. */
    lemma RowOriginalFeatures(g: LabelledGraph, n: nat, l: nat)
      requires useOriginalFeatures && g.Valid() && FM.Below(g.labels, n) && l < n
      requires Row(g, n).Ok?
      ensures Row(g, n).value[OriginalOffset(n) + l] == multiset(g.labels)[l] as real
    {
      var d := T.Diagram(DefaultCalculator, g.graph).value;
      DiagramIndexed(g.graph);
      assert Row(g, n) == RowOf(g, d, n) == Ok(Features(g, d, n));
      OriginalLayout(g, d, n, l);
      OriginalBlockCounts(g, d.pairs, n, l);
      PairLabelsArePermutation(g);
    }

    // -------------------------------------------------------------------------------------
    // fit_transform

    /** The labels of all graphs and their contiguity check, when a per-label block needs them. */
    method CountLabels(graphs: seq<LabelledGraph>) returns (r: Result<nat>)
      ensures r == NumLabelsOf(graphs)
      ensures r.Ok? && NeedsLabels() ==> AllBelow(graphs, r.value)
    {
      if !NeedsLabels() {
        return Ok(0);
      }
      var labels := FM.CollectLabels(Labelings(graphs));
      r := FM.NumLabels(labels);
      if r.Ok? {
        LabelsBelowCount(graphs);
      }
    }

    /** Fills `x_label_persistence` pair by pair. */
    method LabelPersistence(g: LabelledGraph, pairs: seq<T.Pair>, n: nat) returns (x: seq<real>)
      requires g.Valid() && IndexedBy(pairs, |g.labels|) && FM.Below(g.labels, n)
      ensures x == LabelBlock(g, pairs, n)
    {
      ghost var keys, values := PairLabels(g.labels, pairs), Persistences(pairs, p);
      var a := new real[n](_ => 0.0);
      assert a[..] == FM.Zeros(n);
      var i := 0;
      while i < |pairs|
        invariant i <= |pairs| && FM.Below(keys[..i], n)
        invariant a[..] == FM.Accumulate(keys[..i], values[..i], n)
      {
        var key := g.labels[pairs[i].index.value];
        var persistence := T.Persistence(pairs[i], p);
        FM.AccumulateStep(a, keys, values, n, i, key, persistence);
        i := i + 1;
      }
      assert keys[..i] == keys && values[..i] == values;
      x := a[..];
    }

    /** Fills `x_original_features`: one count per pair. */
    method OriginalFeatures(g: LabelledGraph, pairs: seq<T.Pair>, n: nat) returns (x: seq<real>)
      requires g.Valid() && IndexedBy(pairs, |g.labels|) && FM.Below(g.labels, n)
      ensures x == OriginalBlock(g, pairs, n)
    {
      ghost var keys, values := PairLabels(g.labels, pairs), FM.Ones(|pairs|);
      var a := new real[n](_ => 0.0);
      assert a[..] == FM.Zeros(n);
      var i := 0;
      while i < |pairs|
        invariant i <= |pairs| && FM.Below(keys[..i], n)
        invariant a[..] == FM.Accumulate(keys[..i], values[..i], n)
      {
        var key := g.labels[pairs[i].index.value];
        FM.AccumulateStep(a, keys, values, n, i, key, 1.0);
        i := i + 1;
      }
      assert keys[..i] == keys && values[..i] == values;
      x := a[..];
    }

    /** Fills `x_cycle_persistence` edge by edge, at both endpoints. */
    method CyclePersistence(g: LabelledGraph, cycles: seq<nat>, n: nat) returns (x: seq<real>)
      requires g.Valid() && EdgesOf(g.graph, cycles) && FM.Below(g.labels, n)
      ensures x == CycleBlock(g, cycles, n)
    {
      CycleLabelsBelow(g, cycles, n);
      ghost var keys, values := CycleLabels(g, cycles), CyclePowers(g.graph, cycles, p);
      var a := new real[n](_ => 0.0);
      assert a[..] == FM.Zeros(n);
      var i := 0;
      ghost var j := 0;
      while i < |cycles|
        invariant i <= |cycles| && j == 2 * i && FM.Below(keys[..j], n)
        invariant a[..] == FM.Accumulate(keys[..j], values[..j], n)
      {
        var edge := g.graph.edges[cycles[i]];
        var weight := g.graph.weights[cycles[i]];
        CycleEntries(g, cycles, i, p);
        FM.AccumulateStep(a, keys, values, n, j, g.labels[edge.0], T.Power(weight, p));
        FM.AccumulateStep(a, keys, values, n, j + 1, g.labels[edge.1], T.Power(weight, p));
        i, j := i + 1, j + 2;
      }
      assert keys[..j] == keys && values[..j] == values;
      x := a[..];
    }

    /** The body of the loop over the graphs: the row of g, or the exception raised for it.
        With label persistence and `store_persistence_diagrams`, the diagram is stored once its
        label block is filled. */
    method ComputeRow(g: LabelledGraph, n: nat) returns (row: Result<seq<real>>)
      requires g.Valid() && (NeedsLabels() ==> FM.Below(g.labels, n))
      modifies this
      ensures row == Row(g, n)
      ensures persistenceDiagrams == old(persistenceDiagrams) + (if storePersistenceDiagrams then StoredFor(g) else [])
    {
      var result := T.FitTransform(DefaultCalculator, g.graph);
      if result.Err? {
        return Err(result.error);
      }
      DiagramIndexed(g.graph);
      var (diagram, edgeIndicesCycles) := result.value;
      row := DiagramRow(g, diagram, edgeIndicesCycles, n);
    }

    /** The features of g computed from its diagram and cycle edges. */
    method DiagramRow(g: LabelledGraph, diagram: T.PersistenceDiagram, edgeIndicesCycles: seq<nat>, n: nat)
      returns (row: Result<seq<real>>)
      requires g.Valid() && IndexedBy(diagram.pairs, |g.labels|) && EdgesOf(g.graph, edgeIndicesCycles)
      requires NeedsLabels() ==> FM.Below(g.labels, n)
      modifies this
      ensures var d := T.Output(diagram.pairs, diagram.betti, edgeIndicesCycles);
        row == RowOf(g, d, n) &&
        persistenceDiagrams == old(persistenceDiagrams) + (if storePersistenceDiagrams then StoredOf(d) else [])
    {
      var scalars := ScalarFeatures(diagram);
      if scalars.Err? {
        return Err(scalars.error);
      }
      var blocks := BlockFeatures(g, diagram, edgeIndicesCycles, n);
      if blocks.Err? {
        return Err(blocks.error);
      }
      return Ok(scalars.value + blocks.value);
    }

    /** `x_infinity_norm` and `x_total_persistence`; `max` of an empty diagram raises ValueError. */
    method ScalarFeatures(diagram: T.PersistenceDiagram) returns (r: Result<seq<real>>)
      ensures r == if useInfinityNorm && diagram.pairs == [] then Err(ValueError) else Ok(ScalarColumns(diagram.pairs))
    {
      var xInfinityNorm: seq<real> := [];
      var xTotalPersistence: seq<real> := [];
      if useInfinityNorm {
        var norm := diagram.InfinityNorm(p);
        if norm.Err? {
          return Err(norm.error);
        }
        xInfinityNorm := [norm.value];
      }
      if useTotalPersistence {
        xTotalPersistence := [diagram.TotalPersistence(p)];
      }
      return Ok(xInfinityNorm + xTotalPersistence);
    }

    /** The per-label blocks, or the exception of the checks before the cycle block. The
        diagram is stored once the label block is filled. */
    method BlockFeatures(g: LabelledGraph, diagram: T.PersistenceDiagram, edgeIndicesCycles: seq<nat>, n: nat)
      returns (r: Result<seq<real>>)
      requires g.Valid() && IndexedBy(diagram.pairs, |g.labels|) && EdgesOf(g.graph, edgeIndicesCycles)
      requires NeedsLabels() ==> FM.Below(g.labels, n)
      modifies this
      ensures r == if useCyclePersistence && diagram.betti.None? then Err(TypeError)
                   else if useCyclePersistence && |edgeIndicesCycles| != |g.graph.edges| - |diagram.pairs| + diagram.betti.value
                   then Err(AssertionError)
                   else Ok(BlockColumns(g, T.Output(diagram.pairs, diagram.betti, edgeIndicesCycles), n))
      ensures persistenceDiagrams ==
                old(persistenceDiagrams) + (if storePersistenceDiagrams && useLabelPersistence then [diagram.pairs] else [])
    {
      var xLabelPersistence: seq<real> := [];
      var xOriginalFeatures: seq<real> := [];
      var xCyclePersistence: seq<real> := [];
      if useLabelPersistence {
        xLabelPersistence := LabelPersistence(g, diagram.pairs, n);
        if storePersistenceDiagrams {
          persistenceDiagrams := persistenceDiagrams + [diagram.pairs];
        }
      }
      if useOriginalFeatures {
        xOriginalFeatures := OriginalFeatures(g, diagram.pairs, n);
      }
      if useCyclePersistence {
        var numPairs := |diagram.pairs|;
        var m := |g.graph.edges|;
        if diagram.betti.None? {
          return Err(TypeError);
        }
        var numCycles := m - numPairs + diagram.betti.value;
        if numCycles != |edgeIndicesCycles| {
          return Err(AssertionError);
        }
        xCyclePersistence := CyclePersistence(g, edgeIndicesCycles, n);
      }
      return Ok(xLabelPersistence + xOriginalFeatures + xCyclePersistence);
    }

    /** The state of the loop of `fit_transform` after `index` graphs: their rows are in X;
        when `failed` holds an exception, graph `index` raised it; the stored diagrams are
        those of the graphs whose rows were computed. */
    ghost predicate Progress(graphs: seq<LabelledGraph>, X: array2<real>, rows: seq<Result<seq<real>>>,
                             index: nat, failed: Option<PyError>)
      reads this, X
    {
      AllValid(graphs) && |rows| == |graphs| && index <= |graphs| && Filled(X, rows, index) &&
      (failed.Some? ==> index < |graphs| && rows[index] == Err(failed.value)) &&
      (storePersistenceDiagrams ==>
         persistenceDiagrams == Stored(graphs, if failed.Some? then index + 1 else index))
    }

    /** The first k rows succeeded and X holds their values. */
    static ghost predicate Filled(X: array2<real>, rows: seq<Result<seq<real>>>, k: nat)
      reads X
    {
      k <= |rows| && k <= X.Length0 && (forall i :: 0 <= i < k ==> rows[i].Ok? && |rows[i].value| == X.Length1) &&
      forall i, j :: 0 <= i < k && 0 <= j < X.Length1 ==> X[i, j] == rows[i].value[j]
    }

    /** One pass of the loop of `fit_transform`: the row of graph `index` is computed and, when
        no exception was raised, written into X. */
    method FillRow(graphs: seq<LabelledGraph>, n: nat, X: array2<real>, index: nat, ghost rows: seq<Result<seq<real>>>)
      returns (failed: Option<PyError>)
      requires AllValid(graphs) && (NeedsLabels() ==> AllBelow(graphs, n))
      requires rows == Rows(graphs, n) && index < |graphs|
      requires X.Length0 == |graphs| && X.Length1 == NumColumns(n) && Progress(graphs, X, rows, index, None)
      modifies this, X
      ensures Progress(graphs, X, rows, if failed.None? then index + 1 else index, failed)
      ensures !storePersistenceDiagrams ==> persistenceDiagrams == old(persistenceDiagrams)
    {
      var row := ComputeRow(graphs[index], n);
      if row.Err? {
        return Some(row.error);
      }
      WriteRow(X, index, row.value, rows);
      return None;
    }

    /** `X[index, :] = row` for the row that succeeded after the first `index` ones. */
    static method WriteRow(X: array2<real>, index: nat, row: seq<real>, ghost rows: seq<Result<seq<real>>>)
      requires index < |rows| && index < X.Length0 && rows[index] == Ok(row) && |row| == X.Length1
      requires Filled(X, rows, index)
      modifies X
      ensures Filled(X, rows, index + 1)
    {
      FM.SetRow(X, index, row);
    }

    /** The loop of `fit_transform` over the graphs, after the stored diagrams were reset:
        row after row is written into X, until a graph raises an exception, which is returned
        with the index of that graph. */
    method FillRows(graphs: seq<LabelledGraph>, n: nat, X: array2<real>, ghost rows: seq<Result<seq<real>>>)
      returns (index: nat, failed: Option<PyError>)
      requires AllValid(graphs) && (NeedsLabels() ==> AllBelow(graphs, n))
      requires rows == Rows(graphs, n)
      requires X.Length0 == |graphs| && X.Length1 == NumColumns(n) && Progress(graphs, X, rows, 0, None)
      modifies this, X
      ensures Progress(graphs, X, rows, index, failed) && (failed.None? ==> index == |graphs|)
      ensures !storePersistenceDiagrams ==> persistenceDiagrams == old(persistenceDiagrams)
    {
      index, failed := 0, None;
      while index < |graphs| && failed.None?
        invariant Progress(graphs, X, rows, index, failed)
        invariant !storePersistenceDiagrams ==> persistenceDiagrams == old(persistenceDiagrams)
        decreases |graphs| - index, if failed.Some? then 0 else 1
      {
        failed := FillRow(graphs, n, X, index, rows);
        if failed.None? {
          index := index + 1;
        }
      }
    }

    /** `fit_transform(graphs)`: the feature matrix, one row per graph, or the first exception.
        With `store_persistence_diagrams` the stored diagrams are those of the graphs handled
        before the exception, and of the failing graph when its label block was filled. */
    method FitTransform(graphs: seq<LabelledGraph>) returns (r: Result<array2<real>>)
      requires AllValid(graphs)
      modifies this
      ensures NumLabelsOf(graphs).Err? ==> r == Err(NumLabelsOf(graphs).error)
      ensures NumLabelsOf(graphs).Err? ==>
        persistenceDiagrams == if storePersistenceDiagrams then [] else old(persistenceDiagrams)
      ensures NumLabelsOf(graphs).Ok? ==> NeedsLabels() ==> AllBelow(graphs, NumLabelsOf(graphs).value)
      ensures NumLabelsOf(graphs).Ok? ==>
        var n := NumLabelsOf(graphs).value;
        var rows := Rows(graphs, n);
        var k := OkPrefix(rows);
        (r.Ok? <==> k == |graphs|) && (r.Err? ==> r.error == rows[k].error) &&
        (r.Ok? ==> fresh(r.value) && r.value.Length0 == |graphs| && r.value.Length1 == NumColumns(n) &&
                   Filled(r.value, rows, |graphs|)) &&
        persistenceDiagrams == if storePersistenceDiagrams then Stored(graphs, if k < |graphs| then k + 1 else k)
                               else old(persistenceDiagrams)
    {
      if storePersistenceDiagrams {
        persistenceDiagrams := [];
      }
      var numLabels := CountLabels(graphs);
      if numLabels.Err? {
        return Err(numLabels.error);
      }
      var n := numLabels.value;
      var X := new real[|graphs|, NumColumns(n)]((_, _) => 0.0);
      ghost var rows := Rows(graphs, n);
      assert Progress(graphs, X, rows, 0, None);
      var index, failed := FillRows(graphs, n, X, rows);
      OkPrefixAt(rows, index);
      if failed.Some? {
        return Err(failed.value);
      }
      return Ok(X);
    }
  }
}
