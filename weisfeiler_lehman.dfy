/**
  * The single-graph Weisfeiler--Lehman relabelling of weisfeiler_lehman.py (class WL).
  * Each iteration builds, for every vertex, the list made of its own label followed by
  * the sorted labels of its neighbours, joins that list into one string (with no
  * separator) and gives every vertex the label drawn for its string from a fresh
  * LabelGenerator(n, n), where n is the number of vertices.
  */
module WeisfeilerLehman {
  import opened Wrappers
  import opened Decimal
  import opened StringOrder
  import LG = LabelGenerator

  /** An undirected igraph graph with a string `label` per vertex. */
  datatype Graph = Graph(vertexCount: nat, edges: seq<(nat, nat)>, labels: seq<string>)
  {
    ghost predicate Valid()
    {
      |labels| == vertexCount &&
      forall e :: 0 <= e < |edges| ==> edges[e].0 < vertexCount && edges[e].1 < vertexCount
    }
  }

  /** The neighbours v gets from one edge (a loop gives v itself twice). */
  function EdgeNeighbors(e: (nat, nat), v: nat): seq<nat>
  {
    (if e.0 == v then [e.1] else []) + (if e.1 == v then [e.0] else [])
  }

  /** The neighbours of v, one entry per incident edge, in edge order. */
  function IncidentNeighbors(edges: seq<(nat, nat)>, v: nat): seq<nat>
  {
    if edges == [] then []
    else IncidentNeighbors(edges[..|edges| - 1], v) + EdgeNeighbors(edges[|edges| - 1], v)
  }

  /** u repeated m times. */
  function Repeat(u: nat, m: nat): (r: seq<nat>)
    ensures |r| == m
    ensures forall i :: 0 <= i < m ==> r[i] == u
  {
    seq(m, _ => u)
  }

  lemma RepeatCount(u: nat, m: nat, w: nat)
    ensures multiset(Repeat(u, m))[w] == if w == u then m else 0
  {
    if m > 0 {
      assert Repeat(u, m) == Repeat(u, m - 1) + [u];
      RepeatCount(u, m - 1, w);
    }
  }

  /** How many times u is a neighbour of v: once per edge joining them, twice per loop. */
  function Multiplicity(edges: seq<(nat, nat)>, v: nat, u: nat): nat
  {
    if edges == [] then 0
    else
      var e := edges[|edges| - 1];
      Multiplicity(edges[..|edges| - 1], v, u) +
      (if e.0 == v && e.1 == u then 1 else 0) + (if e.1 == v && e.0 == u then 1 else 0)
  }

  /** igraph's `neighbors(v)` among the vertices below n: the neighbour ids in increasing
      order, each repeated as often as it is a neighbour. */
  function Neighbors(edges: seq<(nat, nat)>, v: nat, n: nat): seq<nat>
  {
    if n == 0 then [] else Neighbors(edges, v, n - 1) + Repeat(n - 1, Multiplicity(edges, v, n - 1))
  }

  /** The neighbour ids are vertices below n, in increasing order. */
  lemma {:induction false} NeighborsAscending(edges: seq<(nat, nat)>, v: nat, n: nat)
    ensures forall i :: 0 <= i < |Neighbors(edges, v, n)| ==> Neighbors(edges, v, n)[i] < n
    ensures forall i, j :: 0 <= i < j < |Neighbors(edges, v, n)| ==>
              Neighbors(edges, v, n)[i] <= Neighbors(edges, v, n)[j]
  {
    if n > 0 {
      NeighborsAscending(edges, v, n - 1);
    }
  }

  lemma {:induction false} IncidentNeighborsInRange(edges: seq<(nat, nat)>, v: nat, n: nat)
    requires forall e :: 0 <= e < |edges| ==> edges[e].0 < n && edges[e].1 < n
    ensures forall i :: 0 <= i < |IncidentNeighbors(edges, v)| ==> IncidentNeighbors(edges, v)[i] < n
  {
    if edges != [] {
      IncidentNeighborsInRange(edges[..|edges| - 1], v, n);
    }
  }

  /** The multiplicity of u is its number of occurrences in the edge-order list. */
  lemma {:induction false} MultiplicityCounts(edges: seq<(nat, nat)>, v: nat, u: nat)
    ensures Multiplicity(edges, v, u) == multiset(IncidentNeighbors(edges, v))[u]
  {
    if edges != [] {
      MultiplicityCounts(edges[..|edges| - 1], v, u);
      var e := edges[|edges| - 1];
      assert multiset(IncidentNeighbors(edges, v)) ==
             multiset(IncidentNeighbors(edges[..|edges| - 1], v)) + multiset(EdgeNeighbors(e, v));
    }
  }

  /** The ordered neighbour list holds each vertex below n as often as it is a neighbour. */
  lemma {:induction false} NeighborsCount(edges: seq<(nat, nat)>, v: nat, n: nat, u: nat)
    ensures multiset(Neighbors(edges, v, n))[u] == if u < n then Multiplicity(edges, v, u) else 0
  {
    if n > 0 {
      NeighborsCount(edges, v, n - 1, u);
      var m := Multiplicity(edges, v, n - 1);
      var below := Neighbors(edges, v, n - 1);
      RepeatCount(n - 1, m, u);
      assert multiset(Neighbors(edges, v, n)) == multiset(below) + multiset(Repeat(n - 1, m));
    }
  }

  /** In a graph with n vertices, v's neighbours in id order are a permutation of its
      neighbours in edge order. */
  lemma NeighborsPermuteIncident(edges: seq<(nat, nat)>, v: nat, n: nat)
    requires forall e :: 0 <= e < |edges| ==> edges[e].0 < n && edges[e].1 < n
    ensures multiset(Neighbors(edges, v, n)) == multiset(IncidentNeighbors(edges, v))
  {
    IncidentNeighborsInRange(edges, v, n);
    forall u: nat
      ensures multiset(Neighbors(edges, v, n))[u] == multiset(IncidentNeighbors(edges, v))[u]
    {
      NeighborsCount(edges, v, n, u);
      MultiplicityCounts(edges, v, u);
      if u >= n {
        assert u !in IncidentNeighbors(edges, v);
      }
    }
  }

  /** The current labels of v's neighbours, unsorted. */
  function NeighborLabels(g: Graph, v: nat): (r: seq<string>)
    requires g.Valid()
    ensures |r| == |Neighbors(g.edges, v, g.vertexCount)|
  {
    NeighborsAscending(g.edges, v, g.vertexCount);
    var ns := Neighbors(g.edges, v, g.vertexCount);
    seq(|ns|, i requires 0 <= i < |ns| => g.labels[ns[i]])
  }

  /** The list [label(v)] + sorted(labels of the neighbours of v). */
  function MergedLabel(g: Graph, v: nat): (r: seq<string>)
    requires g.Valid() && v < g.vertexCount
  {
    [g.labels[v]] + Sort(NeighborLabels(g, v))
  }

  function Merged(g: Graph): (r: seq<seq<string>>)
    requires g.Valid()
    ensures |r| == g.vertexCount
  {
    seq(g.vertexCount, v requires 0 <= v < g.vertexCount => MergedLabel(g, v))
  }

  /** `''.join(xs)`. */
  function Join(xs: seq<string>): string
  {
    if xs == [] then "" else xs[0] + Join(xs[1..])
  }

  /** The dictionary keys, one per vertex, in vertex order. */
  function Keys(merged: seq<seq<string>>): (r: seq<string>)
    ensures |r| == |merged|
  {
    seq(|merged|, i requires 0 <= i < |merged| => Join(merged[i]))
  }

  /** The key of vertex v in graph g. */
  function Key(g: Graph, v: nat): string
    requires g.Valid() && v < g.vertexCount
  {
    Join(MergedLabel(g, v))
  }

  /** Position of the last occurrence of k in s. */
  function LastIndex(s: seq<string>, k: string): (i: nat)
    requires k in s
    ensures i < |s| && s[i] == k
    ensures forall j :: i < j < |s| ==> s[j] != k
  {
    if s[|s| - 1] == k then |s| - 1 else LastIndex(s[..|s| - 1], k)
  }

  /** The dictionary `_generate_label_dict` builds from the keys and the labels drawn for
      them, one per key in order: each key keeps the label drawn at its last occurrence. */
  function DrawnDict(keys: seq<string>, drawn: seq<string>): map<string, string>
    requires |drawn| == |keys|
  {
    map k | k in keys :: drawn[LastIndex(keys, k)]
  }

  /** The m labels a generator hands out after it has already handed out c0. */
  function Drawn(start: int, length: int, c0: nat, m: nat): (r: seq<string>)
    requires m == 0 || length > 0
    ensures |r| == m
  {
    seq(m, i requires 0 <= i < m => LG.NthLabel(start, length, c0 + i))
  }

  /** Drawing the next label extends the drawn labels and the dictionary by one key. */
  lemma DrawNext(keys: seq<string>, start: int, length: int, c0: nat, i: nat, next: string)
    requires i < |keys| && length > 0 && next == LG.NthLabel(start, length, c0 + i)
    ensures Drawn(start, length, c0, i) + [next] == Drawn(start, length, c0, i + 1)
    ensures DrawnDict(keys[..i], Drawn(start, length, c0, i))[keys[i] := next] ==
            DrawnDict(keys[..i + 1], Drawn(start, length, c0, i + 1))
  {
    var drawn, drawn' := Drawn(start, length, c0, i), Drawn(start, length, c0, i + 1);
    assert drawn + [next] == drawn';
    assert drawn'[..i + 1] == drawn' && drawn'[..i] == drawn;
    var prefix := keys[..i + 1];
    assert prefix[..i + 1] == prefix && prefix[..i] == keys[..i] && prefix[i] == keys[i];
    DrawnDictSnoc(prefix, drawn', i);
  }

  /** Distinct keys get distinct labels as long as one round of the generator suffices. */
  lemma DrawnDictInjective(keys: seq<string>, start: int, length: int, k1: string, k2: string)
    requires |keys| <= length
    requires k1 in keys && k2 in keys && k1 != k2
    ensures DrawnDict(keys, Drawn(start, length, 0, |keys|))[k1] != DrawnDict(keys, Drawn(start, length, 0, |keys|))[k2]
  {
    LG.NthLabelDistinct(start, length, LastIndex(keys, k1), LastIndex(keys, k2));
  }

  lemma DrawnDictSnoc(keys: seq<string>, drawn: seq<string>, i: nat)
    requires i < |keys| == |drawn|
    ensures DrawnDict(keys[..i + 1], drawn[..i + 1]) == DrawnDict(keys[..i], drawn[..i])[keys[i] := drawn[i]]
  {
    var s, t := keys[..i + 1], keys[..i];
    assert s == t + [keys[i]];
    assert s[..|s| - 1] == t;
    var A := DrawnDict(s, drawn[..i + 1]);
    var B := DrawnDict(t, drawn[..i])[keys[i] := drawn[i]];
    assert A.Keys == B.Keys;
    forall k | k in A
      ensures A[k] == B[k]
    {
      if k != keys[i] {
        assert LastIndex(s, k) == LastIndex(t, k);
      }
    }
  }

  /** A fresh LabelGenerator(n, n) hands out str(n), ..., str(2n-1) on its first n calls. */
  lemma FreshDrawn(n: nat)
    ensures |Drawn(n, n, 0, n)| == n
    ensures forall i :: 0 <= i < n ==> Drawn(n, n, 0, n)[i] == IntToString(n + i)
  {
    forall i | 0 <= i < n
      ensures Drawn(n, n, 0, n)[i] == IntToString(n + i)
    {
      LG.ModUnique(i, n, 0, i);
    }
  }

  lemma DictOfFreshLabels(keys: seq<string>, drawn: seq<string>)
    requires |drawn| == |keys|
    requires forall i :: 0 <= i < |keys| ==> drawn[i] == IntToString(|keys| + i)
    ensures forall v :: 0 <= v < |keys| ==>
              keys[v] in DrawnDict(keys, drawn) && DrawnDict(keys, drawn)[keys[v]] == StepLabels(keys)[v]
  {
    forall v | 0 <= v < |keys|
      ensures DrawnDict(keys, drawn)[keys[v]] == StepLabels(keys)[v]
    {
      var i := LastIndex(keys, keys[v]);
      assert StepLabels(keys)[v] == IntToString(|keys| + i);
      assert DrawnDict(keys, drawn)[keys[v]] == drawn[i];
    }
  }

  /** With a fresh generator LabelGenerator(n, n) and n keys, the dictionary maps the key of
      vertex v to the label the iteration specifies for v. */
  lemma FreshDrawnDictGivesStepLabels(keys: seq<string>)
    ensures forall v :: 0 <= v < |keys| ==>
              keys[v] in DrawnDict(keys, Drawn(|keys|, |keys|, 0, |keys|)) &&
              DrawnDict(keys, Drawn(|keys|, |keys|, 0, |keys|))[keys[v]] == StepLabels(keys)[v]
  {
    FreshDrawn(|keys|);
    DictOfFreshLabels(keys, Drawn(|keys|, |keys|, 0, |keys|));
  }

  /** The graph with the labels of `_relabel_graph`. */
  function RelabelGraph(X: Graph, mergedLabels: seq<seq<string>>, labelDict: map<string, string>): (Y: Graph)
    requires X.Valid() && |mergedLabels| == X.vertexCount
    requires forall v :: 0 <= v < |mergedLabels| ==> Join(mergedLabels[v]) in labelDict
    ensures Y.Valid()
  {
    X.(labels := seq(|mergedLabels|, v requires 0 <= v < |mergedLabels| => labelDict[Join(mergedLabels[v])]))
  }

  /** The labels one iteration gives to vertices with the keys `keys`: vertex v gets
      str(n + i), where i is the last vertex whose key equals the key of v. */
  function StepLabels(keys: seq<string>): (labels: seq<string>)
    ensures |labels| == |keys|
  {
    var n := |keys|;
    seq(n, v requires 0 <= v < n => IntToString(n + LastIndex(keys, keys[v])))
  }

  /** Two vertices get the same new label exactly when their keys are equal. */
  lemma StepLabelsEqualIffKeysEqual(keys: seq<string>, u: nat, v: nat)
    requires u < |keys| && v < |keys|
    ensures StepLabels(keys)[u] == StepLabels(keys)[v] <==> keys[u] == keys[v]
  {
    var n := |keys|;
    var iu, iv := LastIndex(keys, keys[u]), LastIndex(keys, keys[v]);
    var a, b := n + iu, n + iv;
    assert StepLabels(keys)[u] == IntToString(a);
    assert StepLabels(keys)[v] == IntToString(b);
    if IntToString(a) == IntToString(b) {
      IntToStringInjective(a, b);
      assert keys[u] == keys[iu] == keys[iv] == keys[v];
    }
  }

  /** Every new label is one of str(n), ..., str(2n-1). */
  lemma StepLabelRange(keys: seq<string>, v: nat)
    requires v < |keys|
    ensures exists k :: |keys| <= k < 2 * |keys| && StepLabels(keys)[v] == IntToString(k)
  {
    var k := |keys| + LastIndex(keys, keys[v]);
    assert StepLabels(keys)[v] == IntToString(k);
  }

  /** One Weisfeiler--Lehman iteration. */
  function WLStep(g: Graph): (h: Graph)
    requires g.Valid()
    ensures h.Valid() && h.vertexCount == g.vertexCount && h.edges == g.edges
  {
    g.(labels := StepLabels(Keys(Merged(g))))
  }

  /** The graph after k iterations; relabelling never changes the vertices or the edges. */
  function Iterate(g: Graph, k: nat): (h: Graph)
    requires g.Valid()
    ensures h.Valid() && h.vertexCount == g.vertexCount && h.edges == g.edges
  {
    if k == 0 then g else WLStep(Iterate(g, k - 1))
  }

  /** In the graph g, two vertices get the same new label exactly when their keys agree. */
  lemma WLStepEqualIffKeysEqual(g: Graph, u: nat, v: nat)
    requires g.Valid() && u < g.vertexCount && v < g.vertexCount
    ensures WLStep(g).labels[u] == WLStep(g).labels[v] <==> Key(g, u) == Key(g, v)
  {
    var keys := Keys(Merged(g));
    assert keys[u] == Key(g, u) && keys[v] == Key(g, v);
    StepLabelsEqualIffKeysEqual(keys, u, v);
  }

  function Elements(s: seq<string>): set<string>
  {
    set x | x in s
  }

  lemma {:induction false} ElementsBound(s: seq<string>)
    ensures |Elements(s)| <= |s|
  {
    if s != [] {
      var t := s[..|s| - 1];
      ElementsBound(t);
      assert Elements(s) == Elements(t) + {s[|s| - 1]} by {
        assert s == t + [s[|s| - 1]];
      }
    }
  }

  /** One iteration produces at most n distinct labels. */
  lemma StepDistinctLabelsAtMostN(g: Graph)
    requires g.Valid()
    ensures |Elements(WLStep(g).labels)| <= g.vertexCount
  {
    ElementsBound(WLStep(g).labels);
  }

  /** No string of the set is a prefix of another one, and none is empty. */
  ghost predicate PrefixFree(S: set<string>)
  {
    (forall a :: a in S ==> |a| >= 1) &&
    (forall a, b :: a in S && b in S && a <= b ==> a == b)
  }

  /** Two prefixes of the same string are prefixes of one another. */
  lemma PrefixesComparable(a: string, b: string, s: string)
    requires a <= s && b <= s
    ensures a <= b || b <= a
  {
    if |a| <= |b| {
      assert a == s[..|a|] == b[..|a|];
    } else {
      assert b == s[..|b|] == a[..|b|];
    }
  }

  /** Joining lists of words from a prefix-free code loses nothing. */
  lemma {:induction false} JoinInjective(S: set<string>, xs: seq<string>, ys: seq<string>)
    requires PrefixFree(S)
    requires forall i :: 0 <= i < |xs| ==> xs[i] in S
    requires forall i :: 0 <= i < |ys| ==> ys[i] in S
    requires Join(xs) == Join(ys)
    ensures xs == ys
    decreases |xs|
  {
    if xs == [] || ys == [] {
      if xs != [] || ys != [] {
        assert false;
      }
    } else {
      var j := Join(xs);
      assert j == xs[0] + Join(xs[1..]) && j == ys[0] + Join(ys[1..]);
      assert xs[0] <= j && ys[0] <= j;
      PrefixesComparable(xs[0], ys[0], j);
      assert xs[0] == ys[0];
      assert Join(xs[1..]) == j[|xs[0]|..] == Join(ys[1..]);
      JoinInjective(S, xs[1..], ys[1..]);
      assert xs == [xs[0]] + xs[1..] && ys == [ys[0]] + ys[1..];
    }
  }

  /** The labels produced by an iteration, str(n) ... str(2n-1), form a prefix-free code. */
  lemma StepLabelsPrefixFree(keys: seq<string>)
    ensures PrefixFree(Elements(StepLabels(keys)))
  {
    var labels := StepLabels(keys);
    var n := |keys|;
    forall a, b | a in Elements(labels) && b in Elements(labels) && a <= b
      ensures a == b
    {
      var u :| 0 <= u < n && labels[u] == a;
      var v :| 0 <= v < n && labels[v] == b;
      StepLabelRange(keys, u);
      StepLabelRange(keys, v);
      var ka :| n <= ka < 2 * n && a == IntToString(ka);
      var kb :| n <= kb < 2 * n && b == IntToString(kb);
      DecimalRangePrefixFree(n, ka, kb);
    }
  }

  /** Every word of a merged list is a current label of the graph. */
  lemma MergedLabelWords(g: Graph, w: nat)
    requires g.Valid() && w < g.vertexCount
    ensures forall i :: 0 <= i < |MergedLabel(g, w)| ==> MergedLabel(g, w)[i] in Elements(g.labels)
  {
    NeighborsAscending(g.edges, w, g.vertexCount);
    var nl := NeighborLabels(g, w);
    var ml := MergedLabel(g, w);
    forall i | 0 <= i < |ml|
      ensures ml[i] in Elements(g.labels)
    {
      if i > 0 {
        assert ml[i] == Sort(nl)[i - 1];
        assert ml[i] in multiset(Sort(nl));
        assert ml[i] in multiset(nl);
        var j :| 0 <= j < |nl| && nl[j] == ml[i];
        assert nl[j] == g.labels[Neighbors(g.edges, w, g.vertexCount)[j]];
      }
    }
  }

  /** When the current labels form a prefix-free code, equal keys mean equal merged lists,
      so two vertices that share a new label shared their old label as well. */
  lemma RefinesWhenPrefixFree(g: Graph, u: nat, v: nat)
    requires g.Valid() && u < g.vertexCount && v < g.vertexCount
    requires PrefixFree(Elements(g.labels))
    requires WLStep(g).labels[u] == WLStep(g).labels[v]
    ensures MergedLabel(g, u) == MergedLabel(g, v)
    ensures g.labels[u] == g.labels[v]
  {
    WLStepEqualIffKeysEqual(g, u, v);
    MergedLabelWords(g, u);
    MergedLabelWords(g, v);
    JoinInjective(Elements(g.labels), MergedLabel(g, u), MergedLabel(g, v));
    assert MergedLabel(g, u)[0] == MergedLabel(g, v)[0];
  }

  /** From the second iteration on the relabelling refines the previous partition: vertices
      that share a label after iteration k+2 shared one after iteration k+1. */
  lemma RefinementFromSecondIteration(g: Graph, k: nat, u: nat, v: nat)
    requires g.Valid() && u < g.vertexCount && v < g.vertexCount
    requires Iterate(g, k + 2).labels[u] == Iterate(g, k + 2).labels[v]
    ensures Iterate(g, k + 1).labels[u] == Iterate(g, k + 1).labels[v]
  {
    var h := Iterate(g, k);
    StepLabelsPrefixFree(Keys(Merged(h)));
    RefinesWhenPrefixFree(WLStep(h), u, v);
  }

  /** Two disjoint edges whose labels run together: "1" next to "23", "12" next to "3". */
  function RunTogetherGraph(): Graph
  {
    Graph(4, [(0, 1), (2, 3)], ["1", "23", "12", "3"])
  }

  lemma RunTogetherNeighbors()
    ensures RunTogetherGraph().Valid()
    ensures NeighborLabels(RunTogetherGraph(), 0) == ["23"]
    ensures NeighborLabels(RunTogetherGraph(), 2) == ["3"]
  {
    var g := RunTogetherGraph();
    assert g.edges[..1] == [(0, 1)] && g.edges[..1][..0] == [];
    assert Multiplicity(g.edges, 0, 0) == 0;
    assert Multiplicity(g.edges, 0, 1) == 1;
    assert Multiplicity(g.edges, 0, 2) == 0;
    assert Multiplicity(g.edges, 0, 3) == 0;
    assert Neighbors(g.edges, 0, 2) == [1];
    assert Neighbors(g.edges, 0, 4) == [1];
    assert Multiplicity(g.edges, 2, 0) == 0;
    assert Multiplicity(g.edges, 2, 1) == 0;
    assert Multiplicity(g.edges, 2, 2) == 0;
    assert Multiplicity(g.edges, 2, 3) == 1;
    assert Neighbors(g.edges, 2, 3) == [];
    assert Neighbors(g.edges, 2, 4) == [3];
  }

  /** Edges listed against the order of the neighbour ids: vertex 0 meets 2 before 1. */
  function EdgeOrderGraph(): Graph
  {
    Graph(3, [(0, 2), (0, 1)], ["a", "c", "b"])
  }

  /** Unsorted, vertex 0's neighbour labels come in neighbour-id order (1, then 2), not in
      the order of its edges. */
  lemma EdgeOrderNeighbors()
    ensures EdgeOrderGraph().Valid()
    ensures NeighborLabels(EdgeOrderGraph(), 0) == ["c", "b"]
  {
    var g := EdgeOrderGraph();
    assert g.edges[..1] == [(0, 2)] && g.edges[..1][..0] == [];
    assert Multiplicity(g.edges, 0, 0) == 0;
    assert Multiplicity(g.edges, 0, 1) == 1;
    assert Multiplicity(g.edges, 0, 2) == 1;
    assert Neighbors(g.edges, 0, 2) == [1];
    assert Neighbors(g.edges, 0, 3) == [1, 2];
  }

  lemma RunTogetherKeys()
    ensures RunTogetherGraph().Valid()
    ensures Key(RunTogetherGraph(), 0) == "123" && Key(RunTogetherGraph(), 2) == "123"
  {
    var g := RunTogetherGraph();
    RunTogetherNeighbors();
    SortSingleton("23");
    SortSingleton("3");
    assert MergedLabel(g, 0) == ["1", "23"];
    assert MergedLabel(g, 2) == ["12", "3"];
    JoinPair("1", "23");
    JoinPair("12", "3");
  }

  /** The first iteration need not refine: because the key joins labels without a
      separator, vertices 0 and 2 of that graph both have the key "123". */
  lemma FirstIterationCanMerge()
    ensures var g := RunTogetherGraph();
            g.Valid() && WLStep(g).labels[0] == WLStep(g).labels[2] && g.labels[0] != g.labels[2]
  {
    RunTogetherKeys();
    WLStepEqualIffKeysEqual(RunTogetherGraph(), 0, 2);
  }

  lemma SortSingleton(x: string)
    ensures Sort([x]) == [x]
  {
    assert [x][..0] == [];
  }

  lemma JoinPair(a: string, b: string)
    ensures Join([a, b]) == a + b
  {
    assert [a, b][1..] == [b] && [b][1..] == [];
    assert Join([b]) == b + Join([]) == b;
  }

  /** The graphs stored under the keys 1..k after k rounds. */
  function IteratedGraphs(g: Graph, k: nat): map<int, Graph>
    requires g.Valid()
  {
    if k == 0 then map[] else IteratedGraphs(g, k - 1)[k := Iterate(g, k)]
  }

  /** The merged label lists stored under the keys 1..k after k rounds. */
  function IteratedMultisets(g: Graph, k: nat): map<int, seq<seq<string>>>
    requires g.Valid()
  {
    if k == 0 then map[] else IteratedMultisets(g, k - 1)[k := Merged(Iterate(g, k - 1))]
  }

  /** Relabelling with the dictionary of a fresh LabelGenerator(n, n) is one iteration. */
  lemma RelabelWithFreshDict(X: Graph)
    requires X.Valid()
    ensures var keys := Keys(Merged(X));
            var dict := DrawnDict(keys, Drawn(X.vertexCount, X.vertexCount, 0, X.vertexCount));
            (forall v :: 0 <= v < X.vertexCount ==> Join(Merged(X)[v]) in dict) &&
            RelabelGraph(X, Merged(X), dict) == WLStep(X)
  {
    var n := X.vertexCount;
    var keys := Keys(Merged(X));
    var dict := DrawnDict(keys, Drawn(n, n, 0, n));
    FreshDrawnDictGivesStepLabels(keys);
    forall v | 0 <= v < n
      ensures Join(Merged(X)[v]) in dict && dict[Join(Merged(X)[v])] == StepLabels(keys)[v]
    {
      assert Join(Merged(X)[v]) == keys[v];
    }
    assert RelabelGraph(X, Merged(X), dict).labels == StepLabels(keys);
  }

  /** What one round computes, from the sorted neighbour lists to the relabelled graph. */
  lemma RoundIsStep(X: Graph)
    requires X.Valid()
    ensures var n := X.vertexCount;
            var merged := Prepend(X.labels, NeighborLists(X, true, n));
            var dict := DrawnDict(Keys(merged), Drawn(n, n, 0, n));
            merged == Merged(X) &&
            (forall v :: 0 <= v < n ==> Join(merged[v]) in dict) &&
            RelabelGraph(X, merged, dict) == WLStep(X)
  {
    MergedFromNeighborLists(X);
    RelabelWithFreshDict(X);
  }

  lemma UpdateAfterUnion<K, V>(a: map<K, V>, b: map<K, V>, k: K, v: V)
    ensures (a + b)[k := v] == a + b[k := v]
  {
  }

  /** The neighbour labels of v as `get_neighbor_labels` lists them: sorted when `sort` is set. */
  function NeighborList(g: Graph, sort: bool, v: nat): seq<string>
    requires g.Valid() && v < g.vertexCount
  {
    if sort then Sort(NeighborLabels(g, v)) else NeighborLabels(g, v)
  }

  /** The lists of the first k vertices. */
  function NeighborLists(g: Graph, sort: bool, k: nat): (r: seq<seq<string>>)
    requires g.Valid() && k <= g.vertexCount
    ensures |r| == k
  {
    if k == 0 then [] else NeighborLists(g, sort, k - 1) + [NeighborList(g, sort, k - 1)]
  }

  /** Entry v of the lists is vertex v's list. */
  lemma {:induction false} NeighborListsIndex(g: Graph, sort: bool, k: nat)
    requires g.Valid() && k <= g.vertexCount
    ensures forall v :: 0 <= v < k ==> NeighborLists(g, sort, k)[v] == NeighborList(g, sort, v)
  {
    if k > 0 {
      NeighborListsIndex(g, sort, k - 1);
    }
  }

  /** Vertex by vertex, the own label followed by the given list. */
  function Prepend(labels: seq<string>, lists: seq<seq<string>>): (r: seq<seq<string>>)
    requires |labels| == |lists|
    ensures |r| == |labels|
  {
    seq(|labels|, v requires 0 <= v < |labels| => [labels[v]] + lists[v])
  }

  /** Prepending each vertex's own label to its sorted neighbour labels gives the merged lists. */
  lemma MergedFromNeighborLists(g: Graph)
    requires g.Valid()
    ensures Prepend(g.labels, NeighborLists(g, true, g.vertexCount)) == Merged(g)
  {
    NeighborListsIndex(g, true, g.vertexCount);
    var lists := NeighborLists(g, true, g.vertexCount);
    forall v | 0 <= v < g.vertexCount
      ensures Prepend(g.labels, lists)[v] == Merged(g)[v]
    {
    }
  }

  class WL {
    var multisets: map<int, seq<seq<string>>>
    var graphs: map<int, Graph>
    var labelGenerator: LG.LabelGenerator?

    constructor ()
      ensures multisets == map[] && graphs == map[] && labelGenerator == null
    {
      multisets := map[];
      graphs := map[];
      labelGenerator := null;
    }

    /** For every vertex, the labels of its neighbours, sorted when `sort` is set. */
    method GetNeighborLabels(X: Graph, sort: bool) returns (neighborLabels: seq<seq<string>>)
      requires X.Valid()
      ensures neighborLabels == NeighborLists(X, sort, X.vertexCount)
    {
      neighborLabels := [];
      var v := 0;
      while v < X.vertexCount
        invariant v <= X.vertexCount && neighborLabels == NeighborLists(X, sort, v)
      {
        var labels := NeighborListOf(X, sort, v);
        neighborLabels := neighborLabels + [labels];
        v := v + 1;
      }
    }

    /** The labels of v's neighbours, sorted when `sort` is set. */
    method NeighborListOf(X: Graph, sort: bool, v: nat) returns (labels: seq<string>)
      requires X.Valid() && v < X.vertexCount
      ensures labels == NeighborList(X, sort, v)
    {
      labels := NeighborLabels(X, v);
      if sort {
        labels := Sort(labels);
      }
    }

    /** Draws one generator label per list, in order; a key seen again is overwritten. */
    method GenerateLabelDict(mergedLabels: seq<seq<string>>) returns (labelDict: map<string, string>)
      requires labelGenerator != null && labelGenerator.Valid()
      modifies labelGenerator
      ensures labelGenerator.Valid()
      ensures labelGenerator.calls == old(labelGenerator.calls) + |mergedLabels|
      ensures labelDict == DrawnDict(Keys(mergedLabels),
                Drawn(labelGenerator.start, labelGenerator.length, old(labelGenerator.calls), |mergedLabels|))
    {
      var gen := labelGenerator;
      var keys := Keys(mergedLabels);
      ghost var c0 := gen.calls;
      ghost var drawn: seq<string> := [];
      labelDict := map[];
      var i := 0;
      while i < |mergedLabels|
        invariant i <= |mergedLabels| && gen.Valid() && gen.calls == c0 + i
        invariant drawn == Drawn(gen.start, gen.length, c0, i) && labelDict == DrawnDict(keys[..i], drawn)
      {
        var next := gen.GetNextLabel();
        DrawNext(keys, gen.start, gen.length, c0, i, next);
        labelDict := labelDict[keys[i] := next];
        drawn := drawn + [next];
        i := i + 1;
      }
      assert keys[..i] == keys;
    }

    /** One round of `fit_transform`: installs a fresh LabelGenerator(n, n), n the number
        of vertices, relabels X through it and stores the merged label lists and the
        relabelled graph under the key `it`. On a graph without vertices the generator
        cannot be built and the round raises ValueError before it stores anything. */
    method Round(X: Graph, it: int) returns (Y: Result<Graph>)
      requires X.Valid()
      modifies this
      ensures Y.Err? <==> X.vertexCount == 0
      ensures Y.Err? ==> Y.error == ValueError && graphs == old(graphs) && multisets == old(multisets)
      ensures Y.Ok? ==> Y.value == WLStep(X)
      ensures Y.Ok? ==> graphs == old(graphs)[it := Y.value] && multisets == old(multisets)[it := Merged(X)]
    {
      var n := X.vertexCount;
      if n == 0 {
        return Err(ValueError);
      }
      var gen := new LG.LabelGenerator(n, n);
      labelGenerator := gen;
      var relabelled := Relabel(X, it);
      Y := Ok(relabelled);
    }

    /** The rest of a round, once the generator of a graph with n > 0 vertices is installed:
        merges the labels, stores them, draws the dictionary and relabels. */
    method Relabel(X: Graph, it: int) returns (Y: Graph)
      requires X.Valid() && labelGenerator != null && labelGenerator.Valid()
      requires labelGenerator.start == X.vertexCount && labelGenerator.length == X.vertexCount
      requires labelGenerator.calls == 0
      modifies this, labelGenerator
      ensures Y == WLStep(X)
      ensures graphs == old(graphs)[it := Y] && multisets == old(multisets)[it := Merged(X)]
    {
      var n := X.vertexCount;
      var currentLabels := X.labels;
      var neighborLabels := GetNeighborLabels(X, true);
      RoundIsStep(X);
      var mergedLabels := Prepend(currentLabels, neighborLabels);
      multisets := multisets[it := mergedLabels];
      var labelDict := GenerateLabelDict(mergedLabels);
      assert labelDict == DrawnDict(Keys(mergedLabels), Drawn(n, n, 0, n));
      Y := RelabelGraph(X, mergedLabels, labelDict);
      graphs := graphs[it := Y];
    }

    /** Runs `numIterations` relabelling rounds on a copy of X0, keeping the input as
        graphs[0] and the graph after round it as graphs[it], the merged lists of round it
        as multisets[it]. A graph without vertices makes the first round raise ValueError. */
    method FitTransform(X0: Graph, numIterations: int) returns (X: Result<Graph>)
      requires X0.Valid()
      modifies this
      ensures X.Err? <==> X0.vertexCount == 0 && numIterations > 0
      ensures X.Err? ==> X.error == ValueError && graphs == old(graphs)[0 := X0] && multisets == old(multisets)
      ensures X.Ok? ==> X.value == Iterate(X0, if numIterations > 0 then numIterations else 0)
      ensures X.Ok? ==>
        graphs == old(graphs)[0 := X0] + IteratedGraphs(X0, if numIterations > 0 then numIterations else 0) &&
        multisets == old(multisets) + IteratedMultisets(X0, if numIterations > 0 then numIterations else 0)
    {
      graphs := graphs[0 := X0];
      var current := X0;
      var it := 1;
      while it <= numIterations
        invariant 1 <= it <= (if numIterations > 0 then numIterations else 0) + 1
        invariant it > 1 ==> X0.vertexCount > 0
        invariant current == Iterate(X0, it - 1)
        invariant graphs == old(graphs)[0 := X0] + IteratedGraphs(X0, it - 1)
        invariant multisets == old(multisets) + IteratedMultisets(X0, it - 1)
      {
        UpdateAfterUnion(old(multisets), IteratedMultisets(X0, it - 1), it, Merged(current));
        UpdateAfterUnion(old(graphs)[0 := X0], IteratedGraphs(X0, it - 1), it, WLStep(current));
        var next := Round(current, it);
        if next.Err? {
          assert it == 1 && IteratedGraphs(X0, 0) == map[] && IteratedMultisets(X0, 0) == map[];
          assert old(graphs)[0 := X0] + map[] == old(graphs)[0 := X0];
          assert old(multisets) + map[] == old(multisets);
          return Err(next.error);
        }
        current := next.value;
        it := it + 1;
      }
      assert it - 1 == (if numIterations > 0 then numIterations else 0);
      X := Ok(current);
    }
  }
}
