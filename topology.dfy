/**
  * Zero-dimensional persistent homology of an edge-weighted graph, after topology.py:
  * the PersistenceDiagram container, the PersistenceDiagramCalculator that runs a
  * union--find over the edges in filtration order, and assign_filtration_values.
  *
  * The calculation is specified by a fold (`Run`) over the stably sorted edges whose state
  * is the component map of the union--find, the pairs emitted so far and the cycle edges;
  * `FitTransform` is the imperative algorithm proved equal to it.
  */
module Topology {
  import opened Wrappers
  import UF = UnionFind

  /** One point of a persistence diagram: creation, destruction and an optional vertex. */
  datatype Pair = Pair(creation: real, destruction: real, index: Option<nat>)

  function Abs(x: real): (r: real)
    ensures r >= 0.0 && (r == x || r == -x)
  {
    if x < 0.0 then -x else x
  }

  /** x to the power p, for a whole exponent p. */
  function Power(x: real, p: nat): real
  {
    if p == 0 then 1.0 else x * Power(x, p - 1)
  }

  lemma {:induction false} PowerNonNegative(x: real, p: nat)
    requires x >= 0.0
    ensures Power(x, p) >= 0.0
  {
    if p > 0 {
      PowerNonNegative(x, p - 1);
    }
  }

  /** |x - y|^p of a pair. */
  function Persistence(q: Pair, p: nat): (r: real)
    ensures r >= 0.0
  {
    PowerNonNegative(Abs(q.creation - q.destruction), p);
    Power(Abs(q.creation - q.destruction), p)
  }

  /** Sum of |x - y|^p over the pairs. */
  function PowerSum(pairs: seq<Pair>, p: nat): (r: real)
    ensures r >= 0.0
  {
    if pairs == [] then 0.0 else PowerSum(pairs[..|pairs| - 1], p) + Persistence(pairs[|pairs| - 1], p)
  }

  /** The pairs with x != y, in their original order. */
  function OffDiagonal(pairs: seq<Pair>): (r: seq<Pair>)
    ensures |r| <= |pairs|
  {
    if pairs == [] then []
    else OffDiagonal(pairs[..|pairs| - 1]) +
         (if pairs[|pairs| - 1].creation != pairs[|pairs| - 1].destruction then [pairs[|pairs| - 1]] else [])
  }

  /** A pair survives `remove_diagonal` exactly when it lies off the diagonal. */
  lemma {:induction false} OffDiagonalMembers(pairs: seq<Pair>, q: Pair)
    ensures q in OffDiagonal(pairs) <==> q in pairs && q.creation != q.destruction
  {
    if pairs != [] {
      var init := pairs[..|pairs| - 1];
      OffDiagonalMembers(init, q);
      assert pairs == init + [pairs[|pairs| - 1]];
    }
  }

  /** Filtering works piecewise, so the surviving pairs keep their relative order. */
  lemma {:induction false} OffDiagonalConcat(a: seq<Pair>, b: seq<Pair>)
    ensures OffDiagonal(a + b) == OffDiagonal(a) + OffDiagonal(b)
    decreases |b|
  {
    if b != [] {
      var init := b[..|b| - 1];
      assert (a + b)[..|a + b| - 1] == a + init;
      OffDiagonalConcat(a, init);
    } else {
      assert a + b == a;
    }
  }

  /** Removing the diagonal twice removes nothing more. */
  lemma {:induction false} OffDiagonalIdempotent(pairs: seq<Pair>)
    ensures OffDiagonal(OffDiagonal(pairs)) == OffDiagonal(pairs)
  {
    if pairs != [] {
      var init := pairs[..|pairs| - 1];
      var last := pairs[|pairs| - 1];
      OffDiagonalIdempotent(init);
      var tail := if last.creation != last.destruction then [last] else [];
      OffDiagonalConcat(OffDiagonal(init), tail);
      if tail != [] {
        assert OffDiagonal(tail) == OffDiagonal([]) + tail by {
          assert tail[..0] == [];
        }
      }
    }
  }

  class PersistenceDiagram {
    /** `_pairs` */
    var pairs: seq<Pair>
    /** `_betti`; None until a Betti number is assigned. */
    var betti: Option<int>

    constructor ()
      ensures pairs == [] && betti == None
    {
      pairs := [];
      betti := None;
    }

    /** `diagram[index]`, with Python's negative indices counting from the end. */
    function Get(index: int): (r: Result<Pair>)
      reads this
      ensures r.Ok? <==> -|pairs| <= index < |pairs|
      ensures r.Ok? ==> r.value in pairs
      ensures r.Err? ==> r.error == IndexError
    {
      if 0 <= index < |pairs| then Ok(pairs[index])
      else if -|pairs| <= index < 0 then Ok(pairs[|pairs| + index])
      else Err(IndexError)
    }

    /** Index i and index i - len(diagram) name the same pair. */
    lemma GetNegative(i: nat)
      requires i < |pairs|
      ensures Get(i - |pairs|) == Get(i) == Ok(pairs[i])
    {
    }

    /** `append(x, y, index)` */
    method Append(x: real, y: real, index: Option<nat>)
      modifies this
      ensures pairs == old(pairs) + [Pair(x, y, index)] && betti == old(betti)
    {
      pairs := pairs + [Pair(x, y, index)];
    }

    /** `remove_diagonal()` */
    method RemoveDiagonal()
      modifies this
      ensures pairs == OffDiagonal(old(pairs)) && betti == old(betti)
    {
      var kept: seq<Pair> := [];
      var i := 0;
      while i < |pairs|
        invariant i <= |pairs|
        invariant kept == OffDiagonal(pairs[..i])
      {
        assert pairs[..i + 1][..i] == pairs[..i];
        if pairs[i].creation != pairs[i].destruction {
          kept := kept + [pairs[i]];
        }
        i := i + 1;
      }
      assert pairs[..i] == pairs;
      pairs := kept;
    }

    /** The `betti` setter: a value larger than the number of pairs is refused. */
    method SetBetti(value: int) returns (r: Result<()>)
      modifies this
      ensures r.Ok? <==> value <= |old(pairs)|
      ensures r.Ok? ==> betti == Some(value)
      ensures r.Err? ==> r.error.RuntimeError? && betti == old(betti)
      ensures pairs == old(pairs)
    {
      if value > |pairs| {
        return Err(RuntimeError("Betti number must be less than or equal to persistence diagram cardinality"));
      }
      betti := Some(value);
      return Ok(());
    }

    /** `infinity_norm(p)`: the largest |x - y|^p; `max` of an empty list fails. */
    function InfinityNorm(p: nat): (r: Result<real>)
      reads this
      ensures r.Ok? <==> |pairs| > 0
      ensures r.Err? ==> r.error == ValueError
      ensures r.Ok? ==> (forall q :: q in pairs ==> Persistence(q, p) <= r.value) &&
                        (exists q :: q in pairs && Persistence(q, p) == r.value)
    {
      if pairs == [] then Err(ValueError) else Ok(MaxPersistence(pairs, p))
    }

    /** `total_persistence(p)` without the final (1/p)-th root: the sum of |x - y|^p. */
    function TotalPersistence(p: nat): (r: real)
      reads this
      ensures r >= 0.0
      ensures forall q :: q in pairs ==> Persistence(q, p) <= r
    {
      PowerSumBound(pairs, p);
      PowerSum(pairs, p)
    }
  }

  /** With the rooted total `(sum |x - y|**p)**(1/p)` of `total_persistence`, the infinity
      norm `max |x - y|**p` can exceed the total: for p = 2 and the one pair (0.0, 2.0) the
      summed powers are 4.0, whose non-negative square root 2.0 is below the norm 4.0. */
  lemma RootedTotalBelowInfinityNorm()
    ensures PowerSum([Pair(0.0, 2.0, Some(0))], 2) == 2.0 * 2.0
    ensures MaxPersistence([Pair(0.0, 2.0, Some(0))], 2) == 4.0 > 2.0
  {
    var pairs := [Pair(0.0, 2.0, Some(0))];
    assert pairs[..0] == [];
    assert Persistence(pairs[0], 2) == 4.0;
  }

  function MaxPersistence(pairs: seq<Pair>, p: nat): (m: real)
    requires pairs != []
    ensures forall q :: q in pairs ==> Persistence(q, p) <= m
    ensures exists q :: q in pairs && Persistence(q, p) == m
  {
    var last := pairs[|pairs| - 1];
    if |pairs| == 1 then Persistence(last, p)
    else
      var init := pairs[..|pairs| - 1];
      assert pairs == init + [last];
      var m := MaxPersistence(init, p);
      if Persistence(last, p) > m then Persistence(last, p) else m
  }

  /** Every summand is at most the sum, since no summand is negative. */
  lemma {:induction false} PowerSumBound(pairs: seq<Pair>, p: nat)
    ensures forall q :: q in pairs ==> Persistence(q, p) <= PowerSum(pairs, p)
  {
    if pairs != [] {
      var init := pairs[..|pairs| - 1];
      PowerSumBound(init, p);
      assert pairs == init + [pairs[|pairs| - 1]];
    }
  }

  // ---------------------------------------------------------------------------------------
  // The calculator

  datatype Order = Sublevel | Superlevel

  /** A PersistenceDiagramCalculator's configuration. */
  datatype Calculator = Calculator(order: Order, unpairedValue: Option<real>, vertexAttribute: Option<string>)

  /** The constructor: only the orders 'sublevel' and 'superlevel' are accepted. */
  function NewCalculator(order: string, unpairedValue: Option<real>, vertexAttribute: Option<string>): (r: Result<Calculator>)
    ensures r.Ok? <==> order == "sublevel" || order == "superlevel"
    ensures r.Err? ==> r.error.RuntimeError?
    ensures r.Ok? ==> (r.value.order == Sublevel <==> order == "sublevel") &&
                      r.value.unpairedValue == unpairedValue && r.value.vertexAttribute == vertexAttribute
  {
    if order == "sublevel" then Ok(Calculator(Sublevel, unpairedValue, vertexAttribute))
    else if order == "superlevel" then Ok(Calculator(Superlevel, unpairedValue, vertexAttribute))
    else Err(RuntimeError("Unknown filtration order"))
  }

  /** A graph with an edge list, a `weight` per edge and named real vertex attributes. */
  datatype WeightedGraph = WeightedGraph(vertexCount: nat, edges: seq<(nat, nat)>, weights: seq<real>,
                                         attributes: map<string, seq<real>>)
  {
    ghost predicate Valid()
    {
      |weights| == |edges| &&
      (forall e :: 0 <= e < |edges| ==> edges[e].0 < vertexCount && edges[e].1 < vertexCount) &&
      (forall a :: a in attributes ==> |attributes[a]| == vertexCount)
    }
  }

  /** `if self._vertex_attribute:`: None and the empty name are ignored. */
  predicate UsesAttribute(calculator: Calculator)
  {
    calculator.vertexAttribute.Some? && calculator.vertexAttribute.value != ""
  }

  predicate AttributeMissing(calculator: Calculator, g: WeightedGraph)
  {
    UsesAttribute(calculator) && calculator.vertexAttribute.value !in g.attributes
  }

  /** The creation value of vertex v: its attribute value, or 0.0 without an attribute. */
  function Birth(calculator: Calculator, g: WeightedGraph, v: nat): real
    requires g.Valid() && v < g.vertexCount
  {
    if UsesAttribute(calculator) && calculator.vertexAttribute.value in g.attributes
    then g.attributes[calculator.vertexAttribute.value][v]
    else 0.0
  }

  /** `if self._unpaired_value:`: None and 0.0 do not override the default. */
  predicate Truthy(x: Option<real>)
  {
    x.Some? && x.value != 0.0
  }

  // ---------------------------------------------------------------------------------------
  // Stable argsort

  /** The sort key: the weight itself for a sublevel filtration, its negation otherwise. */
  function SortKeys(order: Order, weights: seq<real>): (keys: seq<real>)
    ensures |keys| == |weights|
  {
    seq(|weights|, e requires 0 <= e < |weights| => if order == Sublevel then weights[e] else -weights[e])
  }

  /** Edge e comes before edge f in a stable sort: smaller key, or equal key and smaller index. */
  predicate Precedes(keys: seq<real>, e: nat, f: nat)
  {
    e < |keys| && f < |keys| && (keys[e] < keys[f] || (keys[e] == keys[f] && e < f))
  }

  /** The indices of s are sorted by Precedes (and hence distinct). */
  predicate SortedBy(keys: seq<real>, s: seq<nat>)
  {
    forall i, j {:trigger Precedes(keys, s[i], s[j])} :: 0 <= i < j < |s| ==> Precedes(keys, s[i], s[j])
  }

  lemma PrecedesTransitive(keys: seq<real>, e: nat, f: nat, g: nat)
    requires Precedes(keys, e, f) && Precedes(keys, f, g)
    ensures Precedes(keys, e, g)
  {
  }

  /** Inserts index e into the index list s at its place in the stable order. */
  function InsertIndex(keys: seq<real>, s: seq<nat>, e: nat): (r: seq<nat>)
    ensures |r| == |s| + 1
  {
    if s == [] then [e]
    else if Precedes(keys, e, s[0]) then [e] + s
    else
      assert s == [s[0]] + s[1..];
      [s[0]] + InsertIndex(keys, s[1..], e)
  }

  lemma {:induction false} InsertIndexSorted(keys: seq<real>, s: seq<nat>, e: nat)
    requires SortedBy(keys, s) && e < |keys|
    requires forall i :: 0 <= i < |s| ==> s[i] < |keys| && s[i] != e
    ensures SortedBy(keys, InsertIndex(keys, s, e))
  {
    if s != [] && !Precedes(keys, e, s[0]) {
      var t := s[1..];
      InsertIndexSorted(keys, t, e);
      InsertIndexBounded(keys, t, e, s[0]);
      assert InsertIndex(keys, s, e) == [s[0]] + InsertIndex(keys, t, e);
    } else if s != [] {
      var r := [e] + s;
      forall j | 1 <= j < |r|
        ensures Precedes(keys, e, r[j])
      {
        if j > 1 {
          PrecedesTransitive(keys, e, s[0], s[j - 1]);
        }
      }
    }
  }

  /** An index that precedes e and every entry of t precedes every entry after inserting e. */
  lemma {:induction false} InsertIndexBounded(keys: seq<real>, t: seq<nat>, e: nat, p: nat)
    requires Precedes(keys, p, e) && forall i :: 0 <= i < |t| ==> Precedes(keys, p, t[i])
    ensures forall j :: 0 <= j < |InsertIndex(keys, t, e)| ==> Precedes(keys, p, InsertIndex(keys, t, e)[j])
  {
    if t != [] && !Precedes(keys, e, t[0]) {
      InsertIndexBounded(keys, t[1..], e, p);
      assert InsertIndex(keys, t, e) == [t[0]] + InsertIndex(keys, t[1..], e);
    }
  }

  function AllVertices(n: nat): (r: seq<nat>)
    ensures |r| == n && forall i :: 0 <= i < n ==> r[i] == i
  {
    seq(n, x => x)
  }

  /** The vertices 0..n-1 are exactly the numbers below n. */
  lemma InAllVertices(n: nat, x: nat)
    ensures x in multiset(AllVertices(n)) <==> x < n
  {
    if x < n {
      assert AllVertices(n)[x] == x;
    }
  }

  /** Every entry of r is below k and every number below k occurs in r. */
  ghost predicate IndicesBelow(r: seq<nat>, k: nat)
  {
    (forall i :: 0 <= i < |r| ==> r[i] < k) && (forall e :: 0 <= e < k ==> e in r)
  }

  /** Inserting e adds one copy of e and keeps every entry of s. */
  lemma {:induction false} InsertIndexMultiset(keys: seq<real>, s: seq<nat>, e: nat)
    ensures multiset(InsertIndex(keys, s, e)) == multiset(s) + multiset{e}
  {
    if s != [] && !Precedes(keys, e, s[0]) {
      InsertIndexMultiset(keys, s[1..], e);
      assert s == [s[0]] + s[1..];
    }
  }

  /** Inserting e adds e and keeps every entry of s, and nothing else. */
  lemma InsertIndexMembers(keys: seq<real>, s: seq<nat>, e: nat)
    ensures forall x :: x in InsertIndex(keys, s, e) <==> x in s || x == e
  {
    InsertIndexMultiset(keys, s, e);
    var r := InsertIndex(keys, s, e);
    forall x
      ensures x in r <==> x in s || x == e
    {
      assert x in r <==> x in multiset(r);
      assert x in s <==> x in multiset(s);
    }
  }

  lemma ArgSortStep(keys: seq<real>, s: seq<nat>, k: nat)
    requires 0 < k <= |keys| && IndicesBelow(s, k - 1) && SortedBy(keys, s)
    ensures IndicesBelow(InsertIndex(keys, s, k - 1), k) && SortedBy(keys, InsertIndex(keys, s, k - 1))
  {
    InsertIndexSorted(keys, s, k - 1);
    InsertIndexMembers(keys, s, k - 1);
    var r := InsertIndex(keys, s, k - 1);
    forall i | 0 <= i < |r|
      ensures r[i] < k
    {
      assert r[i] in r;
    }
  }

  /** numpy's `argsort(keys[..k], kind='stable')`, built by inserting 0..k-1 in turn. */
  function ArgSortPrefix(keys: seq<real>, k: nat): (r: seq<nat>)
    requires k <= |keys|
    ensures |r| == k
  {
    if k == 0 then [] else InsertIndex(keys, ArgSortPrefix(keys, k - 1), k - 1)
  }

  /** The stable argsort lists the numbers 0..k-1, sorted by key with ties by index. */
  lemma {:induction false} ArgSortPrefixSorts(keys: seq<real>, k: nat)
    requires k <= |keys|
    ensures IndicesBelow(ArgSortPrefix(keys, k), k) && SortedBy(keys, ArgSortPrefix(keys, k))
  {
    if k > 0 {
      ArgSortPrefixSorts(keys, k - 1);
      ArgSortStep(keys, ArgSortPrefix(keys, k - 1), k);
    }
  }

  /** The filtration order: the edge indices sorted stably by key. */
  function FiltrationOrder(order: Order, weights: seq<real>): (r: seq<nat>)
    ensures |r| == |weights|
    ensures forall i :: 0 <= i < |r| ==> r[i] < |weights|
  {
    ArgSortPrefixSorts(SortKeys(order, weights), |weights|);
    ArgSortPrefix(SortKeys(order, weights), |weights|)
  }

  /** The filtration order lists every edge exactly once (a permutation of the edge indices),
      by stable ascending key. */
  lemma FiltrationOrderIsStableSort(order: Order, weights: seq<real>)
    ensures var r := FiltrationOrder(order, weights);
            (forall e :: 0 <= e < |weights| ==> e in r) &&
            (forall i, j :: 0 <= i < j < |r| ==> r[i] != r[j]) &&
            SortedBy(SortKeys(order, weights), r)
  {
    var keys, r := SortKeys(order, weights), FiltrationOrder(order, weights);
    ArgSortPrefixSorts(keys, |weights|);
    forall i, j | 0 <= i < j < |r|
      ensures r[i] != r[j]
    {
      assert Precedes(keys, r[i], r[j]);
    }
  }

  /** In filtration order the weights never decrease (sublevel) or never increase
      (superlevel), and edges of equal weight keep their original order. */
  lemma FiltrationOrderMonotone(order: Order, weights: seq<real>, i: nat, j: nat)
    requires i < j < |weights|
    ensures var r := FiltrationOrder(order, weights);
            (if order == Sublevel then weights[r[i]] <= weights[r[j]] else weights[r[i]] >= weights[r[j]]) &&
            (weights[r[i]] == weights[r[j]] ==> r[i] < r[j])
  {
    var r := FiltrationOrder(order, weights);
    FiltrationOrderIsStableSort(order, weights);
    assert Precedes(SortKeys(order, weights), r[i], r[j]);
  }

  // ---------------------------------------------------------------------------------------
  // The specification of fit_transform

  /** The vertices recorded in the pairs (all pairs of the calculation carry one). */
  function Vertices(pairs: seq<Pair>): (r: seq<nat>)
    requires forall i :: 0 <= i < |pairs| ==> pairs[i].index.Some?
    ensures |r| == |pairs|
  {
    seq(|pairs|, i requires 0 <= i < |pairs| => pairs[i].index.value)
  }

  /** The state of the edge loop: the union--find's component map, the pairs so far and
      the cycle edges so far. */
  datatype State = State(comp: seq<nat>, pairs: seq<Pair>, cycles: seq<nat>)

  /** What the edge loop keeps true: every vertex is either recorded in a pair or is still
      a root, never both, and every edge so far gave either a pair or a cycle. */
  ghost predicate Invariant(n: nat, k: nat, s: State)
  {
    |s.comp| == n && UF.IsComponentMap(s.comp) &&
    (forall i :: 0 <= i < |s.pairs| ==> s.pairs[i].index.Some?) &&
    multiset(Vertices(s.pairs)) + multiset(UF.Fixpoints(s.comp)) == multiset(AllVertices(n)) &&
    |s.pairs| + |s.cycles| == k
  }

  /** One edge of the filtration. Both endpoints in one component: the edge closes a
      cycle. Otherwise the smaller root dies: it is recorded with the edge weight and its
      component is hung below the larger root. */
  function Step(calculator: Calculator, g: WeightedGraph, s: State, e: nat): State
    requires g.Valid() && e < |g.edges| && |s.comp| == g.vertexCount && UF.IsComponentMap(s.comp)
  {
    var ru, rv := s.comp[g.edges[e].0], s.comp[g.edges[e].1];
    if ru == rv then s.(cycles := s.cycles + [e])
    else
      var younger, older := if ru < rv then ru else rv, if ru < rv then rv else ru;
      State(UF.Relink(s.comp, younger, older),
            s.pairs + [Pair(Birth(calculator, g, younger), g.weights[e], Some(younger))],
            s.cycles)
  }

  /** An edge inside one component only adds itself to the cycle edges. */
  lemma StepCycle(calculator: Calculator, g: WeightedGraph, s: State, e: nat) returns (s': State)
    requires g.Valid() && e < |g.edges| && |s.comp| == g.vertexCount && UF.IsComponentMap(s.comp)
    requires s.comp[g.edges[e].0] == s.comp[g.edges[e].1]
    ensures s' == Step(calculator, g, s, e) == s.(cycles := s.cycles + [e])
  {
    s' := s.(cycles := s.cycles + [e]);
  }

  /** An edge between the components of roots y < o records y and hangs it below o. */
  lemma StepMerge(calculator: Calculator, g: WeightedGraph, s: State, e: nat, y: nat, o: nat) returns (s': State)
    requires g.Valid() && e < |g.edges| && |s.comp| == g.vertexCount && UF.IsComponentMap(s.comp)
    requires y < o
    requires (s.comp[g.edges[e].0], s.comp[g.edges[e].1]) in {(y, o), (o, y)}
    ensures s' == Step(calculator, g, s, e)
    ensures s' == State(UF.Relink(s.comp, y, o), s.pairs + [Pair(Birth(calculator, g, y), g.weights[e], Some(y))], s.cycles)
  {
    s' := Step(calculator, g, s, e);
  }

  /** The edge loop after the first k edges of the filtration order. */
  function Run(calculator: Calculator, g: WeightedGraph, order: seq<nat>, k: nat): (s: State)
    requires g.Valid() && k <= |order|
    requires forall i :: 0 <= i < |order| ==> order[i] < |g.edges|
    ensures |s.comp| == g.vertexCount && UF.IsComponentMap(s.comp)
    ensures forall i :: 0 <= i < |s.cycles| ==> s.cycles[i] < |g.edges|
  {
    if k == 0 then
      InitialInvariant(g.vertexCount);
      State(AllVertices(g.vertexCount), [], [])
    else
      var s := Run(calculator, g, order, k - 1);
      StepKeepsComponentMap(calculator, g, s, order[k - 1]);
      Step(calculator, g, s, order[k - 1])
  }

  /** After k edges every vertex is recorded in a pair or still a root, never both. */
  lemma {:induction false} RunInvariant(calculator: Calculator, g: WeightedGraph, order: seq<nat>, k: nat)
    requires g.Valid() && k <= |order|
    requires forall i :: 0 <= i < |order| ==> order[i] < |g.edges|
    ensures Invariant(g.vertexCount, k, Run(calculator, g, order, k))
  {
    if k == 0 {
      InitialInvariant(g.vertexCount);
    } else {
      RunInvariant(calculator, g, order, k - 1);
      StepKeepsInvariant(calculator, g, Run(calculator, g, order, k - 1), order[k - 1], k - 1);
    }
  }

  lemma StepKeepsComponentMap(calculator: Calculator, g: WeightedGraph, s: State, e: nat)
    requires g.Valid() && e < |g.edges| && |s.comp| == g.vertexCount && UF.IsComponentMap(s.comp)
    requires forall i :: 0 <= i < |s.cycles| ==> s.cycles[i] < |g.edges|
    ensures var s' := Step(calculator, g, s, e);
            |s'.comp| == g.vertexCount && UF.IsComponentMap(s'.comp) &&
            forall i :: 0 <= i < |s'.cycles| ==> s'.cycles[i] < |g.edges|
  {
    var ru, rv := s.comp[g.edges[e].0], s.comp[g.edges[e].1];
    if ru != rv {
      var younger, older := if ru < rv then ru else rv, if ru < rv then rv else ru;
      assert s.comp[younger] == younger && s.comp[older] == older;
      RelinkIsComponentMap(s.comp, younger, older);
    }
  }

  /** Before the first edge every vertex is its own root and no pair exists. */
  lemma InitialInvariant(n: nat)
    ensures Invariant(n, 0, State(AllVertices(n), [], []))
  {
    var c := AllVertices(n);
    FixpointsOfIdentity(n, n);
    assert c[..n] == c;
    assert Vertices([]) == [];
  }

  lemma {:induction false} FixpointsOfIdentity(n: nat, k: nat)
    requires k <= n
    ensures UF.Fixpoints(AllVertices(n)[..k]) == AllVertices(k)
  {
    if k > 0 {
      FixpointsOfIdentity(n, k - 1);
      UF.FixpointsSnoc(AllVertices(n), k - 1);
    }
  }

  lemma StepKeepsInvariant(calculator: Calculator, g: WeightedGraph, s: State, e: nat, k: nat)
    requires g.Valid() && e < |g.edges| && Invariant(g.vertexCount, k, s)
    ensures Invariant(g.vertexCount, k + 1, Step(calculator, g, s, e))
  {
    var ru, rv := s.comp[g.edges[e].0], s.comp[g.edges[e].1];
    if ru != rv {
      var younger, older := if ru < rv then ru else rv, if ru < rv then rv else ru;
      assert s.comp[younger] == younger && s.comp[older] == older;
      MergeKeepsInvariant(g.vertexCount, k, s, younger, older,
                          Pair(Birth(calculator, g, younger), g.weights[e], Some(younger)));
    }
  }

  /** Recording root a in a pair and hanging it below root b keeps the invariant. */
  lemma MergeKeepsInvariant(n: nat, k: nat, s: State, a: nat, b: nat, p: Pair)
    requires Invariant(n, k, s) && a < n && b < n && a != b && s.comp[a] == a && s.comp[b] == b
    requires p.index == Some(a)
    ensures Invariant(n, k + 1, State(UF.Relink(s.comp, a, b), s.pairs + [p], s.cycles))
  {
    RelinkIsComponentMap(s.comp, a, b);
    var pairs' := s.pairs + [p];
    assert Vertices(pairs') == Vertices(s.pairs) + [a];
    FixpointsRelinkAll(s.comp, a, b);
  }

  lemma FixpointsRelinkAll(c: seq<nat>, a: nat, b: nat)
    requires UF.IsComponentMap(c) && a < |c| && b < |c| && c[a] == a && c[b] == b && a != b
    ensures multiset(UF.Fixpoints(UF.Relink(c, a, b))) + multiset{a} == multiset(UF.Fixpoints(c))
  {
    FixpointsRelink(c, a, b, |c|);
    assert c[..|c|] == c;
    assert UF.Relink(c, a, b)[..|c|] == UF.Relink(c, a, b);
  }

  lemma RelinkIsComponentMap(c: seq<nat>, a: nat, b: nat)
    requires UF.IsComponentMap(c) && a < |c| && b < |c| && c[a] == a && c[b] == b && a != b
    ensures UF.IsComponentMap(UF.Relink(c, a, b))
  {
  }

  /** Hanging root a below root b removes exactly a from the roots. */
  lemma {:induction false} FixpointsRelink(c: seq<nat>, a: nat, b: nat, k: nat)
    requires UF.IsComponentMap(c) && a < |c| && b < |c| && c[a] == a && c[b] == b && a != b && k <= |c|
    ensures multiset(UF.Fixpoints(UF.Relink(c, a, b)[..k])) + (if a < k then multiset{a} else multiset{}) ==
            multiset(UF.Fixpoints(c[..k]))
  {
    var r := UF.Relink(c, a, b);
    forall x | 0 <= x < |c|
      ensures r[x] == x <==> c[x] == x && x != a
    {
    }
    FixpointsDrop(c, r, a, k);
  }

  /** If r has the fixpoints of c except a, its prefixes lose a and keep the rest. */
  lemma {:induction false} FixpointsDrop(c: seq<nat>, r: seq<nat>, a: nat, k: nat)
    requires |r| == |c| && k <= |c|
    requires forall x :: 0 <= x < |c| ==> (r[x] == x <==> c[x] == x && x != a)
    requires a < |c| && c[a] == a
    ensures multiset(UF.Fixpoints(r[..k])) + (if a < k then multiset{a} else multiset{}) ==
            multiset(UF.Fixpoints(c[..k]))
  {
    if k > 0 {
      var x := k - 1;
      FixpointsDrop(c, r, a, x);
      UF.FixpointsSnoc(r, x);
      UF.FixpointsSnoc(c, x);
      var fr, fc := UF.Fixpoints(r[..x]), UF.Fixpoints(c[..x]);
      var extra := if a < x then multiset{a} else multiset{};
      assert multiset(fr) + extra == multiset(fc);
      if x == a {
        assert UF.Fixpoints(c[..k]) == fc + [x] && UF.Fixpoints(r[..k]) == fr;
        assert multiset(fc + [x]) == multiset(fc) + multiset{x};
      } else if c[x] == x {
        assert UF.Fixpoints(c[..k]) == fc + [x] && UF.Fixpoints(r[..k]) == fr + [x];
        assert multiset(fc + [x]) == multiset(fc) + multiset{x};
        assert multiset(fr + [x]) == multiset(fr) + multiset{x};
      } else {
        assert UF.Fixpoints(c[..k]) == fc && UF.Fixpoints(r[..k]) == fr;
      }
    }
  }

  /** The surviving roots are vertices. */
  lemma RootsAreVertices(n: nat, s: State)
    requires |s.comp| == n && UF.IsComponentMap(s.comp)
    ensures forall i :: 0 <= i < |UF.Fixpoints(s.comp)| ==> UF.Fixpoints(s.comp)[i] < n
  {
    UF.FixpointsAreFixed(s.comp);
  }

  /** The result of `fit_transform`: the diagram's pairs and Betti number, and the cycle edges. */
  datatype Output = Output(pairs: seq<Pair>, betti: Option<int>, cycles: seq<nat>)

  /** One pair per surviving root, created at the root's birth and destroyed at `unpaired`. */
  function RootPairs(calculator: Calculator, g: WeightedGraph, roots: seq<nat>, unpaired: real): (r: seq<Pair>)
    requires g.Valid() && forall i :: 0 <= i < |roots| ==> roots[i] < g.vertexCount
    ensures |r| == |roots|
  {
    seq(|roots|, i requires 0 <= i < |roots| => Pair(Birth(calculator, g, roots[i]), unpaired, Some(roots[i])))
  }

  /** The destruction value of the root pairs: the last edge weight in filtration order,
      unless a truthy `unpaired_value` was configured. */
  function UnpairedValue(calculator: Calculator, g: WeightedGraph): real
    requires g.Valid() && |g.edges| > 0
  {
    var order := FiltrationOrder(calculator.order, g.weights);
    if Truthy(calculator.unpairedValue) then calculator.unpairedValue.value else g.weights[order[|order| - 1]]
  }

  /** The edge loop over all edges in filtration order. */
  function EdgeLoop(calculator: Calculator, g: WeightedGraph): (s: State)
    requires g.Valid()
    ensures |s.comp| == g.vertexCount && UF.IsComponentMap(s.comp)
  {
    var order := FiltrationOrder(calculator.order, g.weights);
    Run(calculator, g, order, |order|)
  }

  /** After the edge loop every vertex is recorded in a pair or is a surviving root. */
  lemma EdgeLoopInvariant(calculator: Calculator, g: WeightedGraph)
    requires g.Valid()
    ensures Invariant(g.vertexCount, |g.edges|, EdgeLoop(calculator, g))
  {
    var order := FiltrationOrder(calculator.order, g.weights);
    RunInvariant(calculator, g, order, |order|);
  }

  /** `fit_transform(graph)`: a graph without edges fails when the unpaired value is read;
      a configured vertex attribute the graph lacks fails when it is first read. */
  function Diagram(calculator: Calculator, g: WeightedGraph): (r: Result<Output>)
    requires g.Valid()
    ensures r.Err? <==> |g.edges| == 0 || AttributeMissing(calculator, g)
  {
    if |g.edges| == 0 then Err(IndexError)
    else if AttributeMissing(calculator, g) then Err(KeyError)
    else
      var s := EdgeLoop(calculator, g);
      var roots := UF.Fixpoints(s.comp);
      RootsAreVertices(g.vertexCount, s);
      Ok(Output(s.pairs + RootPairs(calculator, g, roots, UnpairedValue(calculator, g)),
                if |roots| == 0 then None else Some(|roots|),
                s.cycles))
  }

  /** Every pair of a successful calculation records a vertex, and every vertex is recorded
      exactly once: the diagram has one pair per vertex. */
  lemma DiagramIndicesArePermutation(calculator: Calculator, g: WeightedGraph)
    requires g.Valid() && Diagram(calculator, g).Ok?
    ensures var pairs := Diagram(calculator, g).value.pairs;
            (forall i :: 0 <= i < |pairs| ==> pairs[i].index.Some?) &&
            multiset(Vertices(pairs)) == multiset(AllVertices(g.vertexCount)) &&
            |pairs| == g.vertexCount
  {
    var s := EdgeLoop(calculator, g);
    EdgeLoopInvariant(calculator, g);
    RootsAreVertices(g.vertexCount, s);
    var roots := UF.Fixpoints(s.comp);
    var rp := RootPairs(calculator, g, roots, UnpairedValue(calculator, g));
    assert Diagram(calculator, g).value.pairs == s.pairs + rp;
    RootPairsCompletePermutation(g.vertexCount, |g.edges|, s, rp);
  }

  /** Adding one pair per surviving root to the pairs of the edge loop records every vertex
      exactly once. */
  lemma RootPairsCompletePermutation(n: nat, k: nat, s: State, rp: seq<Pair>)
    requires Invariant(n, k, s)
    requires |rp| == |UF.Fixpoints(s.comp)|
    requires forall i :: 0 <= i < |rp| ==> rp[i].index == Some(UF.Fixpoints(s.comp)[i])
    ensures forall i :: 0 <= i < |s.pairs + rp| ==> (s.pairs + rp)[i].index.Some?
    ensures multiset(Vertices(s.pairs + rp)) == multiset(AllVertices(n))
    ensures |s.pairs + rp| == n
  {
    var roots := UF.Fixpoints(s.comp);
    assert Vertices(s.pairs + rp) == Vertices(s.pairs) + roots;
    assert |multiset(AllVertices(n))| == n;
  }

  /** The Betti number counts the surviving roots; a graph with an edge has at least one. */
  lemma DiagramBetti(calculator: Calculator, g: WeightedGraph)
    requires g.Valid() && Diagram(calculator, g).Ok?
    ensures var s := EdgeLoop(calculator, g);
            Diagram(calculator, g).value.betti == Some(|UF.Fixpoints(s.comp)|) &&
            1 <= |UF.Fixpoints(s.comp)| <= g.vertexCount
  {
    var s := EdgeLoop(calculator, g);
    var e := g.edges[0];
    UF.FixpointsAreFixed(s.comp);
    assert s.comp[s.comp[e.0]] == s.comp[e.0];
    assert s.comp[e.0] in UF.Fixpoints(s.comp);
    DiagramIndicesArePermutation(calculator, g);
  }

  /** The identity checked at run time by the feature generator: the number of cycle edges
      is the number of edges minus the number of vertices plus the Betti number. */
  lemma DiagramEuler(calculator: Calculator, g: WeightedGraph)
    requires g.Valid() && Diagram(calculator, g).Ok?
    ensures var d := Diagram(calculator, g).value;
            d.betti.Some? && |d.cycles| == |g.edges| - g.vertexCount + d.betti.value
  {
    var s := EdgeLoop(calculator, g);
    EdgeLoopInvariant(calculator, g);
    DiagramBetti(calculator, g);
    DiagramIndicesArePermutation(calculator, g);
    var roots := UF.Fixpoints(s.comp);
    assert |Diagram(calculator, g).value.pairs| == |s.pairs| + |roots|;
  }

  /** Unless overridden, the surviving roots die at the largest edge weight (sublevel) or
      at the smallest one (superlevel). */
  lemma UnpairedValueIsExtreme(calculator: Calculator, g: WeightedGraph)
    requires g.Valid() && |g.edges| > 0 && !Truthy(calculator.unpairedValue)
    ensures UnpairedValue(calculator, g) in g.weights
    ensures forall e :: 0 <= e < |g.weights| ==>
              if calculator.order == Sublevel then g.weights[e] <= UnpairedValue(calculator, g)
              else g.weights[e] >= UnpairedValue(calculator, g)
  {
    var order := FiltrationOrder(calculator.order, g.weights);
    FiltrationOrderIsStableSort(calculator.order, g.weights);
    var last := |order| - 1;
    assert UnpairedValue(calculator, g) == g.weights[order[last]];
    forall e | 0 <= e < |g.weights|
      ensures if calculator.order == Sublevel then g.weights[e] <= UnpairedValue(calculator, g)
              else g.weights[e] >= UnpairedValue(calculator, g)
    {
      assert e in order;
      var i :| 0 <= i < |order| && order[i] == e;
      if i < last {
        FiltrationOrderMonotone(calculator.order, g.weights, i, last);
      }
    }
  }

  /** One pass of the edge loop of `fit_transform`: the edge either closes a cycle, or the
      younger of the two roots dies, recorded with the edge weight, and is merged into the
      older one. `missing` reports the KeyError of a configured attribute the graph lacks. */
  method ProcessEdge(calculator: Calculator, g: WeightedGraph, uf: UF.UnionFind, pd: PersistenceDiagram,
                     edgeIndices: seq<nat>, i: nat, cycles: seq<nat>, ghost st: State)
    returns (cycles': seq<nat>, missing: bool, ghost st': State)
    requires g.Valid() && i < |edgeIndices| && forall j :: 0 <= j < |edgeIndices| ==> edgeIndices[j] < |g.edges|
    requires st == Run(calculator, g, edgeIndices, i)
    requires uf.Valid() && |uf.parent| == g.vertexCount
    requires uf.Components() == st.comp && pd.pairs == st.pairs && cycles == st.cycles
    modifies uf, pd
    ensures uf.Valid() && |uf.parent| == g.vertexCount && pd.betti == old(pd.betti)
    ensures missing ==> AttributeMissing(calculator, g)
    ensures !missing ==> st' == Run(calculator, g, edgeIndices, i + 1) &&
                         uf.Components() == st'.comp && pd.pairs == st'.pairs && cycles' == st'.cycles
  {
    var edgeIndex := edgeIndices[i];
    assert Run(calculator, g, edgeIndices, i + 1) == Step(calculator, g, st, edgeIndex);
    var edgeWeight := g.weights[edgeIndex];
    var u, v := g.edges[edgeIndex].0, g.edges[edgeIndex].1;
    var younger := uf.Find(u);
    var older := uf.Find(v);
    if younger == older {
      st' := StepCycle(calculator, g, st, edgeIndex);
      return cycles + [edgeIndex], false, st';
    }
    if younger > older {
      u, v := v, u;
      younger, older := older, younger;
    }
    var vertexWeight := 0.0;
    if UsesAttribute(calculator) {
      if calculator.vertexAttribute.value !in g.attributes {
        return cycles, true, st;
      }
      vertexWeight := g.attributes[calculator.vertexAttribute.value][younger];
    }
    uf.Merge(u, v);
    pd.Append(vertexWeight, edgeWeight, Some(younger));
    st' := StepMerge(calculator, g, st, edgeIndex, younger, older);
    return cycles, false, st';
  }


  /** `PersistenceDiagramCalculator.fit_transform(graph)`: returns the diagram and the cycle
      edges, or the error the source raises. */
  method FitTransform(calculator: Calculator, g: WeightedGraph) returns (result: Result<(PersistenceDiagram, seq<nat>)>)
    requires g.Valid()
    ensures result.Err? <==> Diagram(calculator, g).Err?
    ensures result.Err? ==> result.error == Diagram(calculator, g).error
    ensures result.Ok? ==> fresh(result.value.0) &&
                           result.value.0.pairs == Diagram(calculator, g).value.pairs &&
                           result.value.0.betti == Diagram(calculator, g).value.betti &&
                           result.value.1 == Diagram(calculator, g).value.cycles
  {
    var n := g.vertexCount;
    var uf := new UF.UnionFind(n);
    var edgeIndices := FiltrationOrder(calculator.order, g.weights);
    var pd := new PersistenceDiagram();
    assert uf.Components() == AllVertices(n) == Run(calculator, g, edgeIndices, 0).comp;
    var edgeIndicesCycles, missing, st := EdgeLoopMethod(calculator, g, uf, pd, edgeIndices);
    if missing {
      return Err(KeyError);
    }
    if |edgeIndices| == 0 {
      return Err(IndexError);
    }
    var unpairedValue := g.weights[edgeIndices[|edgeIndices| - 1]];
    if calculator.unpairedValue.Some? && calculator.unpairedValue.value != 0.0 {
      unpairedValue := calculator.unpairedValue.value;
    }
    var roots := uf.Roots();
    RootsAreVertices(n, st);
    RootsNonEmpty(g.vertexCount, st.comp, g.edges[0].0);
    missing := AppendRoots(calculator, g, pd, roots, unpairedValue);
    if missing {
      return Err(KeyError);
    }
    DiagramOfEdgeLoop(calculator, g);
    return Ok((pd, edgeIndicesCycles));
  }

  /** The value of a successful calculation, spelled out from the edge loop's final state. */
  lemma DiagramOfEdgeLoop(calculator: Calculator, g: WeightedGraph)
    requires g.Valid() && |g.edges| > 0 && !AttributeMissing(calculator, g)
    ensures var s := Run(calculator, g, FiltrationOrder(calculator.order, g.weights), |g.edges|);
            var roots := UF.Fixpoints(s.comp);
            (forall i :: 0 <= i < |roots| ==> roots[i] < g.vertexCount) &&
            Diagram(calculator, g) ==
              Ok(Output(s.pairs + RootPairs(calculator, g, roots, UnpairedValue(calculator, g)),
                        if |roots| == 0 then None else Some(|roots|), s.cycles))
  {
    var s := Run(calculator, g, FiltrationOrder(calculator.order, g.weights), |g.edges|);
    RootsAreVertices(g.vertexCount, s);
  }

  /** The edge loop of `fit_transform`, over the edges in filtration order. */
  method EdgeLoopMethod(calculator: Calculator, g: WeightedGraph, uf: UF.UnionFind, pd: PersistenceDiagram,
                        edgeIndices: seq<nat>)
    returns (edgeIndicesCycles: seq<nat>, missing: bool, ghost st: State)
    requires g.Valid() && forall j :: 0 <= j < |edgeIndices| ==> edgeIndices[j] < |g.edges|
    requires uf.Valid() && |uf.parent| == g.vertexCount && uf.Components() == AllVertices(g.vertexCount)
    requires pd.pairs == [] && pd.betti == None
    modifies uf, pd
    ensures uf.Valid() && |uf.parent| == g.vertexCount && pd.betti == None
    ensures missing ==> AttributeMissing(calculator, g) && |edgeIndices| > 0
    ensures !missing ==> st == Run(calculator, g, edgeIndices, |edgeIndices|) &&
                         uf.Components() == st.comp && pd.pairs == st.pairs && edgeIndicesCycles == st.cycles
  {
    edgeIndicesCycles, missing := [], false;
    var i := 0;
    st := Run(calculator, g, edgeIndices, 0);
    assert st.comp == AllVertices(g.vertexCount);
    while i < |edgeIndices|
      invariant i <= |edgeIndices| && uf.Valid() && |uf.parent| == g.vertexCount && pd.betti == None
      invariant st == Run(calculator, g, edgeIndices, i)
      invariant uf.Components() == st.comp && pd.pairs == st.pairs && edgeIndicesCycles == st.cycles
    {
      var cycles, m, st' := ProcessEdge(calculator, g, uf, pd, edgeIndices, i, edgeIndicesCycles, st);
      if m {
        return cycles, true, st';
      }
      edgeIndicesCycles, st := cycles, st';
      i := i + 1;
    }
  }

  /** The roots loop of `fit_transform`: one pair per root, destroyed at `unpairedValue`,
      with the Betti number raised through its setter after each. `missing` reports the
      KeyError of a configured attribute the graph lacks. */
  method AppendRoots(calculator: Calculator, g: WeightedGraph, pd: PersistenceDiagram, roots: seq<nat>, unpairedValue: real)
    returns (missing: bool)
    requires g.Valid() && forall i :: 0 <= i < |roots| ==> roots[i] < g.vertexCount
    requires pd.betti == None
    modifies pd
    ensures missing <==> AttributeMissing(calculator, g) && |roots| > 0
    ensures !missing ==> pd.pairs == old(pd.pairs) + RootPairs(calculator, g, roots, unpairedValue) &&
                         pd.betti == if |roots| == 0 then None else Some(|roots|)
  {
    if |roots| > 0 && AttributeMissing(calculator, g) {
      return true;
    }
    var j := 0;
    while j < |roots|
      invariant j <= |roots|
      invariant pd.pairs == old(pd.pairs) + RootPairs(calculator, g, roots[..j], unpairedValue)
      invariant pd.betti == if j == 0 then None else Some(j)
    {
      var root := roots[j];
      var vertexWeight := 0.0;
      if UsesAttribute(calculator) {
        vertexWeight := g.attributes[calculator.vertexAttribute.value][root];
      }
      pd.Append(vertexWeight, unpairedValue, Some(root));
      assert roots[..j + 1] == roots[..j] + [root];
      var ok;
      if pd.betti.Some? {
        ok := pd.SetBetti(pd.betti.value + 1);
      } else {
        ok := pd.SetBetti(1);
      }
      assert ok.Ok?;
      j := j + 1;
    }
    assert roots[..j] == roots;
    return false;
  }

  /** A graph with a vertex has a root. */
  lemma RootsNonEmpty(n: nat, c: seq<nat>, v: nat)
    requires |c| == n && UF.IsComponentMap(c) && v < n
    ensures |UF.Fixpoints(c)| > 0
  {
    UF.FixpointsAreFixed(c);
    assert c[c[v]] == c[v];
    assert c[v] in UF.Fixpoints(c);
  }

  /** The number of leading edges whose endpoints both have a value in `attributes`: the
      loop of `assign_filtration_values` raises IndexError at the first edge past them. */
  function Covered(edges: seq<(nat, nat)>, attributes: seq<real>): (k: nat)
    ensures k <= |edges|
    ensures forall e :: 0 <= e < k ==> edges[e].0 < |attributes| && edges[e].1 < |attributes|
    ensures k < |edges| ==> edges[k].0 >= |attributes| || edges[k].1 >= |attributes|
  {
    if edges == [] || edges[0].0 >= |attributes| || edges[0].1 >= |attributes| then 0
    else 1 + Covered(edges[1..], attributes)
  }

  /** `w` is the larger (order 'sublevel') or else the smaller of the values s and t. */
  predicate FiltrationValue(order: string, w: real, s: real, t: real)
  {
    (w == s || w == t) &&
    (if order == "sublevel" then w >= s && w >= t else w <= s && w <= t)
  }

  /** `assign_filtration_values(graph, attributes, order, normalize=False)`: every edge gets
      the larger (order 'sublevel') or else the smaller of its endpoint values, divided by
      the offset 1.0. An endpoint without a value raises IndexError; the edges before it
      have been updated and the rest keep their weights. */
  method AssignFiltrationValues(edges: seq<(nat, nat)>, weights: array<real>, attributes: seq<real>, order: string)
    returns (r: Result<()>)
    requires weights.Length == |edges|
    modifies weights
    ensures r.Ok? <==> Covered(edges, attributes) == |edges|
    ensures r.Err? ==> r.error == IndexError
    ensures forall e :: 0 <= e < Covered(edges, attributes) ==>
              FiltrationValue(order, weights[e], attributes[edges[e].0], attributes[edges[e].1])
    ensures forall e :: Covered(edges, attributes) <= e < |edges| ==> weights[e] == old(weights[e])
  {
    var offset := 1.0;
    var i := 0;
    while i < |edges|
      invariant i <= |edges|
      invariant forall e :: 0 <= e < i ==> edges[e].0 < |attributes| && edges[e].1 < |attributes|
      invariant forall e :: 0 <= e < i ==>
                  FiltrationValue(order, weights[e], attributes[edges[e].0], attributes[edges[e].1])
      invariant forall e :: i <= e < |edges| ==> weights[e] == old(weights[e])
    {
      var source, target := edges[i].0, edges[i].1;
      if source >= |attributes| || target >= |attributes| {
        CoveredAt(edges, attributes, i);
        return Err(IndexError);
      }
      var sourceWeight := attributes[source] / offset;
      var targetWeight := attributes[target] / offset;
      var edgeWeight;
      if order == "sublevel" {
        edgeWeight := if sourceWeight >= targetWeight then sourceWeight else targetWeight;
      } else {
        edgeWeight := if sourceWeight <= targetWeight then sourceWeight else targetWeight;
      }
      weights[i] := edgeWeight;
      i := i + 1;
    }
    CoveredAt(edges, attributes, i);
    return Ok(());
  }

  /** A loop that stops at edge k, the first without both values, stops at Covered. */
  lemma {:induction false} CoveredAt(edges: seq<(nat, nat)>, attributes: seq<real>, k: nat)
    requires k <= |edges|
    requires forall e :: 0 <= e < k ==> edges[e].0 < |attributes| && edges[e].1 < |attributes|
    requires k < |edges| ==> edges[k].0 >= |attributes| || edges[k].1 >= |attributes|
    ensures Covered(edges, attributes) == k
  {
    if k > 0 {
      CoveredAt(edges[1..], attributes, k - 1);
    }
  }
}
