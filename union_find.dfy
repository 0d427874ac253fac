/**
  * The union--find structure of topology.py: a list of parent pointers over the vertices
  * 0..n-1, `find` with path compression and the asymmetric `merge`, which hangs the root
  * of u's tree below the root of v's tree. Its meaning is the map from every vertex to the
  * root of its tree (`Components`); a ghost rank that strictly increases towards the roots
  * shows that the pointers form a forest.
  */
module UnionFind {

  /** The largest entry of s (0 for the empty sequence). */
  function MaxOf(s: seq<nat>): (m: nat)
    ensures forall i :: 0 <= i < |s| ==> s[i] <= m
  {
    if s == [] then 0
    else
      var m' := MaxOf(s[..|s| - 1]);
      assert forall i :: 0 <= i < |s| - 1 ==> s[..|s| - 1][i] == s[i];
      if s[|s| - 1] > m' then s[|s| - 1] else m'
  }

  /** Every parent pointer stays inside 0..n-1 and, unless it is a self-loop, leads to a
      vertex of strictly larger rank: the pointers form a forest. */
  ghost predicate IsForest(parent: seq<nat>, rank: seq<nat>)
  {
    |rank| == |parent| &&
    forall u :: 0 <= u < |parent| ==> parent[u] < |parent| && (parent[u] != u ==> rank[u] < rank[parent[u]])
  }

  /** The root of the tree of u, found by following the parent pointers. */
  ghost function Root(parent: seq<nat>, rank: seq<nat>, u: nat): (r: nat)
    requires IsForest(parent, rank) && u < |parent|
    ensures r < |parent| && parent[r] == r
    ensures u != r ==> rank[u] < rank[r]
    decreases MaxOf(rank) - rank[u]
  {
    if parent[u] == u then u else Root(parent, rank, parent[u])
  }

  /** Every entry is an index whose own entry is itself: a map from vertices to roots. */
  ghost predicate IsComponentMap(c: seq<nat>)
  {
    (forall x :: 0 <= x < |c| ==> c[x] < |c|) &&
    (forall x {:trigger c[c[x]]} :: 0 <= x < |c| ==> c[c[x]] == c[x])
  }

  /** The component map: every vertex to the root of its tree. */
  ghost function Comps(parent: seq<nat>, rank: seq<nat>): (c: seq<nat>)
    requires IsForest(parent, rank)
    ensures |c| == |parent| && IsComponentMap(c)
    ensures forall u {:trigger c[u]} :: 0 <= u < |c| ==> (c[u] == u <==> parent[u] == u)
  {
    seq(|parent|, u requires 0 <= u < |parent| => Root(parent, rank, u))
  }

  /** The component map after the component with root a is hung below root b. */
  function Relink(c: seq<nat>, a: nat, b: nat): (c': seq<nat>)
    ensures |c'| == |c|
  {
    seq(|c|, x requires 0 <= x < |c| => if c[x] == a then b else c[x])
  }

  /** The fixpoints of c (the roots, for a component map), in increasing order. */
  function Fixpoints(c: seq<nat>): (r: seq<nat>)
    ensures |r| <= |c|
  {
    if c == [] then []
    else Fixpoints(c[..|c| - 1]) + (if c[|c| - 1] == |c| - 1 then [|c| - 1] else [])
  }

  /** The fixpoints are exactly the x with c[x] == x, listed once each in increasing order. */
  lemma FixpointsAreFixed(c: seq<nat>)
    ensures var r := Fixpoints(c);
            (forall i :: 0 <= i < |r| ==> r[i] < |c| && c[r[i]] == r[i]) &&
            (forall x :: 0 <= x < |c| && c[x] == x ==> x in r) &&
            (forall i, j :: 0 <= i < j < |r| ==> r[i] < r[j])
  {
    FixpointsSound(c);
    FixpointsComplete(c);
  }

  /** Every listed fixpoint is an index x below |c| with c[x] == x, and the list increases. */
  lemma {:induction false} FixpointsSound(c: seq<nat>)
    ensures forall i :: 0 <= i < |Fixpoints(c)| ==> Fixpoints(c)[i] < |c| && c[Fixpoints(c)[i]] == Fixpoints(c)[i]
    ensures forall i, j :: 0 <= i < j < |Fixpoints(c)| ==> Fixpoints(c)[i] < Fixpoints(c)[j]
  {
    if c != [] {
      var n := |c| - 1;
      var t := c[..n];
      FixpointsSound(t);
      var rt := Fixpoints(t);
      assert Fixpoints(c) == rt + (if c[n] == n then [n] else []);
      forall i | 0 <= i < |rt|
        ensures rt[i] < n && c[rt[i]] == rt[i]
      {
        assert t[rt[i]] == c[rt[i]];
      }
    }
  }

  /** Every x with c[x] == x is listed. */
  lemma {:induction false} FixpointsComplete(c: seq<nat>)
    ensures forall x :: 0 <= x < |c| && c[x] == x ==> x in Fixpoints(c)
  {
    if c != [] {
      var n := |c| - 1;
      var t := c[..n];
      FixpointsComplete(t);
      var rt := Fixpoints(t);
      assert Fixpoints(c) == rt + (if c[n] == n then [n] else []);
      forall x | 0 <= x < n && c[x] == x
        ensures x in rt
      {
        assert t[x] == c[x];
      }
    }
  }

  lemma FixpointsSnoc(c: seq<nat>, i: nat)
    requires i < |c|
    ensures Fixpoints(c[..i + 1]) == Fixpoints(c[..i]) + (if c[i] == i then [i] else [])
  {
    assert c[..i + 1][..i] == c[..i];
  }

  /** Hanging a root below itself changes nothing. */
  lemma RelinkSame(c: seq<nat>, a: nat)
    ensures Relink(c, a, a) == c
  {
  }

  /** Pointing u straight at its root keeps the forest and every vertex's root. */
  lemma RedirectToRoot(parent: seq<nat>, rank: seq<nat>, u: nat)
    requires IsForest(parent, rank) && u < |parent|
    ensures IsForest(parent[u := Root(parent, rank, u)], rank)
    ensures Comps(parent[u := Root(parent, rank, u)], rank) == Comps(parent, rank)
  {
    var r := Root(parent, rank, u);
    var parent' := parent[u := r];
    assert IsForest(parent', rank);
    forall x | 0 <= x < |parent|
      ensures Root(parent', rank, x) == Root(parent, rank, x)
    {
      RedirectKeepsRoot(parent, rank, u, x);
    }
  }

  lemma {:induction false} RedirectKeepsRoot(parent: seq<nat>, rank: seq<nat>, u: nat, x: nat)
    requires IsForest(parent, rank) && u < |parent| && x < |parent|
    requires IsForest(parent[u := Root(parent, rank, u)], rank)
    ensures Root(parent[u := Root(parent, rank, u)], rank, x) == Root(parent, rank, x)
    decreases MaxOf(rank) - rank[x]
  {
    var r := Root(parent, rank, u);
    var parent' := parent[u := r];
    if x == u {
      if r != u {
        assert parent'[r] == r;
        assert Root(parent', rank, r) == r;
      }
    } else if parent[x] != x {
      RedirectKeepsRoot(parent, rank, u, parent[x]);
    }
  }

  /** Hanging root a below a different root b keeps a forest (with b's rank raised above
      a's) and moves exactly the vertices of a's component into b's. */
  lemma Attach(parent: seq<nat>, rank: seq<nat>, a: nat, b: nat)
    requires IsForest(parent, rank) && a < |parent| && b < |parent|
    requires parent[a] == a && parent[b] == b && a != b
    ensures IsForest(parent[a := b], rank[b := if rank[b] > rank[a] then rank[b] else rank[a] + 1])
    ensures Comps(parent[a := b], rank[b := if rank[b] > rank[a] then rank[b] else rank[a] + 1]) ==
            Relink(Comps(parent, rank), a, b)
  {
    var parent', rank' := parent[a := b], rank[b := if rank[b] > rank[a] then rank[b] else rank[a] + 1];
    assert IsForest(parent', rank');
    forall x | 0 <= x < |parent|
      ensures Root(parent', rank', x) == Relink(Comps(parent, rank), a, b)[x]
    {
      AttachRoot(parent, rank, a, b, x);
    }
  }

  lemma {:induction false} AttachRoot(parent: seq<nat>, rank: seq<nat>, a: nat, b: nat, x: nat)
    requires IsForest(parent, rank) && a < |parent| && b < |parent| && x < |parent|
    requires parent[a] == a && parent[b] == b && a != b
    requires IsForest(parent[a := b], rank[b := if rank[b] > rank[a] then rank[b] else rank[a] + 1])
    ensures Root(parent[a := b], rank[b := if rank[b] > rank[a] then rank[b] else rank[a] + 1], x) ==
            if Root(parent, rank, x) == a then b else Root(parent, rank, x)
    decreases MaxOf(rank) - rank[x]
  {
    var parent', rank' := parent[a := b], rank[b := if rank[b] > rank[a] then rank[b] else rank[a] + 1];
    if x == a {
      assert Root(parent', rank', b) == b;
    } else if parent[x] != x {
      AttachRoot(parent, rank, a, b, parent[x]);
    }
  }

  /** The ranks after root a is hung below root b: b's rank is raised above a's. */
  function RaisedRank(rank: seq<nat>, a: nat, b: nat): seq<nat>
    requires a < |rank| && b < |rank|
  {
    if a == b then rank else rank[b := if rank[b] > rank[a] then rank[b] else rank[a] + 1]
  }

  /** `_parent[a] = b` for two roots a and b, distinct or not. */
  lemma HangRoot(parent: seq<nat>, rank: seq<nat>, a: nat, b: nat)
    requires IsForest(parent, rank) && a < |parent| && b < |parent|
    requires parent[a] == a && parent[b] == b
    ensures IsForest(parent[a := b], RaisedRank(rank, a, b))
    ensures Comps(parent[a := b], RaisedRank(rank, a, b)) == Relink(Comps(parent, rank), a, b)
  {
    if a == b {
      assert parent[a := b] == parent;
      RelinkSame(Comps(parent, rank), a);
    } else {
      Attach(parent, rank, a, b);
    }
  }

  class UnionFind {
    /** `_parent`: the parent pointer of every vertex. */
    var parent: seq<nat>
    /** Proof-only rank bounding the height of every tree. */
    ghost var rank: seq<nat>

    ghost predicate Valid()
      reads this
    {
      IsForest(parent, rank)
    }

    /** Every vertex mapped to the root of its tree. */
    ghost function Components(): (c: seq<nat>)
      reads this
      requires Valid()
      ensures |c| == |parent|
    {
      Comps(parent, rank)
    }

    /** Every vertex starts as its own parent, so every vertex is its own component. */
    constructor (numVertices: nat)
      ensures Valid() && |parent| == numVertices
      ensures Components() == seq(numVertices, x => x)
    {
      parent := seq(numVertices, x => x);
      rank := seq(numVertices, x => 0);
      new;
      assert IsForest(parent, rank);
    }

    /** The root of u's tree; every vertex on the way now points straight at it. */
    method Find(u: nat) returns (r: nat)
      requires Valid() && u < |parent|
      modifies this
      ensures Valid() && |parent| == |old(parent)| && rank == old(rank)
      ensures Components() == old(Components())
      ensures r == old(Components())[u] && parent[u] == r
      decreases MaxOf(rank) - rank[u]
    {
      if parent[u] == u {
        return u;
      }
      ghost var c0 := Components();
      assert c0[parent[u]] == Root(parent, rank, parent[u]) == Root(parent, rank, u);
      var p := Find(parent[u]);
      RedirectToRoot(parent, rank, u);
      parent := parent[u := p];
      r := parent[u];
      assert r == c0[u];
    }

    /** `merge(u, v)`: the root of u's tree is hung below the root of v's tree (the
        right-hand side `find(v)` runs before `find(u)`). */
    method Merge(u: nat, v: nat)
      requires Valid() && u < |parent| && v < |parent|
      modifies this
      ensures Valid() && |parent| == |old(parent)|
      ensures Components() == Relink(old(Components()), old(Components())[u], old(Components())[v])
    {
      if u != v {
        var rv := Find(v);
        var ru := Find(u);
        assert parent[ru] == ru && parent[rv] == rv by {
          assert Components()[ru] == ru && Components()[rv] == rv;
        }
        HangRoot(parent, rank, ru, rv);
        rank := RaisedRank(rank, ru, rv);
        parent := parent[ru := rv];
      } else {
        RelinkSame(Components(), Components()[u]);
      }
    }

    /** `roots()`: the vertices that are their own parent, in increasing order. */
    method Roots() returns (roots: seq<nat>)
      requires Valid()
      ensures roots == Fixpoints(Components())
    {
      ghost var c := Components();
      roots := [];
      var vertex := 0;
      while vertex < |parent|
        invariant vertex <= |parent|
        invariant roots == Fixpoints(c[..vertex])
      {
        FixpointsSnoc(c, vertex);
        assert parent[vertex] == vertex <==> c[vertex] == vertex;
        if parent[vertex] == vertex {
          roots := roots + [vertex];
        }
        vertex := vertex + 1;
      }
      assert c[..vertex] == c;
    }
  }
}
