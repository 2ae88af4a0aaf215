/** Paths and dominance in a directed graph given by its successor sets. */
module Digraph {

  type Adjacency = seq<set<nat>>

  /** A nonempty node sequence that follows edges. */
  ghost predicate Path(adj: Adjacency, p: seq<nat>)
    decreases |p|
  {
    && |p| > 0 && (forall i :: 0 <= i < |p| ==> p[i] < |adj|)
    && (|p| > 1 ==> Path(adj, p[..|p| - 1]) && p[|p| - 1] in adj[p[|p| - 2]])
  }

  ghost predicate PathTo(adj: Adjacency, roots: set<nat>, b: nat, p: seq<nat>) {
    Path(adj, p) && p[0] in roots && p[|p| - 1] == b
  }

  ghost predicate HasPath(adj: Adjacency, roots: set<nat>, b: nat) {
    exists p :: PathTo(adj, roots, b, p)
  }

  /** Every path from a root to `b` goes through `a`. */
  ghost predicate Dominates(adj: Adjacency, roots: set<nat>, a: nat, b: nat) {
    forall p :: PathTo(adj, roots, b, p) ==> a in p
  }

  /** There is a path from `a` to `b`. */
  ghost predicate Reaches(adj: Adjacency, a: nat, b: nat) {
    exists p :: PathTo(adj, {a}, b, p)
  }

  /** A rank that falls along every edge, with all roots at the same height. */
  ghost predicate Descending(adj: Adjacency, roots: set<nat>, rank: seq<nat>) {
    && |rank| == |adj|
    && (forall a, b {:trigger b in adj[a]} :: 0 <= a < |adj| && b in adj[a] ==> b < |adj| && rank[b] < rank[a])
    && (forall r, s :: r in roots && s in roots ==> r < |adj| && s < |adj| && rank[r] == rank[s])
  }

  lemma NoSelfEdge(adj: Adjacency, roots: set<nat>, rank: seq<nat>, b: nat)
    requires Descending(adj, roots, rank) && b < |adj|
    ensures b !in adj[b]
  {
  }

  lemma {:induction false} RankFalls(adj: Adjacency, roots: set<nat>, rank: seq<nat>, p: seq<nat>)
    requires Descending(adj, roots, rank) && Path(adj, p)
    ensures rank[p[|p| - 1]] <= rank[p[0]]
    ensures |p| > 1 ==> rank[p[|p| - 1]] < rank[p[0]]
    decreases |p|
  {
    if |p| > 1 {
      RankFalls(adj, roots, rank, p[..|p| - 1]);
    }
  }

  /** A root is dominated by itself only. */
  lemma DominatesRoot(adj: Adjacency, roots: set<nat>, rank: seq<nat>, a: nat, r: nat)
    requires Descending(adj, roots, rank) && r in roots
    ensures Dominates(adj, roots, a, r) <==> a == r
  {
    assert PathTo(adj, roots, r, [r]);
    forall p | PathTo(adj, roots, r, p)
      ensures p == [r]
    {
      RankFalls(adj, roots, rank, p);
    }
  }

  /** The defining equation of dominators at any other node. */
  lemma DominatesStep(adj: Adjacency, roots: set<nat>, a: nat, b: nat)
    requires b !in roots && b < |adj|
    ensures Dominates(adj, roots, a, b) <==>
              a == b || forall q :: 0 <= q < |adj| && b in adj[q] ==> Dominates(adj, roots, a, q)
  {
    if Dominates(adj, roots, a, b) && a != b {
      forall q | 0 <= q < |adj| && b in adj[q]
        ensures Dominates(adj, roots, a, q)
      {
        forall p | PathTo(adj, roots, q, p)
          ensures a in p
        {
          assert (p + [b])[..|p|] == p;
          assert PathTo(adj, roots, b, p + [b]);
          assert a in p + [b];
        }
      }
    }
    if a == b || forall q :: 0 <= q < |adj| && b in adj[q] ==> Dominates(adj, roots, a, q) {
      forall p | PathTo(adj, roots, b, p)
        ensures a in p
      {
        var q := p[..|p| - 1];
        assert p[|p| - 1] == b && |p| > 1;
        assert b in adj[p[|p| - 2]] && PathTo(adj, roots, p[|p| - 2], q);
        assert a == b || a in q;
      }
    }
  }

  lemma ReachesSelf(adj: Adjacency, a: nat)
    requires a < |adj|
    ensures Reaches(adj, a, a)
  {
    assert PathTo(adj, {a}, a, [a]);
  }

  /** ... and of reachability. */
  lemma ReachesStep(adj: Adjacency, a: nat, b: nat)
    requires a != b && b < |adj|
    ensures Reaches(adj, a, b) <==> exists q :: 0 <= q < |adj| && b in adj[q] && Reaches(adj, a, q)
  {
    if Reaches(adj, a, b) {
      var p :| PathTo(adj, {a}, b, p);
      var q := p[..|p| - 1];
      assert |p| > 1 && b in adj[p[|p| - 2]];
      assert PathTo(adj, {a}, p[|p| - 2], q);
    }
    if q :| 0 <= q < |adj| && b in adj[q] && Reaches(adj, a, q) {
      var p :| PathTo(adj, {a}, q, p);
      assert (p + [b])[..|p|] == p;
      assert PathTo(adj, {a}, b, p + [b]);
    }
  }
}
