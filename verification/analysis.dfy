/**
 * The optimizer's graph analyses: levels, dominators, edge dominators and the
 * backward closure (find_levels, find_dom, find_edom, find_closure of optimize.c).
 * Bit-vector sets are modelled as sets of block and edge numbers.
 */
module Analysis {
  import opened Words
  import opened Cfg
  import opened Digraph

  /** Length of the longest path from `b` to a leaf. */
  ghost function LevelOf(g: Graph, rank: seq<nat>, b: nat): nat
    requires Ranked(g, rank) && b < |g|
    decreases rank[b]
  {
    if g[b].Leaf? then 0 else Max(LevelOf(g, rank, g[b].jt), LevelOf(g, rank, g[b].jf)) + 1
  }

  lemma {:induction false} CardBound(s: set<nat>, n: nat)
    requires forall x :: x in s ==> x < n
    ensures |s| <= n
  {
    if n == 0 {
      assert s == {};
    } else {
      CardBound(s - {n - 1}, n - 1);
      assert n - 1 in s ==> s == s - {n - 1} + {n - 1};
      assert n - 1 !in s ==> s == s - {n - 1};
    }
  }

  // ---------------------------------------------------------------------
  // The block graph and the edge graph
  // ---------------------------------------------------------------------

  ghost function Blocks(g: Graph): (adj: Adjacency)
    ensures |adj| == |g| && forall b :: 0 <= b < |g| ==> adj[b] == BlockSuccessors(g[b])
  {
    seq(|g|, b requires 0 <= b < |g| => BlockSuccessors(g[b]))
  }

  /** Edge numbers as opt_init assigns them: `et` of block i is i, `ef` is n + i. */
  function EdgeSource(n: nat, e: nat): int { if e < n then e else e - n }

  ghost function EdgeSuccessors(g: Graph, e: nat): set<nat>
    requires e < 2 * |g|
  {
    var b := g[EdgeSource(|g|, e)];
    if b.Leaf? then {} else var t := Successor(b, e < |g|); {t, |g| + t}
  }

  ghost function Edges(g: Graph): (adj: Adjacency)
    ensures |adj| == 2 * |g| && forall e :: 0 <= e < 2 * |g| ==> adj[e] == EdgeSuccessors(g, e)
  {
    seq(2 * |g|, e requires 0 <= e < 2 * |g| => EdgeSuccessors(g, e))
  }

  ghost function EdgeRank(rank: seq<nat>): seq<nat> { rank + rank }

  lemma BlocksDescend(g: Graph, rank: seq<nat>, root: nat)
    requires Ranked(g, rank) && root < |g|
    ensures Descending(Blocks(g), {root}, rank)
  {
  }

  lemma EdgesDescend(g: Graph, rank: seq<nat>, root: nat)
    requires Ranked(g, rank) && root < |g|
    ensures Descending(Edges(g), {root, |g| + root}, EdgeRank(rank))
  {
    forall e | 0 <= e < 2 * |g|
      ensures EdgeRank(rank)[e] == rank[EdgeSource(|g|, e)]
    {
    }
  }

  // ---------------------------------------------------------------------
  // Propagation of intersections and unions down the levels
  // ---------------------------------------------------------------------

  /**
   * The state of an intersection analysis: `sets[c]` holds `a` iff `a` dominates every
   * predecessor of `c` visited so far (or `c` itself was visited and is `a`).
   */
  ghost predicate Intersected(adj: Adjacency, roots: set<nat>, done: set<nat>, sets: seq<set<nat>>) {
    && |sets| == |adj|
    && forall c, a :: 0 <= c < |adj| && 0 <= a < |adj| ==> (a in sets[c] <==> HoldsBit(adj, roots, done, c, a))
  }

  ghost predicate HoldsBit(adj: Adjacency, roots: set<nat>, done: set<nat>, c: nat, a: nat) {
    || (c in done && a == c)
    || (c !in roots && forall q :: q in done && q < |adj| && c in adj[q] ==> Dominates(adj, roots, a, q))
  }

  /** Once all its predecessors are visited, inserting itself makes a node's set exact. */
  lemma VisitExact(adj: Adjacency, roots: set<nat>, rank: seq<nat>, done: set<nat>, b: nat, a: nat)
    requires Descending(adj, roots, rank) && b < |adj| && a < |adj|
    requires forall q :: 0 <= q < |adj| && b in adj[q] ==> q in done || !HasPath(adj, roots, q)
    ensures a == b || HoldsBit(adj, roots, done, b, a) <==> Dominates(adj, roots, a, b)
  {
    if b in roots {
      DominatesRoot(adj, roots, rank, a, b);
    } else {
      DominatesStep(adj, roots, a, b);
    }
  }

  /** The effect of visiting `b` on the bit `a` of another node `c`. */
  lemma VisitOther(adj: Adjacency, roots: set<nat>, done: set<nat>, b: nat, c: nat, a: nat)
    requires b < |adj| && c != b
    ensures c in adj[b] && c !in roots && c !in done ==>
              (HoldsBit(adj, roots, done + {b}, c, a)
               <==> HoldsBit(adj, roots, done, c, a) && Dominates(adj, roots, a, b))
    ensures c !in adj[b] ==> (HoldsBit(adj, roots, done + {b}, c, a) <==> HoldsBit(adj, roots, done, c, a))
  {
  }

  /** Every predecessor of `b` that a path reaches has been visited. */
  ghost predicate PredsDone(adj: Adjacency, roots: set<nat>, done: set<nat>, b: nat) {
    forall q :: 0 <= q < |adj| && b in adj[q] ==> q in done || !HasPath(adj, roots, q)
  }

  /** One visit: `b` joins its own set, and its set is intersected into its successors'. */
  ghost predicate Visited(adj: Adjacency, b: nat, sets: seq<set<nat>>, sets': seq<set<nat>>)
    requires b < |adj| == |sets|
  {
    && |sets'| == |sets|
    && forall c :: 0 <= c < |sets| ==>
         sets'[c] == if c in adj[b] then sets[c] * (sets[b] + {b}) else if c == b then sets[b] + {b} else sets[c]
  }

  lemma VisitNode(adj: Adjacency, roots: set<nat>, rank: seq<nat>, done: set<nat>, b: nat,
                  sets: seq<set<nat>>, sets': seq<set<nat>>)
    requires Descending(adj, roots, rank) && Intersected(adj, roots, done, sets) && b < |adj|
    requires PredsDone(adj, roots, done, b) && Visited(adj, b, sets, sets')
    requires forall c :: c in adj[b] ==> c !in done && c !in roots
    ensures Intersected(adj, roots, done + {b}, sets')
  {
    hide Dominates;
    NoSelfEdge(adj, roots, rank, b);
    forall c, a | 0 <= c < |adj| && 0 <= a < |adj|
      ensures a in sets'[c] <==> HoldsBit(adj, roots, done + {b}, c, a)
    {
      assert a in sets[c] <==> HoldsBit(adj, roots, done, c, a);
      assert a in sets[b] <==> HoldsBit(adj, roots, done, b, a);
      VisitExact(adj, roots, rank, done, b, a);
      if c != b {
        VisitOther(adj, roots, done, b, c, a);
      }
    }
  }

  /** When everything reachable has been visited, the sets are exactly the dominators. */
  lemma VisitedAll(adj: Adjacency, roots: set<nat>, rank: seq<nat>, done: set<nat>, b: nat, a: nat, sets: seq<set<nat>>)
    requires Descending(adj, roots, rank) && Intersected(adj, roots, done, sets)
    requires b in done && b < |adj| && a < |adj| && PredsDone(adj, roots, done, b)
    ensures a in sets[b] <==> Dominates(adj, roots, a, b)
  {
    hide Dominates;
    VisitExact(adj, roots, rank, done, b, a);
    assert a in sets[b] <==> HoldsBit(adj, roots, done, b, a);
  }

  /** The state of the union analysis over the nodes of `live`. */
  ghost predicate United(adj: Adjacency, live: set<nat>, done: set<nat>, sets: seq<set<nat>>) {
    && |sets| == |adj|
    && forall c, a :: 0 <= c < |adj| ==> (a in sets[c] <==> UnionBit(adj, live, done, c, a))
  }

  /** `a` reaches a visited predecessor of `c`, or is the visited `c` itself. */
  ghost predicate UnionBit(adj: Adjacency, live: set<nat>, done: set<nat>, c: nat, a: nat) {
    || (c in done && a == c)
    || exists q :: q in done && q < |adj| && c in adj[q] && a in live && Reaches(adj, a, q)
  }

  ghost predicate UnionVisited(adj: Adjacency, b: nat, sets: seq<set<nat>>, sets': seq<set<nat>>)
    requires b < |adj| == |sets|
  {
    && |sets'| == |sets|
    && forall c :: 0 <= c < |sets| ==>
         sets'[c] == if c in adj[b] then sets[c] + (sets[b] + {b}) else if c == b then sets[b] + {b} else sets[c]
  }

  ghost predicate LiveClosed(adj: Adjacency, live: set<nat>) {
    forall a, q :: a in live && Reaches(adj, a, q) ==> q in live
  }

  lemma UnionExact(adj: Adjacency, live: set<nat>, done: set<nat>, b: nat, a: nat)
    requires b < |adj| && b in live && LiveClosed(adj, live)
    requires forall q :: q in live && q < |adj| && b in adj[q] ==> q in done
    ensures a == b || UnionBit(adj, live, done, b, a) <==> a in live && Reaches(adj, a, b)
  {
    if a == b {
      ReachesSelf(adj, b);
    } else {
      ReachesStep(adj, a, b);
    }
  }

  lemma UnitedAll(adj: Adjacency, live: set<nat>, done: set<nat>, b: nat, a: nat, sets: seq<set<nat>>)
    requires United(adj, live, done, sets) && b < |adj| && b in live && b in done && LiveClosed(adj, live)
    requires forall q :: q in live && q < |adj| && b in adj[q] ==> q in done
    ensures a in sets[b] <==> a in live && Reaches(adj, a, b)
  {
    hide Reaches;
    UnionExact(adj, live, done, b, a);
    assert a in sets[b] <==> UnionBit(adj, live, done, b, a);
  }

  lemma StartUnited(adj: Adjacency, live: set<nat>, sets: seq<set<nat>>)
    requires |sets| == |adj| && forall c :: 0 <= c < |adj| ==> sets[c] == {}
    ensures United(adj, live, {}, sets)
  {
  }

  lemma UnionNode(adj: Adjacency, live: set<nat>, rank: seq<nat>, done: set<nat>, b: nat,
                  sets: seq<set<nat>>, sets': seq<set<nat>>)
    requires b < |adj| && b in live && LiveClosed(adj, live)
    requires Descending(adj, {}, rank) && United(adj, live, done, sets) && UnionVisited(adj, b, sets, sets')
    requires forall q :: q in live && q < |adj| && b in adj[q] ==> q in done
    requires forall c :: c in adj[b] ==> c !in done
    ensures United(adj, live, done + {b}, sets')
  {
    hide Reaches;
    NoSelfEdge(adj, {}, rank, b);
    forall c, a | 0 <= c < |adj|
      ensures a in sets'[c] <==> UnionBit(adj, live, done + {b}, c, a)
    {
      assert a in sets[c] <==> UnionBit(adj, live, done, c, a);
      assert a in sets[b] <==> UnionBit(adj, live, done, b, a);
      UnionExact(adj, live, done, b, a);
      UnionOther(adj, live, done, b, c, a);
    }
  }

  lemma UnionOther(adj: Adjacency, live: set<nat>, done: set<nat>, b: nat, c: nat, a: nat)
    requires b < |adj| && b !in adj[b]
    ensures UnionBit(adj, live, done + {b}, c, a) <==>
              || UnionBit(adj, live, done, c, a)
              || (c == b && a == c)
              || (c in adj[b] && a in live && Reaches(adj, a, b))
  {
    hide Reaches;
  }

  /** All bits of a set over `n` elements. */
  function UpTo(n: nat): (s: set<nat>)
    ensures forall b :: b in s <==> 0 <= b < n
  {
    if n == 0 then {} else UpTo(n - 1) + {n - 1}
  }

  lemma {:induction false} PathStaysInside(g: Graph, s: set<nat>, p: seq<nat>)
    requires Closed(g, s) && Path(Blocks(g), p) && p[0] in s
    ensures forall i :: 0 <= i < |p| ==> p[i] in s
    decreases |p|
  {
    if |p| > 1 {
      PathStaysInside(g, s, p[..|p| - 1]);
      assert p[..|p| - 1][|p| - 2] == p[|p| - 2];
      assert ClosedAt(g, s, p[|p| - 2]);
    }
  }

  lemma {:induction false} EdgePathStaysInside(g: Graph, s: set<nat>, p: seq<nat>)
    requires Closed(g, s) && Path(Edges(g), p) && EdgeSource(|g|, p[0]) in s
    ensures forall i :: 0 <= i < |p| ==> EdgeSource(|g|, p[i]) in s
    decreases |p|
  {
    if |p| > 1 {
      EdgePathStaysInside(g, s, p[..|p| - 1]);
      assert p[..|p| - 1][|p| - 2] == p[|p| - 2];
      assert ClosedAt(g, s, EdgeSource(|g|, p[|p| - 2]));
    }
  }

  ghost predicate InLevel(levels: seq<seq<nat>>, l: nat, b: nat) { l < |levels| && b in levels[l] }

  /** The level lists hold the reached blocks, each under its level. */
  ghost predicate LevelLists(g: Graph, rank: seq<nat>, level: seq<nat>, levels: seq<seq<nat>>, reached: set<nat>)
    requires Ranked(g, rank)
  {
    && |level| == |levels| == |g| && Closed(g, reached) && |reached| <= |g|
    && (forall b :: b in reached ==> level[b] == LevelOf(g, rank, b) && level[b] < |reached| && InLevel(levels, level[b], b))
    && (forall l: nat, b: nat :: InLevel(levels, l, b) ==> b in reached && level[b] == l)
    && (forall l :: 0 <= l < |levels| ==> Distinct(levels[l]))
  }

  lemma LevelListFacts(g: Graph, rank: seq<nat>, level: seq<nat>, levels: seq<seq<nat>>, reached: set<nat>)
    requires Ranked(g, rank) && LevelLists(g, rank, level, levels, reached)
    ensures |level| == |levels| == |g| && Closed(g, reached)
    ensures forall b :: b in reached ==> b < |g| && level[b] == LevelOf(g, rank, b) < |g|
  {
  }

  lemma LevelStep(g: Graph, rank: seq<nat>, b: nat)
    requires Ranked(g, rank) && b < |g|
    ensures g[b].Branch? ==> g[b].jt < |g| && g[b].jf < |g|
    ensures LevelOf(g, rank, b) == if g[b].Leaf? then 0
                                   else Max(LevelOf(g, rank, g[b].jt), LevelOf(g, rank, g[b].jf)) + 1
  {
  }

  lemma AddToLevel(g: Graph, rank: seq<nat>, level: seq<nat>, levels: seq<seq<nat>>, reached: set<nat>, b: nat, l: nat)
    requires Ranked(g, rank) && LevelLists(g, rank, level, levels, reached)
    requires b < |g| && b !in reached
    requires g[b].Branch? ==> g[b].jt in reached && g[b].jf in reached
    requires l == if g[b].Leaf? then 0 else Max(level[g[b].jt], level[g[b].jf]) + 1
    ensures l == LevelOf(g, rank, b) < |g|
    ensures LevelLists(g, rank, level[b := l], levels[l := [b] + levels[l]], reached + {b})
  {
    LevelStep(g, rank, b);
    hide LevelOf, Ranked, Closed, InLevel, Max;
    var r := reached + {b};
    ClosedMembers(g, reached);
    CardBound(r, |g|);
    ClosedAdd(g, reached, b);
    var level', levels' := level[b := l], levels[l := [b] + levels[l]];
    assert |r| == |reached| + 1 && l < |r|;
    assert Distinct([b] + levels[l]) by {
      InLevelIs(levels, l, b);
      assert Distinct(levels[l]);
    }
    forall k: nat, c: nat | InLevel(levels', k, c)
      ensures c in r && level'[c] == k
    {
      InLevelAdd(levels, l, b, k, c);
    }
    forall c | c in r
      ensures level'[c] == LevelOf(g, rank, c) && level'[c] < |r| && InLevel(levels', level'[c], c)
    {
      InLevelAdd(levels, l, b, level'[c], c);
    }
  }

  lemma InLevelIs(levels: seq<seq<nat>>, l: nat, b: nat)
    ensures InLevel(levels, l, b) <==> l < |levels| && b in levels[l]
  {
  }

  lemma InLevelAdd(levels: seq<seq<nat>>, l: nat, b: nat, k: nat, c: nat)
    requires l < |levels|
    ensures InLevel(levels[l := [b] + levels[l]], k, c) <==> InLevel(levels, k, c) || (k == l && c == b)
  {
    assert c in [b] + levels[l] <==> c == b || c in levels[l];
  }

  /** The fields of `opt_state_t` and `struct block` that the analyses fill in. */
  class Analyzer {
    const g: Graph
    const root: nat
    ghost const rank: seq<nat>
    var mark: seq<bool>
    var level: seq<nat>
    var levels: seq<seq<nat>>
    var dom: seq<set<nat>>
    var closure: seq<set<nat>>
    var edom: seq<set<nat>>
    /** Blocks visited by find_levels. */
    ghost var reached: set<nat>

    constructor (g: Graph, root: nat, ghost rank: seq<nat>)
      requires Ranked(g, rank) && root < |g|
      ensures Shape() && this.g == g && this.root == root && this.rank == rank
    {
      this.g, this.root, this.rank := g, root, rank;
      mark, level, levels := seq(|g|, _ => false), seq(|g|, _ => 0), seq(|g|, _ => []);
      dom, closure, edom, reached := [], [], [], {};
    }

    ghost predicate Shape()
      reads this
    {
      Ranked(g, rank) && root < |g| && |mark| == |level| == |levels| == |g|
    }

    ghost predicate Listed()
      requires Shape()
      reads this
    {
      LevelLists(g, rank, level, levels, reached) && forall b :: b in reached ==> mark[b]
    }

    method FindLevelsR(b: nat)
      requires Shape() && Listed() && b < |g|
      requires forall c :: 0 <= c < |g| && mark[c] && c !in reached ==> rank[b] < rank[c]
      modifies this`mark, this`level, this`levels, this`reached
      ensures Shape() && Listed() && old(reached) + {b} <= reached
      ensures forall c :: 0 <= c < |g| ==> (mark[c] <==> old(mark)[c] || c in reached)
      ensures forall c :: c in reached && c !in old(reached) ==> rank[c] <= rank[b] && LevelOf(g, rank, c) <= LevelOf(g, rank, b)
      ensures forall s :: Closed(g, s) && old(reached) + {b} <= s ==> reached <= s
      decreases rank[b]
    {
      hide LevelLists, Closed, LevelOf;
      LevelStep(g, rank, b);
      LevelListFacts(g, rank, level, levels, reached);
      if mark[b] { return; }
      mark := mark[b := true];
      forall s | Closed(g, s) && old(reached) + {b} <= s
        ensures BlockSuccessors(g[b]) <= s
      {
        ClosedHas(g, s, b);
      }
      var l := 0;
      if g[b].Branch? {
        FindLevelsR(g[b].jt);
        FindLevelsR(g[b].jf);
        l := Max(level[g[b].jt], level[g[b].jf]) + 1;
      }
      AddToLevel(g, rank, level, levels, reached, b, l);
      level := level[b := l];
      levels := levels[l := [b] + levels[l]];
      reached := reached + {b};
    }

    /** After find_levels: the lists hold exactly the blocks reachable from the root. */
    ghost predicate Leveled()
      reads this
    {
      && Shape() && LevelLists(g, rank, level, levels, reached) && root in reached
      && (forall s :: Closed(g, s) && root in s ==> reached <= s)
      && (forall b :: b in reached ==> LevelOf(g, rank, b) <= LevelOf(g, rank, root))
    }

    method FindLevels()
      requires Shape()
      modifies this`mark, this`level, this`levels, this`reached
      ensures Leveled()
    {
      mark, levels, reached := seq(|g|, _ => false), seq(|g|, _ => []), {};
      FindLevelsR(root);
    }

    /** Blocks visited when position `i` of level `l` is next. */
    ghost predicate DoneIs(done: set<nat>, l: int, i: nat)
      requires Leveled() && -1 <= l < |g| && (l >= 0 ==> i <= |levels[l]|)
      reads this
    {
      forall b :: b in done <==> b in reached && b < |g| && (level[b] > l || (l >= 0 && b in levels[l][..i]))
    }

    lemma NextIsReady(done: set<nat>, l: nat, i: nat)
      requires Leveled() && l < |g| && i < |levels[l]| && DoneIs(done, l, i)
      ensures var b := levels[l][i];
              && b in reached && b < |g| && level[b] == l
              && PredsDone(Blocks(g), {root}, done, b)
              && (g[b].Branch? ==> g[b].jt !in done && g[b].jf !in done && g[b].jt != root && g[b].jf != root
                                   && g[b].jt < |g| && g[b].jf < |g| && g[b].jt != b && g[b].jf != b)
              && DoneIs(done + {b}, l, i + 1)
    {
      hide LevelOf;
      var b := levels[l][i];
      assert InLevel(levels, l, b);
      LevelListFacts(g, rank, level, levels, reached);
      ClosedHas(g, reached, b);
      LevelStep(g, rank, b);
      assert forall c :: c in levels[l][..i] ==> InLevel(levels, l, c);
      assert levels[l][..i + 1] == levels[l][..i] + [b];
      forall q | 0 <= q < |g| && b in Blocks(g)[q] && HasPath(Blocks(g), {root}, q)
        ensures q in done
      {
        var p :| PathTo(Blocks(g), {root}, q, p);
        PathStaysInside(g, reached, p);
        assert p[|p| - 1] in reached;
        LevelStep(g, rank, q);
        assert level[q] == LevelOf(g, rank, q) && level[b] == LevelOf(g, rank, b);
      }
    }

    /** The body of find_dom's loop. */
    method PropagateDom(b: nat)
      requires Shape() && b < |g| == |dom|
      modifies this`dom
      ensures Visited(Blocks(g), b, old(dom), dom)
    {
      dom := dom[b := dom[b] + {b}];
      if g[b].Branch? {
        dom := dom[g[b].jt := dom[g[b].jt] * dom[b]];
        dom := dom[g[b].jf := dom[g[b].jf] * dom[b]];
      }
    }

    /** find_dom: exact dominators of every reachable block. */
    method FindDom()
      requires Leveled()
      modifies this`dom
      ensures |dom| == |g|
      ensures forall b, a :: b in reached && 0 <= a < |g| ==>
                (a in dom[b] <==> Dominates(Blocks(g), {root}, a, b))
    {
      hide Dominates, LevelLists, Closed, HoldsBit, Visited, LevelOf;
      ghost var adj, done := Blocks(g), {};
      LevelListFacts(g, rank, level, levels, reached);
      BlocksDescend(g, rank, root);
      dom := seq(|g|, _ => UpTo(|g|));
      dom := dom[root := {}];
      assert Intersected(adj, {root}, done, dom) by { StartIntersected(adj, {root}, dom); }
      var l := level[root];
      while l >= 0
        invariant -1 <= l < |g| && Intersected(adj, {root}, done, dom)
        invariant DoneIs(done, l, 0)
      {
        var i := 0;
        while i < |levels[l]|
          invariant 0 <= i <= |levels[l]| && Intersected(adj, {root}, done, dom) && DoneIs(done, l, i)
        {
          var b := levels[l][i];
          NextIsReady(done, l, i);
          ghost var before := dom;
          PropagateDom(b);
          VisitNode(adj, {root}, rank, done, b, before, dom);
          done := done + {b};
          i := i + 1;
        }
        LevelFinished(done, l);
        l := l - 1;
      }
      forall b, a | b in reached && 0 <= a < |g|
        ensures a in dom[b] <==> Dominates(adj, {root}, a, b)
      {
        AllDone(done, b);
        VisitedAll(adj, {root}, rank, done, b, a, dom);
      }
    }

    method PropagateClosure(b: nat)
      requires Shape() && b < |g| == |closure|
      modifies this`closure
      ensures UnionVisited(Blocks(g), b, old(closure), closure)
    {
      closure := closure[b := closure[b] + {b}];
      if g[b].Branch? {
        closure := closure[g[b].jt := closure[g[b].jt] + closure[b]];
        closure := closure[g[b].jf := closure[g[b].jf] + closure[b]];
      }
    }

    /** find_closure: exactly the reachable blocks from which a block can be reached. */
    method FindClosure()
      requires Leveled()
      modifies this`closure
      ensures |closure| == |g|
      ensures forall b, a :: b in reached ==> (a in closure[b] <==> a in reached && Reaches(Blocks(g), a, b))
    {
      hide Reaches, LevelLists, Closed, UnionVisited, LevelOf, UnionBit, LiveClosed, PredsDone;
      ghost var adj, done := Blocks(g), {};
      LevelListFacts(g, rank, level, levels, reached);
      BlocksDescend(g, rank, root);
      ReachedIsClosed();
      closure := seq(|g|, _ => {});
      StartUnited(adj, reached, closure);
      var l := level[root];
      while l >= 0
        invariant -1 <= l < |g| && United(adj, reached, done, closure)
        invariant DoneIs(done, l, 0)
      {
        var i := 0;
        while i < |levels[l]|
          invariant 0 <= i <= |levels[l]| && United(adj, reached, done, closure) && DoneIs(done, l, i)
        {
          var b := levels[l][i];
          NextIsReady(done, l, i);
          ghost var before := closure;
          PropagateClosure(b);
          PredsReached(done, l, i);
          UnionNode(adj, reached, rank, done, b, before, closure);
          done := done + {b};
          i := i + 1;
        }
        LevelFinished(done, l);
        l := l - 1;
      }
      forall b, a | b in reached
        ensures a in closure[b] <==> a in reached && Reaches(adj, a, b)
      {
        AllDone(done, b);
        UnitedAll(adj, reached, done, b, a, closure);
      }
    }

    lemma ReachedIsClosed()
      requires Leveled()
      ensures LiveClosed(Blocks(g), reached)
    {
      forall a, q | a in reached && Reaches(Blocks(g), a, q)
        ensures q in reached
      {
        var p :| PathTo(Blocks(g), {a}, q, p);
        PathStaysInside(g, reached, p);
        assert p[|p| - 1] in reached;
      }
    }

    lemma PredsReached(done: set<nat>, l: nat, i: nat)
      requires Leveled() && l < |g| && i < |levels[l]| && DoneIs(done, l, i)
      ensures forall q :: q in reached && q < |g| && levels[l][i] in Blocks(g)[q] ==> q in done
    {
      hide LevelOf;
      NextIsReady(done, l, i);
      LevelListFacts(g, rank, level, levels, reached);
      forall q | q in reached && q < |g| && levels[l][i] in Blocks(g)[q]
        ensures q in done
      {
        LevelStep(g, rank, q);
      }
    }

    /** propedom. */
    method PropagateEdom(e: nat)
      requires Shape() && e < 2 * |g| == |edom|
      modifies this`edom
      ensures Visited(Edges(g), e, old(edom), edom)
    {
      edom := edom[e := edom[e] + {e}];
      var b := g[EdgeSource(|g|, e)];
      if b.Branch? {
        var t := Successor(b, e < |g|);
        edom := edom[t := edom[t] * edom[e]];
        edom := edom[|g| + t := edom[|g| + t] * edom[e]];
      }
    }

    ghost function RootEdges(): set<nat> { {root, |g| + root} }

    /** The edges leaving the blocks of a set. */
    ghost function EdgesOf(s: set<nat>): set<nat> { s + (set b | b in s :: |g| + b) }

    /** The body of find_edom's loop: both edges of a block. */
    method VisitEdges(b: nat, ghost done: set<nat>, ghost l: nat, ghost i: nat)
      requires Leveled() && l < |g| && i < |levels[l]| && b == levels[l][i] && DoneIs(done, l, i)
      requires Intersected(Edges(g), RootEdges(), EdgesOf(done), edom)
      modifies this`edom
      ensures |edom| == 2 * |g| && Intersected(Edges(g), RootEdges(), EdgesOf(done + {b}), edom)
    {
      hide Dominates, LevelLists, Closed, HoldsBit, Visited, LevelOf, EdgesOf;
      EdgesDescend(g, rank, root);
      EdgeReady(done, l, i);
      ghost var before := edom;
      PropagateEdom(b);
      VisitNode(Edges(g), RootEdges(), EdgeRank(rank), EdgesOf(done), b, before, edom);
      before := edom;
      PropagateEdom(|g| + b);
      VisitNode(Edges(g), RootEdges(), EdgeRank(rank), EdgesOf(done) + {b}, |g| + b, before, edom);
      EdgesOfAdd(done, b);
    }

    /** find_edom: exact edge dominators of every edge that leaves a reachable block. */
    method FindEdom()
      requires Leveled()
      modifies this`edom
      ensures |edom| == 2 * |g|
      ensures forall e, a :: 0 <= e < 2 * |g| && EdgeSource(|g|, e) in reached && 0 <= a < 2 * |g| ==>
                (a in edom[e] <==> Dominates(Edges(g), RootEdges(), a, e))
    {
      hide Dominates, LevelLists, Closed, HoldsBit, LevelOf, Intersected, EdgeSuccessors, BlockSuccessors, PredsDone;
      ghost var adj, roots, done := Edges(g), RootEdges(), {};
      LevelListFacts(g, rank, level, levels, reached);
      EdgesDescend(g, rank, root);
      edom := seq(2 * |g|, _ => UpTo(2 * |g|));
      edom := edom[root := {}];
      edom := edom[|g| + root := {}];
      assert Intersected(adj, roots, EdgesOf(done), edom) by {
        assert EdgesOf(done) == {};
        StartIntersected(adj, roots, edom);
      }
      var l := level[root];
      while l >= 0
        invariant -1 <= l < |g| && |edom| == 2 * |g| && Intersected(adj, roots, EdgesOf(done), edom)
        invariant DoneIs(done, l, 0)
      {
        var i := 0;
        while i < |levels[l]|
          invariant 0 <= i <= |levels[l]| && |edom| == 2 * |g|
          invariant Intersected(adj, roots, EdgesOf(done), edom) && DoneIs(done, l, i)
        {
          var b := levels[l][i];
          NextIsReady(done, l, i);
          VisitEdges(b, done, l, i);
          done := done + {b};
          i := i + 1;
        }
        LevelFinished(done, l);
        l := l - 1;
      }
      forall e, a | 0 <= e < 2 * |g| && EdgeSource(|g|, e) in reached && 0 <= a < 2 * |g|
        ensures a in edom[e] <==> Dominates(adj, roots, a, e)
      {
        AllEdgesDone(done, e);
        VisitedAll(adj, roots, EdgeRank(rank), EdgesOf(done), e, a, edom);
      }
    }

    lemma EdgesOfAdd(done: set<nat>, b: nat)
      ensures EdgesOf(done + {b}) == EdgesOf(done) + {b} + {|g| + b}
    {
    }

    lemma EdgeInside(q: nat)
      requires Leveled() && q < 2 * |g| && HasPath(Edges(g), RootEdges(), q)
      ensures EdgeSource(|g|, q) in reached
    {
      var p :| PathTo(Edges(g), RootEdges(), q, p);
      EdgePathStaysInside(g, reached, p);
      assert EdgeSource(|g|, p[|p| - 1]) in reached;
    }

    /** The edges of the next block have all their predecessors visited, and unvisited successors. */
    lemma EdgeReady(done: set<nat>, l: nat, i: nat)
      requires Leveled() && l < |g| && i < |levels[l]| && DoneIs(done, l, i)
      ensures var b := levels[l][i];
              && b < |g|
              && PredsDone(Edges(g), RootEdges(), EdgesOf(done), b)
              && PredsDone(Edges(g), RootEdges(), EdgesOf(done) + {b}, |g| + b)
              && (forall c :: c in Edges(g)[b] ==> c !in EdgesOf(done) && c !in RootEdges())
              && (forall c :: c in Edges(g)[|g| + b] ==> c !in EdgesOf(done) + {b} && c !in RootEdges())
    {
      hide LevelLists, Path, LevelOf, EdgeSuccessors, HasPath;
      var b := levels[l][i];
      NextIsReady(done, l, i);
      PredsReached(done, l, i);
      forall q, e | 0 <= q < 2 * |g| && (e == b || e == |g| + b) && e in Edges(g)[q] && HasPath(Edges(g), RootEdges(), q)
        ensures q in EdgesOf(done)
      {
        EdgeInside(q);
        EdgeIntoBlock(q, b);
        EdgesOfMember(done, q);
      }
      SuccessorsFresh(done, b, b);
      SuccessorsFresh(done, b, |g| + b);
    }

    lemma EdgeIntoBlock(q: nat, b: nat)
      requires Ranked(g, rank) && q < 2 * |g| && b < |g| && (b in Edges(g)[q] || |g| + b in Edges(g)[q])
      ensures EdgeSource(|g|, q) < |g| && b in Blocks(g)[EdgeSource(|g|, q)]
    {
    }

    lemma EdgesOfMember(s: set<nat>, q: nat)
      requires q < 2 * |g| && EdgeSource(|g|, q) in s
      ensures q in EdgesOf(s)
    {
    }

    lemma SuccessorsFresh(done: set<nat>, b: nat, e: nat)
      requires b < |g| && root < |g| && (e == b || e == |g| + b) && forall c :: c in done ==> c < |g|
      requires g[b].Branch? ==> g[b].jt !in done && g[b].jf !in done && g[b].jt != root && g[b].jf != root
                                && g[b].jt < |g| && g[b].jf < |g| && g[b].jt != b && g[b].jf != b
      ensures forall c :: c in Edges(g)[e] ==> c !in EdgesOf(done) && c !in RootEdges() && c != b
    {
    }

    lemma AllEdgesDone(done: set<nat>, e: nat)
      requires Leveled() && DoneIs(done, -1, 0) && e < 2 * |g| && EdgeSource(|g|, e) in reached
      ensures e in EdgesOf(done) && PredsDone(Edges(g), RootEdges(), EdgesOf(done), e)
    {
      hide LevelOf, LevelLists, EdgesOf, EdgeSuccessors, HasPath, Path;
      AllDone(done, EdgeSource(|g|, e));
      EdgesOfMember(done, e);
      forall q | 0 <= q < 2 * |g| && e in Edges(g)[q] && HasPath(Edges(g), RootEdges(), q)
        ensures q in EdgesOf(done)
      {
        EdgeInside(q);
        AllDone(done, EdgeSource(|g|, q));
        EdgesOfMember(done, q);
      }
    }

    lemma LevelFinished(done: set<nat>, l: nat)
      requires Leveled() && l < |g| && DoneIs(done, l, |levels[l]|)
      ensures DoneIs(done, l - 1, 0)
    {
      hide LevelOf;
      assert levels[l][..|levels[l]|] == levels[l];
      forall b | b in reached
        ensures b < |g| && (b in levels[l] <==> level[b] == l)
      {
        LevelListFacts(g, rank, level, levels, reached);
        assert InLevel(levels, l, b) <==> b in levels[l];
        assert InLevel(levels, level[b], b);
      }
    }

    lemma AllDone(done: set<nat>, b: nat)
      requires Leveled() && DoneIs(done, -1, 0) && b in reached
      ensures b in done && b < |g| && PredsDone(Blocks(g), {root}, done, b)
    {
      hide LevelOf;
      LevelListFacts(g, rank, level, levels, reached);
      forall q | 0 <= q < |g| && b in Blocks(g)[q] && HasPath(Blocks(g), {root}, q)
        ensures q in done
      {
        var p :| PathTo(Blocks(g), {root}, q, p);
        PathStaysInside(g, reached, p);
        assert p[|p| - 1] in reached;
      }
    }
  }

  lemma StartIntersected(adj: Adjacency, roots: set<nat>, sets: seq<set<nat>>)
    requires |sets| == |adj|
    requires forall c :: 0 <= c < |adj| ==> sets[c] == if c in roots then {} else UpTo(|adj|)
    ensures Intersected(adj, roots, {}, sets)
  {
  }
}
