/**
 * Merging equal blocks: eq_slist, eq_blk, mark_code and intern_blocks of optimize.c.
 */
module Interning {
  import opened Words
  import opened Bpf
  import opened Cfg
  import opened Digraph
  import opened Analysis

  /** Blocks that do the same: same terminator and the same statements up to deleted ones. */
  ghost predicate SameBlock(a: Block, b: Block) {
    && Live(a.stmts) == Live(b.stmts) && a.k == b.k
    && (a.Leaf? <==> b.Leaf?)
    && (a.Branch? ==> a.cmp == b.cmp && a.src == b.src && a.jt == b.jt && a.jf == b.jf)
  }

  /** A statement deleted anywhere leaves the block the same as far as interning is concerned. */
  lemma {:induction false} DeletedDoNotCount(b: Block, before: seq<Stmt>, after: seq<Stmt>, k: u32)
    requires b.stmts == before + after
    ensures var stmts := before + [Stmt(Nop, k)] + after;
            SameBlock(b, if b.Leaf? then Leaf(stmts, b.k) else b.(stmts := stmts))
    decreases |before|
  {
    if before == [] {
      assert [] + [Stmt(Nop, k)] + after == [Stmt(Nop, k)] + after && [] + after == after;
      assert ([Stmt(Nop, k)] + after)[1..] == after;
    } else {
      var rest := before[1..];
      DeletedDoNotCount(Leaf(rest + after, 0), rest, after, k);
      assert (before + after)[1..] == rest + after;
      assert (before + [Stmt(Nop, k)] + after)[1..] == rest + [Stmt(Nop, k)] + after;
    }
  }

  lemma {:induction false} LiveSkip(ss: seq<Stmt>, i: nat)
    requires i < |ss|
    ensures Live(ss[i..]) == (if ss[i].op == Nop then [] else [ss[i]]) + Live(ss[i + 1..])
  {
    assert ss[i..][1..] == ss[i + 1..];
  }

  /** eq_slist: lock-step comparison that skips deleted statements on both sides. */
  method EqSlist(x: seq<Stmt>, y: seq<Stmt>) returns (eq: bool)
    ensures eq <==> Live(x) == Live(y)
  {
    hide Live;
    LiveNone();
    assert x[0..] == x && y[0..] == y && x[|x|..] == [] && y[|y|..] == [];
    var i, j := 0, 0;
    while true
      invariant 0 <= i <= |x| && 0 <= j <= |y|
      invariant Live(x) == Live(y) <==> Live(x[i..]) == Live(y[j..])
      decreases |x| - i
    {
      while i < |x| && x[i].op == Nop
        invariant 0 <= i <= |x|
        invariant Live(x) == Live(y) <==> Live(x[i..]) == Live(y[j..])
      {
        LiveSkip(x, i);
        i := i + 1;
      }
      while j < |y| && y[j].op == Nop
        invariant 0 <= j <= |y|
        invariant Live(x) == Live(y) <==> Live(x[i..]) == Live(y[j..])
      {
        LiveSkip(y, j);
        j := j + 1;
      }
      if i < |x| { LiveSkip(x, i); }
      if j < |y| { LiveSkip(y, j); }
      if i == |x| { return j == |y|; }
      if j == |y| { return false; }
      if x[i] != y[j] {
        assert Live(x[i..])[0] == x[i] && Live(y[j..])[0] == y[j];
        return false;
      }
      assert Live(x[i..])[1..] == Live(x[i + 1..]) && Live(y[j..])[1..] == Live(y[j + 1..]);
      i, j := i + 1, j + 1;
    }
  }

  lemma LiveNone()
    ensures Live([]) == []
  {
  }

  method EqBlk(a: Block, b: Block) returns (eq: bool)
    ensures eq <==> SameBlock(a, b)
  {
    if a.Leaf? != b.Leaf? || a.k != b.k { return false; }
    if a.Branch? && (a.cmp != b.cmp || a.src != b.src || a.jt != b.jt || a.jf != b.jf) { return false; }
    eq := EqSlist(a.stmts, b.stmts);
  }

  // ---------------------------------------------------------------------
  // Levels as ranks
  // ---------------------------------------------------------------------

  /** `lev` is the exact level of every block, reachable or not. */
  ghost predicate Levels(g: Graph, lev: seq<nat>) {
    && |lev| == |g|
    && forall b :: 0 <= b < |g| ==> LevelAt(g, lev, b)
  }

  ghost predicate LevelAt(g: Graph, lev: seq<nat>, b: nat)
    requires b < |g| == |lev|
  {
    if g[b].Leaf? then lev[b] == 0
    else g[b].jt < |g| && g[b].jf < |g| && lev[b] == Max(lev[g[b].jt], lev[g[b].jf]) + 1
  }

  lemma LevelsRank(g: Graph, lev: seq<nat>)
    requires Levels(g, lev)
    ensures Ranked(g, lev)
  {
    forall b | 0 <= b < |g| && g[b].Branch?
      ensures g[b].jt < |g| && lev[g[b].jt] < lev[b] && g[b].jf < |g| && lev[g[b].jf] < lev[b]
    {
      assert LevelAt(g, lev, b);
    }
  }

  /** Any acyclic graph has such levels. */
  lemma LevelsExist(g: Graph, rank: seq<nat>) returns (lev: seq<nat>)
    requires Ranked(g, rank)
    ensures Levels(g, lev)
  {
    lev := seq(|g|, b requires 0 <= b < |g| => LevelOf(g, rank, b));
    forall b | 0 <= b < |g|
      ensures LevelAt(g, lev, b)
    {
      LevelStep(g, rank, b);
    }
  }

  lemma SameBlockSameLevel(g: Graph, lev: seq<nat>, a: nat, b: nat)
    requires Levels(g, lev) && a < |g| && b < |g| && SameBlock(g[a], g[b])
    ensures lev[a] == lev[b]
  {
    assert LevelAt(g, lev, a) && LevelAt(g, lev, b);
  }

  // ---------------------------------------------------------------------
  // Redirecting edges to representatives
  // ---------------------------------------------------------------------

  type Links = seq<Option<nat>>

  function Follow(link: Links, b: nat): nat
    requires b < |link|
  {
    if link[b].Some? then link[b].value else b
  }

  /** Links lead to equal blocks that are not themselves linked away. */
  ghost predicate Representatives(g: Graph, link: Links) {
    && |link| == |g|
    && forall b :: 0 <= b < |g| && link[b].Some? ==>
         link[b].value < |g| && SameBlock(g[b], g[link[b].value]) && link[link[b].value] == None
  }

  ghost function RedirectBlock(b: Block, link: Links): Block
    requires b.Branch? ==> b.jt < |link| && b.jf < |link|
  {
    if b.Leaf? then b else b.(jt := Follow(link, b.jt), jf := Follow(link, b.jf))
  }

  ghost predicate Redirected(g: Graph, link: Links, g': Graph)
    requires |link| == |g| && forall b :: 0 <= b < |g| && g[b].Branch? ==> g[b].jt < |g| && g[b].jf < |g|
  {
    |g'| == |g| && forall b :: 0 <= b < |g| ==> g'[b] == RedirectBlock(g[b], link)
  }

  lemma RedirectLevels(g: Graph, lev: seq<nat>, link: Links, g': Graph)
    requires Levels(g, lev) && Representatives(g, link) && Ranked(g, lev) && Redirected(g, link, g')
    ensures Levels(g', lev)
  {
    forall b | 0 <= b < |g|
      ensures LevelAt(g', lev, b)
    {
      assert LevelAt(g, lev, b);
      if g[b].Branch? {
        if link[g[b].jt].Some? { SameBlockSameLevel(g, lev, g[b].jt, link[g[b].jt].value); }
        if link[g[b].jf].Some? { SameBlockSameLevel(g, lev, g[b].jf, link[g[b].jf].value); }
      }
    }
  }

  lemma SameBlockWalk(g: Graph, rank: seq<nat>, a: nat, b: nat, env: Env, st: State)
    requires Ranked(g, rank) && a < |g| && b < |g| && SameBlock(g[a], g[b])
    ensures Walk(g, rank, a, env, st) == Walk(g, rank, b, env, st)
  {
    hide ExecList, Compare;
    LiveExec(g[a].stmts, env, st);
    LiveExec(g[b].stmts, env, st);
  }

  /** Redirection keeps what every block does. */
  lemma {:induction false} RedirectWalk(g: Graph, lev: seq<nat>, link: Links, g': Graph, b: nat, env: Env, st: State)
    requires Ranked(g, lev) && Ranked(g', lev) && Representatives(g, link) && Redirected(g, link, g') && b < |g|
    ensures Walk(g', lev, b, env, st) == Walk(g, lev, b, env, st)
    decreases lev[b]
  {
    hide ExecList, Compare, SameBlock;
    var e := ExecList(g[b].stmts, env, st);
    assert g'[b] == RedirectBlock(g[b], link);
    if e.Next? && g[b].Branch? {
      var c := Successor(g[b], Taken(g[b], e.st));
      var r := Follow(link, c);
      RedirectWalk(g, lev, link, g', r, env, e.st);
      if link[c].Some? {
        SameBlockWalk(g, lev, c, r, env, e.st);
      }
    }
  }

  // ---------------------------------------------------------------------
  // Reachable blocks
  // ---------------------------------------------------------------------

  ghost function ReachSet(g: Graph, root: nat): set<nat> {
    set b | b in UpTo(|g|) && Reaches(Blocks(g), root, b)
  }

  ghost predicate Wired(g: Graph) {
    forall b :: 0 <= b < |g| && g[b].Branch? ==> g[b].jt < |g| && g[b].jf < |g|
  }

  lemma ReachSetClosed(g: Graph, root: nat)
    requires Wired(g) && root < |g|
    ensures root in ReachSet(g, root) && Closed(g, ReachSet(g, root))
  {
    ReachesSelf(Blocks(g), root);
    var s := ReachSet(g, root);
    forall b | b in s
      ensures ClosedAt(g, s, b)
    {
      forall c | c in BlockSuccessors(g[b])
        ensures c in s
      {
        assert c in Blocks(g)[b];
        if c == root {
          ReachesSelf(Blocks(g), root);
        } else {
          ReachesStep(Blocks(g), root, c);
        }
      }
    }
  }

  lemma ReachSetLeast(g: Graph, root: nat, s: set<nat>)
    requires Closed(g, s) && root in s
    ensures ReachSet(g, root) <= s
  {
    forall b | b in ReachSet(g, root)
      ensures b in s
    {
      var p :| PathTo(Blocks(g), {root}, b, p);
      PathStaysInside(g, s, p);
      assert p[|p| - 1] in s;
    }
  }

  /** A reachable block other than the root has a reachable predecessor. */
  lemma ReachedFrom(g: Graph, root: nat, b: nat) returns (q: nat)
    requires b in ReachSet(g, root) && b != root
    ensures q in ReachSet(g, root) && q < |g| && g[q].Branch? && (g[q].jt == b || g[q].jf == b)
  {
    ReachesStep(Blocks(g), root, b);
    q :| 0 <= q < |g| && b in Blocks(g)[q] && Reaches(Blocks(g), root, q);
  }

  /** The root is not equal to any other block it reaches. */
  lemma NoRootTwin(g: Graph, lev: seq<nat>, root: nat, b: nat)
    requires Levels(g, lev) && root < |g| && b in ReachSet(g, root) && b != root
    ensures !SameBlock(g[root], g[b])
  {
    LevelsRank(g, lev);
    BlocksDescend(g, lev, root);
    var p :| PathTo(Blocks(g), {root}, b, p);
    RankFalls(Blocks(g), {root}, lev, p);
    if SameBlock(g[root], g[b]) {
      SameBlockSameLevel(g, lev, root, b);
    }
  }

  /** What the search for equal blocks establishes before any edge is moved. */
  ghost predicate LinksComplete(g: Graph, root: nat, link: Links) {
    && Representatives(g, link)
    && (forall b :: 0 <= b < |g| && link[b].Some? ==>
          b in ReachSet(g, root) && link[b].value in ReachSet(g, root) && link[b].value > b)
    && (forall b, c :: b in ReachSet(g, root) && c in ReachSet(g, root) && b < c < |g| && SameBlock(g[b], g[c]) ==>
          link[b].Some?)
  }

  lemma LinksAvoidRoot(g: Graph, lev: seq<nat>, root: nat, link: Links, b: nat)
    requires Levels(g, lev) && root < |g| && LinksComplete(g, root, link) && b < |g| && link[b].Some?
    ensures b != root && link[b].value != root
  {
    hide SameBlock;
    if b == root { NoRootTwin(g, lev, root, link[b].value); }
    if link[b].value == root { TwinOfRoot(g, lev, root, b); }
  }

  lemma RedirectKeepsRoot(g: Graph, lev: seq<nat>, root: nat, link: Links, g': Graph)
    requires Levels(g, lev) && Ranked(g, lev) && RootOnTop(g, root) && LinksComplete(g, root, link) && Redirected(g, link, g')
    ensures RootOnTop(g', root)
  {
    hide SameBlock, LevelAt;
    forall b | 0 <= b < |g'| && g'[b].Branch?
      ensures g'[b].jt != root && g'[b].jf != root
    {
      assert g'[b] == RedirectBlock(g[b], link);
      if link[g[b].jt].Some? { LinksAvoidRoot(g, lev, root, link, g[b].jt); }
      if link[g[b].jf].Some? { LinksAvoidRoot(g, lev, root, link, g[b].jf); }
    }
  }

  /** Moving an edge off a linked block makes that block unreachable, and nothing new reachable. */
  lemma RedirectShrinks(g: Graph, lev: seq<nat>, root: nat, link: Links, g': Graph, p: nat)
    requires Levels(g, lev) && Ranked(g, lev) && RootOnTop(g, root) && LinksComplete(g, root, link) && Redirected(g, link, g')
    requires p < |g| && g[p].Branch? && (link[g[p].jt].Some? || link[g[p].jf].Some?)
    ensures ReachSet(g', root) < ReachSet(g, root)
  {
    hide SameBlock, LevelAt;
    var s := ReachSet(g, root);
    ReachSetClosed(g, root);
    forall b | b in s
      ensures ClosedAt(g', s, b)
    {
      assert ClosedAt(g, s, b) && g'[b] == RedirectBlock(g[b], link);
    }
    assert Closed(g', s);
    ReachSetLeast(g', root, s);
    var c := if link[g[p].jt].Some? then g[p].jt else g[p].jf;
    if c in ReachSet(g', root) {
      var q := ReachedFrom(g', root, c);
    }
    assert c in s && c !in ReachSet(g', root);
  }

  lemma TwinOfRoot(g: Graph, lev: seq<nat>, root: nat, b: nat)
    requires Levels(g, lev) && root < |g| && b in ReachSet(g, root) && b != root
    ensures !SameBlock(g[b], g[root])
  {
    NoRootTwin(g, lev, root, b);
  }

  /** With no linked block in use, no two reachable blocks are equal. */
  lemma NoTwinsLeft(g: Graph, lev: seq<nat>, root: nat, link: Links, a: nat, b: nat)
    requires Levels(g, lev) && RootOnTop(g, root) && LinksComplete(g, root, link)
    requires forall p :: 0 <= p < |g| && g[p].Branch? ==> g[p].jt < |g| && g[p].jf < |g| && link[g[p].jt] == None && link[g[p].jf] == None
    requires a in ReachSet(g, root) && b in ReachSet(g, root) && a < b < |g|
    ensures !SameBlock(g[a], g[b])
  {
    hide SameBlock;
    if a == root {
      NoRootTwin(g, lev, root, b);
    } else {
      var q := ReachedFrom(g, root, a);
    }
  }

  // ---------------------------------------------------------------------
  // intern_blocks
  // ---------------------------------------------------------------------

  /** The graph being rewritten, with the mark and link fields of its blocks. */
  class Interner {
    var g: Graph
    const root: nat
    var mark: seq<bool>
    var link: Links
    /** Blocks whose marking is complete. */
    ghost var finished: set<nat>

    constructor (g: Graph, root: nat)
      ensures this.g == g && this.root == root
    {
      this.g, this.root := g, root;
      mark, link, finished := [], [], {};
    }

    /** make_marks. */
    method MakeMarks(p: nat, ghost rank: seq<nat>)
      requires Ranked(g, rank) && p < |g| == |mark| && Closed(g, finished)
      requires forall b :: b in finished ==> b < |g| && mark[b]
      requires forall b :: 0 <= b < |g| && mark[b] && b !in finished ==> rank[p] < rank[b]
      modifies this`mark, this`finished
      ensures |mark| == |g| && Closed(g, finished) && old(finished) + {p} <= finished
      ensures forall b :: 0 <= b < |g| ==> (mark[b] <==> old(mark)[b] || b in finished)
      ensures forall b :: b in finished && b !in old(finished) ==> b < |g| && rank[b] <= rank[p]
      ensures forall s :: Closed(g, s) && old(finished) + {p} <= s ==> finished <= s
      decreases rank[p]
    {
      hide Closed;
      ClosedMembers(g, finished);
      if mark[p] { return; }
      mark := mark[p := true];
      forall s | Closed(g, s) && old(finished) + {p} <= s
        ensures BlockSuccessors(g[p]) <= s
      {
        ClosedHas(g, s, p);
      }
      if g[p].Branch? {
        MakeMarks(g[p].jt, rank);
        MakeMarks(g[p].jf, rank);
      }
      ClosedAdd(g, finished, p);
      finished := finished + {p};
    }

    /** mark_code: exactly the reachable blocks end up marked. */
    method MarkCode(ghost rank: seq<nat>)
      requires Ranked(g, rank) && root < |g|
      modifies this`mark, this`finished
      ensures |mark| == |g| && forall b :: 0 <= b < |g| ==> (mark[b] <==> b in ReachSet(g, root))
    {
      hide Closed;
      mark, finished := seq(|g|, _ => false), {};
      EmptyClosed(g);
      MakeMarks(root, rank);
      ReachSetClosed(g, root);
      ReachSetLeast(g, root, finished);
    }

    /** Search, from the last block down, for an equal marked block further on. */
    method FindLinks()
      requires |mark| == |g| && 0 < |g| && forall b :: 0 <= b < |g| ==> (mark[b] <==> b in ReachSet(g, root))
      modifies this`link
      ensures LinksComplete(g, root, link)
    {
      hide SameBlock, ReachSet, LinksFrom;
      link := seq(|g|, _ => None);
      var i := |g| - 1;
      NoLinks(g, mark, link);
      while i != 0
        invariant 0 <= i < |g| == |link| && LinksFrom(g, mark, link, i)
      {
        i := i - 1;
        var found := false;
        if mark[i] {
          var j := i + 1;
          while j < |g| && !found
            invariant i < j <= |g| == |link| && LinksFrom(g, mark, link, if found then i else i + 1)
            invariant !found ==> forall c :: i < c < j && mark[c] ==> !SameBlock(g[i], g[c])
          {
            if mark[j] {
              var eq := EqBlk(g[i], g[j]);
              if eq {
                LinkTwin(g, mark, link, i, j);
                link := link[i := if link[j] != None then link[j] else Some(j)];
                found := true;
              }
            }
            j := j + 1;
          }
        }
        if !found { NoTwin(g, mark, link, i); }
      }
      LinksAreComplete(g, root, mark, link);
    }

    /** Let every edge into a linked block lead to its representative; report whether any moved. */
    method Redirect() returns (changed: bool)
      requires Wired(g) && Representatives(g, link)
      modifies this`g
      ensures Redirected(old(g), link, g)
      ensures changed <==> exists p :: 0 <= p < |g| && Moves(old(g)[p], link)
    {
      hide SameBlock;
      changed := false;
      var p := 0;
      while p < |g|
        invariant 0 <= p <= |g| == |old(g)|
        invariant forall b :: 0 <= b < p ==> g[b] == RedirectBlock(old(g)[b], link)
        invariant forall b :: p <= b < |g| ==> g[b] == old(g)[b]
        invariant changed <==> exists q :: 0 <= q < p && Moves(old(g)[q], link)
      {
        if g[p].Branch? {
          if link[g[p].jt] != None {
            changed := true;
            g := g[p := g[p].(jt := link[g[p].jt].value)];
          }
          if link[g[p].jf] != None {
            changed := true;
            g := g[p := g[p].(jf := link[g[p].jf].value)];
          }
        }
        assert changed ==> Moves(old(g)[p], link) || exists q :: 0 <= q < p && Moves(old(g)[q], link);
        p := p + 1;
      }
    }

    /**
     * intern_blocks: on every packet every block still does what it did, and no two blocks
     * reachable from the root are equal any more. Each repetition loses a reachable block.
     */
    method InternBlocks(ghost lev: seq<nat>)
      requires Levels(g, lev) && Ranked(g, lev) && RootOnTop(g, root)
      modifies this
      ensures Levels(g, lev) && Ranked(g, lev) && |g| == |old(g)|
      ensures forall b :: 0 <= b < |g| ==> g[b].stmts == old(g)[b].stmts
      ensures forall b, env, st :: 0 <= b < |g| ==> Walk(g, lev, b, env, st) == Walk(old(g), lev, b, env, st)
      ensures forall a, b :: a in ReachSet(g, root) && b in ReachSet(g, root) && a < b < |g| ==> !SameBlock(g[a], g[b])
    {
      hide SameBlock, ReachSet, LevelAt, Walk, LinksComplete, Representatives;
      ghost var start := g;
      while true
        invariant Levels(g, lev) && Ranked(g, lev) && RootOnTop(g, root) && |g| == |start|
        invariant forall b :: 0 <= b < |g| ==> g[b].stmts == start[b].stmts
        invariant forall b, env, st :: 0 <= b < |g| ==> Walk(g, lev, b, env, st) == Walk(start, lev, b, env, st)
        decreases |ReachSet(g, root)|
      {
        MarkCode(lev);
        FindLinks();
        LinksAreRepresentatives(g, root, link);
        ghost var before := g;
        var changed := Redirect();
        RedirectLevels(before, lev, link, g);
        LevelsRank(g, lev);
        RedirectKeepsRoot(before, lev, root, link, g);
        forall b, env, st | 0 <= b < |g|
          ensures Walk(g, lev, b, env, st) == Walk(start, lev, b, env, st)
        {
          RedirectWalk(before, lev, link, g, b, env, st);
        }
        if !changed {
          Unmoved(before, link, g);
          forall a, b | a in ReachSet(g, root) && b in ReachSet(g, root) && a < b < |g|
            ensures !SameBlock(g[a], g[b])
          {
            NoTwinsLeft(g, lev, root, link, a, b);
          }
          return;
        }
        ghost var p :| 0 <= p < |g| && Moves(before[p], link);
        RedirectShrinks(before, lev, root, link, g, p);
        SmallerSet(ReachSet(g, root), ReachSet(before, root));
      }
    }
  }

  /** State of the search when the blocks from `i` on have been considered. */
  ghost predicate LinksFrom(g: Graph, mark: seq<bool>, link: Links, i: nat) {
    && |link| == |g| == |mark|
    && (forall b :: 0 <= b < i && b < |g| ==> link[b] == None)
    && (forall b :: 0 <= b < |g| && link[b].Some? ==>
          && mark[b] && b < link[b].value < |g| && mark[link[b].value]
          && SameBlock(g[b], g[link[b].value]) && link[link[b].value] == None)
    && (forall b, c :: i <= b < c < |g| && mark[b] && mark[c] && SameBlock(g[b], g[c]) ==> link[b].Some?)
  }

  lemma NoLinks(g: Graph, mark: seq<bool>, link: Links)
    requires |link| == |g| == |mark| && 0 < |g| && forall b :: 0 <= b < |g| ==> link[b] == None
    ensures LinksFrom(g, mark, link, |g| - 1)
  {
  }

  lemma NoTwin(g: Graph, mark: seq<bool>, link: Links, i: nat)
    requires LinksFrom(g, mark, link, i + 1) && i < |g|
    requires mark[i] ==> forall c :: i < c < |g| && mark[c] ==> !SameBlock(g[i], g[c])
    ensures LinksFrom(g, mark, link, i)
  {
    hide SameBlock;
  }

  lemma LinkTwin(g: Graph, mark: seq<bool>, link: Links, i: nat, j: nat)
    requires LinksFrom(g, mark, link, i + 1) && i < j < |g| && mark[i] && mark[j] && SameBlock(g[i], g[j])
    ensures LinksFrom(g, mark, link[i := if link[j] != None then link[j] else Some(j)], i)
  {
    hide SameBlock;
    if link[j] != None { SameBlockTrans(g[i], g[j], g[link[j].value]); }
  }

  lemma LinksAreComplete(g: Graph, root: nat, mark: seq<bool>, link: Links)
    requires LinksFrom(g, mark, link, 0) && forall b :: 0 <= b < |g| ==> (mark[b] <==> b in ReachSet(g, root))
    ensures LinksComplete(g, root, link)
  {
    hide SameBlock, ReachSet;
  }

  ghost predicate Moves(b: Block, link: Links) {
    b.Branch? && b.jt < |link| && b.jf < |link| && (link[b.jt].Some? || link[b.jf].Some?)
  }

  lemma SameBlockTrans(a: Block, b: Block, c: Block)
    requires SameBlock(a, b) && SameBlock(b, c)
    ensures SameBlock(a, c)
  {
  }

  lemma LinksAreRepresentatives(g: Graph, root: nat, link: Links)
    requires LinksComplete(g, root, link)
    ensures Representatives(g, link) && |link| == |g|
  {
  }

  lemma Unmoved(g: Graph, link: Links, g': Graph)
    requires Wired(g) && Representatives(g, link) && Redirected(g, link, g')
    requires forall p :: 0 <= p < |g| ==> !Moves(g[p], link)
    ensures g' == g
    ensures forall p :: 0 <= p < |g| && g[p].Branch? ==>
              g[p].jt < |g| && g[p].jf < |g| && link[g[p].jt] == None && link[g[p].jf] == None
  {
    hide SameBlock;
    forall p | 0 <= p < |g|
      ensures g'[p] == g[p]
      ensures g[p].Branch? ==> link[g[p].jt] == None && link[g[p].jf] == None
    {
      assert !Moves(g[p], link);
    }
  }

  lemma SmallerSet(s: set<nat>, t: set<nat>)
    requires s < t
    ensures |s| < |t|
  {
    var x :| x in t && x !in s;
    SubsetCard(s, t - {x});
  }

  lemma {:induction false} SubsetCard(s: set<nat>, t: set<nat>)
    requires s <= t
    ensures |s| <= |t|
  {
    if s != {} {
      var x :| x in s;
      SubsetCard(s - {x}, t - {x});
    }
  }

  lemma EmptyClosed(g: Graph)
    ensures Closed(g, {})
  {
  }
}
