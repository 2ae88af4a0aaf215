/**
 * What a pass of the optimizer over the statements does to the meaning of the graph (opt_blk and
 * the first loop of opt_blks of optimize.c): opt_stmt, the clearing of blocks, opt_peep and
 * opt_deadstores in one sweep, with live-out sets that were computed before it.
 */
module Rewriting {
  import opened Words
  import opened Bpf
  import opened Cfg
  import opened Liveness
  import opened ValueNumbers
  import opened Peephole
  import opened StatementPass
  import Analysis

  // ---------------------------------------------------------------------
  // One block
  // ---------------------------------------------------------------------

  ghost function Renumbered(c: Setting, p: PassState, b: nat): NumberedList
    requires Sized(c, p) && b < |c.g| && PassedAt(c, p, b)
    ensures Renumbered(c, p, b).DoneList?
  {
    OptList(p.before[b], c.g[b].stmts, p.entry[b], c.alter)
  }

  /** The statements of block `b` after opt_stmt, before any deletion. */
  ghost function Rewritten(c: Setting, p: PassState, b: nat): seq<Stmt>
    requires Sized(c, p) && b < |c.g| && PassedAt(c, p, b)
  {
    Renumbered(c, p, b).ss
  }

  ghost predicate IsCleared(c: Setting, p: PassState, b: nat)
    requires Sized(c, p) && b < |c.g|
  {
    |p.entry[b]| == N_ATOMS && Cleared(c.g[b], p.entry[b], p.exit[b], c.alter, c.outUse[b])
  }

  /** The block after opt_peep, before dead stores are deleted. */
  ghost function Peepholed(c: Setting, p: PassState, b: nat): Block
    requires Sized(c, p) && b < |c.g| && PassedAt(c, p, b)
  {
    PeepBlock(Renumbered(c, p, b).t, WithStmts(c.g[b], Rewritten(c, p, b)), p.exit[b], c.outUse[b])
  }

  /** What opt_peep merged into the branch. */
  ghost function MergedAt(c: Setting, p: PassState, b: nat): Merge
    requires Sized(c, p) && b < |c.g| && PassedAt(c, p, b)
  {
    if IsCleared(c, p, b) then Keep
    else MergedInto(Renumbered(c, p, b).t, WithStmts(c.g[b], Rewritten(c, p, b)), p.exit[b], c.outUse[b])
  }

  /**
   * What the pass deletes from a branch block nothing left in the graph needs: neither the
   * statements after it, nor the branch, nor any path of the graph as it is after the pass.
   */
  ghost predicate Fresh(c: Setting, p: PassState, b: nat)
    requires Sized(c, p) && b < |c.g| && PassedAt(c, p, b)
  {
    if IsCleared(c, p, b) then
      forall a :: a in LiveOut(p.g, b) && Defines(Rewritten(c, p, b), a) ==> a == A_ATOM || a == X_ATOM
    else
      && DeadRemoved(Peepholed(c, p, b).stmts, p.g[b].stmts, BranchUses(p.g[b]) + LiveOut(p.g, b))
      && (MergedAt(c, p, b).Keep? || A_ATOM !in LiveOut(p.g, b))
  }

  ghost predicate AllFresh(c: Setting, p: PassState)
    requires Sized(c, p)
  {
    forall b :: b in c.reached && b < |c.g| && c.g[b].Branch? ==> PassedAt(c, p, b) && Fresh(c, p, b)
  }

  /** The atoms with a known number. */
  ghost function KnownOn(val: seq<nat>): (known: set<nat>)
    requires |val| == N_ATOMS
    ensures AreKnown(val, known)
  {
    set a | a in AllAtoms() && val[a] != UNKNOWN
  }

  /** No statement of the block feeds an unknown number into the value table. */
  ghost predicate BlockHandled(c: Setting, p: PassState, b: nat)
    requires Sized(c, p) && b < |c.g|
  {
    |p.entry[b]| == N_ATOMS && OperandsKnown(c.g[b].stmts, KnownOn(p.entry[b]))
  }

  /** The original statements and the rewritten ones have the same effect, and the numbers are right. */
  lemma RewrittenRuns(c: Setting, p: PassState, b: nat, env: Env, st: State)
    requires Sized(c, p) && b < |c.g| && PassedAt(c, p, b) && BlockHandled(c, p, b)
    requires Sound(p.t, env, p.entry[b], st, AllAtoms()) && ExecList(c.g[b].stmts, env, st).Next?
    ensures ExecList(Rewritten(c, p, b), env, st) == ExecList(c.g[b].stmts, env, st)
    ensures Sound(p.t, env, p.exit[b], ExecList(c.g[b].stmts, env, st).st, AllAtoms())
    ensures Sound(Renumbered(c, p, b).t, env, p.exit[b], ExecList(c.g[b].stmts, env, st).st, AllAtoms())
    ensures ListInRange(Rewritten(c, p, b)) && |Rewritten(c, p, b)| == |c.g[b].stmts|
  {
    hide OptList, Sound, AllAtoms, WellNumbered, OperandsKnown, Exec, EdgeInto, EntryOf, Left, AreKnown;
    var ss, before, entry := c.g[b].stmts, p.before[b], p.entry[b];
    var r := OptList(before, ss, entry, c.alter);
    SoundPrefix(before, p.t, env, entry, st, AllAtoms());
    OptListAllRight(before, ss, entry, c.alter, env, st, KnownOn(entry));
    OptListShape(before, ss, entry, c.alter);
    SoundPrefix(r.t, p.t, env, p.exit[b], ExecList(ss, env, st).st, AllAtoms());
    OptListLeaner(before, ss, entry, c.alter);
    LeanerInRange(ss, r.ss);
  }

  /** A cleared block leaves A and X as they were, and only defines scratch words besides. */
  lemma ClearedKeeps(c: Setting, p: PassState, b: nat, env: Env, st: State, a: nat)
    requires Sized(c, p) && b < |c.g| && PassedAt(c, p, b) && BlockHandled(c, p, b)
    requires Sound(p.t, env, p.entry[b], st, AllAtoms()) && ExecList(c.g[b].stmts, env, st).Next?
    requires c.g[b].Branch? && IsCleared(c, p, b) && a < N_ATOMS
    requires Defines(Rewritten(c, p, b), a) ==> a == A_ATOM || a == X_ATOM
    ensures AtomValue(ExecList(c.g[b].stmts, env, st).st, a) == AtomValue(st, a)
  {
    hide Den, OperandsKnown, Exec, EdgeInto, EntryOf, BlockNumbered;
    RewrittenRuns(c, p, b, env, st);
    if a == A_ATOM || a == X_ATOM {
      assert a in AllAtoms();
      SoundAt(p.t, env, p.entry[b], st, AllAtoms(), a);
      SoundAt(p.t, env, p.exit[b], ExecList(c.g[b].stmts, env, st).st, AllAtoms(), a);
    } else {
      UndefinedKept(Rewritten(c, p, b), env, st, a);
    }
  }

  lemma {:induction false} UndefinedKept(ss: seq<Stmt>, env: Env, st: State, a: nat)
    requires ListInRange(ss) && !Defines(ss, a) && a < N_ATOMS && ExecList(ss, env, st).Next?
    ensures AtomValue(ExecList(ss, env, st).st, a) == AtomValue(st, a)
    decreases |ss|
  {
    hide Exec, Defs;
    if ss != [] {
      assert InRange(ss[0]) && ListInRange(ss[1..]);
      DefinesCons(ss, a);
      ExecKeeps(ss[0], env, st, a);
      UndefinedKept(ss[1..], env, Exec(ss[0].op, ss[0].k, env, st).st, a);
    }
  }

  /** Where opt_peep merges a statement into the branch, the accumulator has no constant number. */
  lemma MergedUnknown(c: Setting, p: PassState, b: nat)
    requires Sized(c, p) && b < |c.g| && PassedAt(c, p, b) && c.g[b].Branch?
    ensures MergedAt(c, p, b).Keep? || ConstOf(Renumbered(c, p, b).t, p.exit[b][A_ATOM]) == None
  {
    hide OptList, WellNumbered, EdgeInto, EntryOf, Left, PeepFrom, LastFrom, Reworked;
    var ss, r := c.g[b].stmts, Renumbered(c, p, b);
    OptListShape(p.before[b], ss, p.entry[b], c.alter);
    if !MergedAt(c, p, b).Keep? {
      var last := LastFrom(r.ss, 0, 0);
      PeepEnds(r.ss);
      LastAlu(r.ss, last);
      LastAluNumber(p.before[b], ss, p.entry[b], c.alter, last);
    }
  }

  lemma SoundConsts(t: seq<Node>, env: Env, val: seq<nat>, st: State, on: set<nat>)
    requires |val| == N_ATOMS && Sound(t, env, val, st, on)
    ensures ConstsHold(t, val, st, on)
  {
    hide Den;
    ConstDen(t, env, val[A_ATOM]);
    ConstDen(t, env, val[X_ATOM]);
  }

  /** opt_peep keeps the way out of the block, for the state the rewritten statements leave. */
  lemma PeepholeKeeps(c: Setting, p: PassState, b: nat, env: Env, st: State)
    requires Sized(c, p) && b < |c.g| && PassedAt(c, p, b) && BlockHandled(c, p, b) && c.g[b].Branch? && !IsCleared(c, p, b)
    requires Sound(p.t, env, p.entry[b], st, AllAtoms()) && ExecList(c.g[b].stmts, env, st).Next?
    ensures var e, s := ExecList(Peepholed(c, p, b).stmts, env, st), ExecList(c.g[b].stmts, env, st).st;
            && e.Next? && SameRoute(c.g[b], s, Peepholed(c, p, b), e.st) && (MergedAt(c, p, b).Keep? ==> e.st == s)
    ensures ListInRange(Peepholed(c, p, b).stmts)
  {
    hide OptList, ExecList, WellNumbered, EdgeInto, EntryOf, Left, PeepBlock, MergedInto, Sound, OperandsKnown, SameRoute;
    RewrittenRuns(c, p, b, env, st);
    MergedUnknown(c, p, b);
    var r := Renumbered(c, p, b);
    var b1 := WithStmts(c.g[b], r.ss);
    var s := ExecList(c.g[b].stmts, env, st).st;
    SoundConsts(r.t, env, p.exit[b], s, AllAtoms());
    PeepRight(r.t, b1, p.exit[b], c.outUse[b], env, st, AllAtoms());
    PeepShape(r.t, b1, p.exit[b], c.outUse[b]);
    PeepInRange(b1, Peepholed(c, p, b));
    RouteIgnoresList(c.g[b], r.ss, s, Peepholed(c, p, b), ExecList(Peepholed(c, p, b).stmts, env, st).st);
  }

  lemma RouteIgnoresList(b: Block, ss: seq<Stmt>, s: State, b': Block, s': State)
    requires b.Branch? && SameRoute(WithStmts(b, ss), s, b', s')
    ensures SameRoute(b, s, b', s')
  {
  }

  /** Running what is left of a block in a state that agrees on what it needs. */
  lemma BlockSimulates(c: Setting, p: PassState, rank: seq<nat>, b: nat, env: Env, st1: State, st2: State)
    requires Sized(c, p) && b < |c.g| && PassedAt(c, p, b) && BlockHandled(c, p, b) && Ranked(p.g, rank)
    requires c.g[b].Branch? ==> Fresh(c, p, b)
    requires Sound(p.t, env, p.entry[b], st1, AllAtoms()) && ExecList(c.g[b].stmts, env, st1).Next?
    requires AgreeLive(p.g, b, st1, st2)
    ensures SameShape(c.g[b], p.g[b]) && ExecList(p.g[b].stmts, env, st2).Next?
    ensures c.g[b].Branch? ==>
              var s1, s2 := ExecList(c.g[b].stmts, env, st1).st, ExecList(p.g[b].stmts, env, st2).st;
              && Successor(p.g[b], Taken(p.g[b], s2)) == Successor(c.g[b], Taken(c.g[b], s1))
              && AgreeOn(s1, s2, LiveOut(p.g, b))
  {
    hide LiveAt, LiveIn, DeadRemoved, OperandsKnown, Exec, Sound, EdgeInto, EntryOf, OptList, WellNumbered, Strip,
         Defines, Fresh, PeepBlock, IsCleared, Left, AgreeLive, Taken, AgreeOn;
    NumberedShape(p.t, c.g[b], p.g[b], p.entry[b], p.exit[b], p.oval[b], c.alter, c.outUse[b], p.before[b]);
    NeedsAgree(p.g, rank, b, st1, st2);
    if IsCleared(c, p, b) {
      ClearedSimulates(c, p, b, env, st1, st2);
    } else if c.g[b].Branch? {
      BranchSimulates(c, p, b, env, st1, st2);
    } else {
      LeafSimulates(c, p, b, env, st1, st2);
    }
  }

  lemma ClearedSimulates(c: Setting, p: PassState, b: nat, env: Env, st1: State, st2: State)
    requires Sized(c, p) && b < |c.g| && PassedAt(c, p, b) && BlockHandled(c, p, b) && IsCleared(c, p, b)
    requires c.g[b].Branch? ==> Fresh(c, p, b)
    requires Sound(p.t, env, p.entry[b], st1, AllAtoms()) && ExecList(c.g[b].stmts, env, st1).Next?
    requires AgreeOn(st1, st2, LiveIn(p.g[b].stmts, BranchUses(p.g[b]) + LiveOut(p.g, b)))
    ensures ExecList(p.g[b].stmts, env, st2).Next?
    ensures c.g[b].Branch? ==>
              var s1, s2 := ExecList(c.g[b].stmts, env, st1).st, ExecList(p.g[b].stmts, env, st2).st;
              && p.g[b].Branch? && Successor(p.g[b], Taken(p.g[b], s2)) == Successor(c.g[b], Taken(c.g[b], s1))
              && AgreeOn(s1, s2, LiveOut(p.g, b))
  {
    hide LiveAt, LiveIn, DeadRemoved, OperandsKnown, Exec, Sound, AllAtoms, EdgeInto, EntryOf, OptList, WellNumbered, Defines;
    assert p.g[b] == WithStmts(c.g[b], []);
    NothingRuns(env, st2);
    if c.g[b].Branch? {
      var out := BranchUses(c.g[b]) + LiveOut(p.g, b);
      LiveInNothing(out);
      var s1 := ExecList(c.g[b].stmts, env, st1).st;
      forall a: nat | a in out && a < N_ATOMS
        ensures AtomValue(s1, a) == AtomValue(st2, a)
      {
        ClearedKeeps(c, p, b, env, st1, a);
      }
      SameBranch(c.g[b], p.g[b], s1, st2, out);
    }
  }

  lemma LeafSimulates(c: Setting, p: PassState, b: nat, env: Env, st1: State, st2: State)
    requires Sized(c, p) && b < |c.g| && PassedAt(c, p, b) && BlockHandled(c, p, b) && !IsCleared(c, p, b) && c.g[b].Leaf?
    requires Sound(p.t, env, p.entry[b], st1, AllAtoms()) && ExecList(c.g[b].stmts, env, st1).Next?
    requires AgreeOn(st1, st2, LiveIn(p.g[b].stmts, BranchUses(p.g[b]) + LiveOut(p.g, b)))
    ensures ExecList(p.g[b].stmts, env, st2).Next?
  {
    hide LiveAt, LiveIn, DeadRemoved, OperandsKnown, Exec, Sound, EdgeInto, EntryOf, OptList, WellNumbered, Strip,
         PeepFrom, LastFrom, Defines, AgreeOn;
    RewrittenRuns(c, p, b, env, st1);
    var rw, f := Rewritten(c, p, b), Peepholed(c, p, b);
    PeepKeeps(rw, 0, env, st1, {});
    assert ExecList(f.stmts, env, st1).Next? && ListInRange(f.stmts);
    assert p.g[b].Leaf? && LiveOut(p.g, b) == {};
    StripIsSafe(f.stmts, BranchUses(f) + c.outUse[b]);
    DeadRemovedMono(f.stmts, p.g[b].stmts, BranchUses(f) + c.outUse[b], BranchUses(p.g[b]) + LiveOut(p.g, b));
    DeadRemovalSafe(f.stmts, p.g[b].stmts, BranchUses(p.g[b]) + LiveOut(p.g, b), env, st1, st2);
  }

  lemma BranchSimulates(c: Setting, p: PassState, b: nat, env: Env, st1: State, st2: State)
    requires Sized(c, p) && b < |c.g| && PassedAt(c, p, b) && BlockHandled(c, p, b) && !IsCleared(c, p, b) && c.g[b].Branch?
    requires Fresh(c, p, b) && Sound(p.t, env, p.entry[b], st1, AllAtoms()) && ExecList(c.g[b].stmts, env, st1).Next?
    requires AgreeOn(st1, st2, LiveIn(p.g[b].stmts, BranchUses(p.g[b]) + LiveOut(p.g, b)))
    ensures ExecList(p.g[b].stmts, env, st2).Next?
    ensures var s1, s2 := ExecList(c.g[b].stmts, env, st1).st, ExecList(p.g[b].stmts, env, st2).st;
            && p.g[b].Branch? && Successor(p.g[b], Taken(p.g[b], s2)) == Successor(c.g[b], Taken(c.g[b], s1))
            && AgreeOn(s1, s2, LiveOut(p.g, b))
  {
    hide LiveAt, LiveIn, DeadRemoved, OperandsKnown, Exec, Sound, EdgeInto, EntryOf, OptList, WellNumbered, Strip,
         PeepBlock, MergedInto, Defines, Taken, Compare;
    PeepholeKeeps(c, p, b, env, st1);
    var f, out := Peepholed(c, p, b), BranchUses(p.g[b]) + LiveOut(p.g, b);
    assert p.g[b] == WithStmts(f, p.g[b].stmts);
    DeadRemovalSafe(f.stmts, p.g[b].stmts, out, env, st1, st2);
    var s1, s1', s2 := ExecList(c.g[b].stmts, env, st1).st, ExecList(f.stmts, env, st1).st, ExecList(p.g[b].stmts, env, st2).st;
    SameBranch(f, p.g[b], s1', s2, out);
    forall a: nat | a in LiveOut(p.g, b) && a < N_ATOMS
      ensures AtomValue(s1, a) == AtomValue(s2, a)
    {
      assert AtomValue(s1', a) == AtomValue(s2, a);
    }
  }

  lemma NothingRuns(env: Env, st: State)
    ensures ExecList([], env, st) == Next(st)
  {
  }

  lemma LiveInNothing(out: set<nat>)
    ensures LiveIn([], out) == out
  {
  }

  lemma SameBranch(b: Block, b': Block, st1: State, st2: State, out: set<nat>)
    requires b.Branch? && b' == WithStmts(b, b'.stmts) && AgreeOn(st1, st2, out) && BranchUses(b) <= out
    ensures Taken(b, st1) == Taken(b', st2)
  {
    hide Compare;
    assert AtomValue(st1, A_ATOM) == AtomValue(st2, A_ATOM);
    assert b.src == X ==> AtomValue(st1, X_ATOM) == AtomValue(st2, X_ATOM);
  }

  // ---------------------------------------------------------------------
  // The graph
  // ---------------------------------------------------------------------

  ghost predicate AllHandled(c: Setting, p: PassState)
    requires Sized(c, p)
  {
    forall b :: b in c.reached && b < |c.g| ==> BlockHandled(c, p, b)
  }

  /** A condition on the graph alone: no list reads an operand that it has not numbered itself. */
  ghost predicate AllOperandsKnown(g: Graph, s: set<nat>) {
    forall b :: b in s && b < |g| ==> OperandsKnown(g[b].stmts, {})
  }

  lemma {:induction false} MoreKnown(ss: seq<Stmt>, known: set<nat>, more: set<nat>)
    requires OperandsKnown(ss, known) && known <= more
    ensures OperandsKnown(ss, more)
    decreases |ss|
  {
    hide Operands, Uses, Defs, Copies;
    if ss != [] {
      MoreKnown(ss[1..], KnownAfter(ss[0], known), KnownAfter(ss[0], more));
    }
  }

  lemma OperandsHandled(c: Setting, p: PassState)
    requires Passing(c, p, c.reached) && AllOperandsKnown(c.g, c.reached)
    ensures AllHandled(c, p)
  {
    hide BlockNumbered, Live, EdgeInto, OperandsKnown;
    forall b | b in c.reached && b < |c.g|
      ensures BlockHandled(c, p, b)
    {
      assert PassedAt(c, p, b);
      MoreKnown(c.g[b].stmts, {}, KnownOn(p.entry[b]));
    }
  }

  lemma InheritedSound(c: Setting, p: PassState, b: nat, d: nat, side: bool, env: Env, st: State)
    requires Sized(c, p) && b < |c.g| && d < |c.g| && PassedAt(c, p, d) && b in c.reached
    requires c.g[b].Branch? && Successor(c.g[b], side) == d && Sound(p.t, env, p.exit[b], st, AllAtoms())
    ensures |p.entry[d]| == N_ATOMS && Sound(p.t, env, p.entry[d], st, AllAtoms())
  {
    hide Den, BlockNumbered;
    var e := if side then b else |c.g| + b;
    assert EdgeInto(c.g, c.reached, e, d) && Analysis.EdgeSource(|c.g|, e) == b;
    forall a | a in AllAtoms() && 0 <= a < N_ATOMS && p.entry[d][a] != UNKNOWN
      ensures AtomValue(st, a) == Den(p.t, env, p.entry[d][a])
    {
      assert CommonNumber(c, p, d, a, p.entry[d][a]);
    }
  }

  /**
   * The pass keeps the result of every run that does not reject, provided no list feeds an unknown
   * number into the table and nothing the pass deletes is needed afterwards.
   */
  lemma {:induction false} PassKeepsRuns(c: Setting, p: PassState, rank: seq<nat>, b: nat, env: Env, st1: State, st2: State)
    requires Ranked(c.g, rank) && Ranked(p.g, rank) && GoodGraph(c.g) && Closed(c.g, c.reached)
    requires Passing(c, p, c.reached) && AllHandled(c, p) && AllFresh(c, p) && b in c.reached && b < |c.g|
    requires |p.entry[b]| == N_ATOMS && Sound(p.t, env, p.entry[b], st1, AllAtoms()) && AgreeLive(p.g, b, st1, st2)
    requires !Walk(c.g, rank, b, env, st1).Reject?
    ensures Walk(p.g, rank, b, env, st2) == Walk(c.g, rank, b, env, st1)
    decreases rank[b]
  {
    hide PassedAt, Fresh, Sound, AllAtoms, Closed, BlockHandled, ExecList, Taken, Live, AgreeLive, AgreeOn, LiveOut;
    GoodListRuns(c.g[b].stmts, env, st1);
    assert PassedAt(c, p, b);
    BlockSimulates(c, p, rank, b, env, st1, st2);
    if c.g[b].Branch? {
      var s1, s2 := ExecList(c.g[b].stmts, env, st1).st, ExecList(p.g[b].stmts, env, st2).st;
      RewrittenRuns(c, p, b, env, st1);
      var side := Taken(c.g[b], s1);
      var d := Successor(c.g[b], side);
      ClosedHas(c.g, c.reached, b);
      assert PassedAt(c, p, d);
      InheritedSound(c, p, b, d, side, env, s1);
      SuccessorAgrees(p.g, b, d, s1, s2, LiveOut(p.g, b));
      PassKeepsRuns(c, p, rank, d, env, s1, s2);
    }
  }

  // ---------------------------------------------------------------------
  // The pass from the root
  // ---------------------------------------------------------------------

  lemma RootUnknown(an: Analysis.Analyzer, c: Setting, p: PassState)
    requires an.Leveled() && c.g == an.g && c.reached == an.reached && Passing(c, p, an.reached)
    ensures |p.entry[an.root]| == N_ATOMS
    ensures forall env, st :: Sound(p.t, env, p.entry[an.root], st, AllAtoms())
  {
    hide Analysis.LevelLists, Analysis.LevelOf, BlockNumbered, EdgeInto, Live, Den;
    var b := an.root;
    assert PassedAt(c, p, b);
    forall e: nat
      ensures !EdgeInto(c.g, c.reached, e, b)
    {
      NoEdgeIntoRoot(an, e);
    }
    assert forall a :: 0 <= a < N_ATOMS && p.entry[b][a] != UNKNOWN ==> CommonNumber(c, p, b, a, p.entry[b][a]);
  }

  lemma NoEdgeIntoRoot(an: Analysis.Analyzer, e: nat)
    requires an.Leveled()
    ensures !EdgeInto(an.g, an.reached, e, an.root)
  {
    hide Analysis.LevelOf, Closed;
    Analysis.LevelListFacts(an.g, an.rank, an.level, an.levels, an.reached);
    if e < 2 * |an.g| {
      Analysis.LevelStep(an.g, an.rank, Analysis.EdgeSource(|an.g|, e));
    }
  }

  /** The statements and branches opt_init counts shrink, so the next pass fits the same table. */
  lemma PassShrinks(c: Setting, p: PassState, blocks: set<nat>)
    requires Passing(c, p, c.reached)
    ensures |p.g| == |c.g| && MaxStmts(p.g, blocks, |c.g|) <= MaxStmts(c.g, blocks, |c.g|)
  {
    hide PassedAt, Live;
    MaxStmtsMono(p.g, c.g, blocks, blocks, |c.g|);
  }

  lemma RankedStill(c: Setting, p: PassState, rank: seq<nat>)
    requires Ranked(c.g, rank) && Passing(c, p, c.reached)
    ensures Ranked(p.g, rank)
  {
    hide PassedAt, Live;
    assert forall b :: 0 <= b < |c.g| ==> SameShape(c.g[b], p.g[b]);
  }

  /** Operators opt_stmt may refuse: divisions and shifts by X. */
  predicate Refusable(s: Stmt) {
    s.op.Alu? && s.op.src == X && (s.op.alu == Div || s.op.alu == Mod || s.op.alu == Lsh || s.op.alu == Rsh)
  }

  ghost predicate NothingRefusable(g: Graph, s: set<nat>) {
    forall b, i :: b in s && b < |g| && 0 <= i < |g[b].stmts| ==> !Refusable(g[b].stmts[i])
  }

  /** What stops a pass: a division or shift by X if statements are altered, else a return with statements. */
  lemma RefusalCause(c: Setting, p: PassState, done: set<nat>, b: nat)
    requires Refusal(c, p, done, b)
    ensures b in c.reached && b < |c.g|
    ensures if c.alter then exists i :: 0 <= i < |c.g[b].stmts| && Refusable(c.g[b].stmts[i])
            else c.g[b].Leaf? && c.g[b].stmts != []
  {
    hide OptList, PassedAt, EntryOf, EdgeInto, ConstOf, WellNumbered, Live, Finishes;
    if i :| 0 <= i < |c.g[b].stmts| && RefusedAt(p.t, c.g[b].stmts, p.entry[b], c.alter, i) {
      assert Refusable(c.g[b].stmts[i]);
    }
  }
}
