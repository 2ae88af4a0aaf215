/**
 * The optimizer's passes one after the other, followed by the layout (opt_loop, bpf_optimize and
 * icode_to_fcode of optimize.c), and the code generator before them (pcap_compile of gencode.c).
 */
module Optimizer {
  import opened Words
  import opened Bpf
  import opened Cfg
  import opened Liveness
  import opened ValueNumbers
  import opened Peephole
  import opened StatementPass
  import opened Rewriting
  import opened Settling
  import Analysis
  import Compile
  import Freshness
  import Gencode
  import Interning
  import Layout
  import PlainFilters
  import Threading

  lemma {:induction false} CapacityShrinks(g: Graph, h: Graph, m: nat)
    requires Shorter(g, h) && m <= |g|
    ensures Layout.Capacity(h, m) <= Layout.Capacity(g, m)
  {
    hide Live;
    if m > 0 {
      CapacityShrinks(g, h, m - 1);
    }
  }

  /** What intern_blocks leaves: the same statements and results, and no two equal blocks. */
  ghost predicate Interned(g: Graph, root: nat, final: Graph, lev: seq<nat>) {
    && |final| == |g| && Ranked(final, lev) && root < |final|
    && (forall b :: 0 <= b < |g| ==> final[b].stmts == g[b].stmts)
    && forall a, b :: a in Interning.ReachSet(final, root) && b in Interning.ReachSet(final, root) && a < b < |final| ==>
                        !Interning.SameBlock(final[a], final[b])
  }

  ghost predicate InternedInto(g: Graph, root: nat, final: Graph, lev: seq<nat>, prog: seq<Insn>) {
    Interned(g, root, final, lev) && Layout.Flattened(final, lev, root, prog)
  }

  /** The array is the layout of the interned graph. */
  ghost predicate Assembled(g: Graph, root: nat, prog: seq<Insn>) {
    exists final, lev :: InternedInto(g, root, final, lev, prog)
  }

  /** intern_blocks and icode_to_fcode: the program runs as the graph walks, rejecting runs included. */
  method InternAndFlatten(g: Graph, root: nat, ghost rank: seq<nat>) returns (prog: seq<Insn>)
    requires Ranked(g, rank) && GoodGraph(g) && RootOnTop(g, root) && Layout.Capacity(g, |g|) < 0x8000_0000
    ensures Valid(prog) && Forward(prog) && forall i :: 0 <= i < |prog| ==> !Traps(prog[i])
    ensures forall env, st :: Run(prog, env, 0, st) == Walk(g, rank, root, env, st)
    ensures Assembled(g, root, prog)
  {
    hide Walk, Run, Valid, Traps, Live, GoodGraph, Layout.Capacity, Interning.Levels, Interning.SameBlock, Interning.ReachSet,
         Layout.Flattened;
    ghost var lev := Interning.LevelsExist(g, rank);
    Interning.LevelsRank(g, lev);
    var interner := new Interning.Interner(g, root);
    interner.InternBlocks(lev);
    var final := interner.g;
    SameLists(g, final);
    CapacityShrinks(g, final, |g|);
    prog := Layout.FlattenGraph(final, lev, root);
    assert InternedInto(g, root, final, lev, prog);
    forall env, st
      ensures Run(prog, env, 0, st) == Walk(g, rank, root, env, st)
    {
      WalkAnyRank(g, rank, lev, root, env, st);
    }
  }

  lemma SameLists(g: Graph, h: Graph)
    requires |h| == |g| && GoodGraph(g) && forall b :: 0 <= b < |g| ==> h[b].stmts == g[b].stmts
    ensures GoodGraph(h) && Shorter(g, h)
  {
    hide GoodStmt, Live;
  }

  lemma ShorterTwice(g: Graph, h: Graph, k: Graph)
    requires Shorter(g, h) && Shorter(h, k)
    ensures Shorter(g, k)
  {
    hide Live;
  }

  /**
   * Any number of branch-moving passes, block interning and layout: the program is valid, and if the
   * graph is of the kind the code generator builds, it returns what the graph returns on every
   * packet that the graph does not reject.
   */
  method OptimizeAndFlatten(g: Graph, root: nat, ghost rank: seq<nat>, ghost blocks: set<nat>, maxval: nat, n: nat)
    returns (prog: seq<Insn>, ghost passes: seq<BranchPass>)
    requires Ranked(g, rank) && GoodGraph(g) && RootOnTop(g, root) && Closed(g, blocks) && root in blocks
    requires AllSelfContained(g, blocks) && Threading.BareReturns(g, blocks)
    requires maxval >= 3 * MaxStmts(g, blocks, |g|) && Layout.Capacity(g, |g|) < 0x8000_0000
    ensures Valid(prog) && Forward(prog) && forall i :: 0 <= i < |prog| ==> !Traps(prog[i])
    ensures AllRaw(g, blocks) ==>
              forall env, st :: !Walk(g, rank, root, env, st).Reject? ==> Run(prog, env, 0, st) == Walk(g, rank, root, env, st)
    ensures |passes| == n && Built(g, root, passes, [], prog)
  {
    hide Walk, Run, Valid, Traps, Live, Closed, GoodGraph, Layout.Capacity, AllSelfContained, Threading.BareReturns, AllRaw,
         AllQuiet, AllSimple, Freshness.NoRedefinition, AllTotal, Shorter, BranchChain, Assembled;
    var h;
    ghost var lv, s;
    h, lv, s, passes := BranchPasses(g, root, rank, blocks, maxval, n);
    ShorterLength(g, h);
    CapacityShrinks(g, h, |g|);
    prog := InternAndFlatten(h, root, lv);
    assert BuiltThrough(g, root, passes, [], prog, h, h);
  }

  ghost predicate InTurn(g: Graph, trace: Trace, i: nat)
    requires i < |trace|
  {
    trace[i].0.g == if i == 0 then g else trace[i - 1].1.g
  }

  /** The statement passes follow each other, from graph `g` to graph `h`. */
  ghost predicate StatementChain(g: Graph, trace: Trace, h: Graph) {
    && (forall i :: 0 <= i < |trace| ==> InTurn(g, trace, i))
    && h == if trace == [] then g else trace[|trace| - 1].1.g
  }

  lemma StatementChainNext(g: Graph, trace: Trace, h: Graph, c: Setting, p: PassState)
    requires StatementChain(g, trace, h) && c.g == h
    ensures StatementChain(g, trace + [(c, p)], p.g)
  {
    var longer := trace + [(c, p)];
    forall i | 0 <= i < |longer|
      ensures InTurn(g, longer, i)
    {
      assert i < |trace| ==> InTurn(g, trace, i);
    }
  }

  ghost predicate BuiltThrough(g: Graph, root: nat, passes: seq<BranchPass>, trace: Trace, prog: seq<Insn>, h: Graph, k: Graph) {
    BranchChain(g, root, passes, h) && StatementChain(h, trace, k) && Assembled(k, root, prog)
  }

  /** The array comes from the graph by these passes, interning and layout. */
  ghost predicate Built(g: Graph, root: nat, passes: seq<BranchPass>, trace: Trace, prog: seq<Insn>) {
    exists h, k :: BuiltThrough(g, root, passes, trace, prog, h, k)
  }

  lemma ShorterLength(g: Graph, h: Graph)
    requires Shorter(g, h)
    ensures |h| == |g|
  {
  }

  // ---------------------------------------------------------------------
  // Statement passes
  // ---------------------------------------------------------------------

  /** A statement the pass may leave that has no defined effect: a division by the constant 0. */
  predicate ZeroDivisor(s: Stmt) { s.op.Alu? && s.op.src == K && s.k == 0 && (s.op.alu == Div || s.op.alu == Mod) }

  /** opt_stmt keeps statements defined, unless it finds out that a divisor is 0. */
  lemma OptStmtGood(t: seq<Node>, s: Stmt, val: seq<nat>, alter: bool)
    requires |val| == N_ATOMS && GoodStmt(s) && OptStmt(t, s, val, alter).Done?
    ensures var r := OptStmt(t, s, val, alter).s; (GoodStmt(r) || ZeroDivisor(r)) && (Partial(r.op) ==> Partial(s.op))
  {
    hide AluX, Find, ConstOf, Enter, Number, Vstore, StoreNew, SetNew, Fold;
  }

  lemma {:induction false} OptListGood(t: seq<Node>, ss: seq<Stmt>, val: seq<nat>, alter: bool, i: nat)
    requires WellNumbered(t) && InTable(t, val) && GoodList(ss) && OptList(t, ss, val, alter).DoneList? && i < |ss|
    ensures var rw := OptList(t, ss, val, alter).ss;
            |rw| == |ss| && (GoodStmt(rw[i]) || ZeroDivisor(rw[i])) && (Partial(rw[i].op) ==> Partial(ss[i].op))
    decreases |ss|
  {
    hide OptStmt, WellNumbered, GoodStmt, ZeroDivisor, Partial, OptList;
    OptListStep(t, ss, val, alter);
    OptStmtGood(t, ss[0], val, alter);
    if i > 0 {
      var r := OptStmt(t, ss[0], val, alter);
      OptListGood(r.t, ss[1..], r.val, alter, i - 1);
    }
  }

  /** What the pass leaves of a block is defined, or divides by 0; no new division or shift appears. */
  lemma PassedGood(c: Setting, p: PassState, b: nat, i: nat)
    requires Sized(c, p) && b < |c.g| && PassedAt(c, p, b) && i < |p.g[b].stmts|
    ensures |p.g[b].stmts| == |c.g[b].stmts|
    ensures GoodStmt(p.g[b].stmts[i]) || ZeroDivisor(p.g[b].stmts[i])
    ensures Partial(p.g[b].stmts[i].op) ==> Partial(c.g[b].stmts[i].op)
  {
    hide OptList, EdgeInto, EntryOf, WellNumbered, LiveIn, PeepBlock, Left, IsCleared;
    if IsCleared(c, p, b) {
      ClearedIs(c, p, b);
    } else {
      var rw, f := Rewritten(c, p, b), Peepholed(c, p, b);
      var b1 := WithStmts(c.g[b], rw);
      Freshness.LeftIs(c, p, b);
      OptListShape(p.before[b], c.g[b].stmts, p.entry[b], c.alter);
      PeepShape(Renumbered(c, p, b).t, b1, p.exit[b], c.outUse[b]);
      OptListGood(p.before[b], c.g[b].stmts, p.entry[b], c.alter, i);
      assert f.stmts[i].op == Nop || ReworkedAt(rw[i], f.stmts[i]);
      assert p.g[b].stmts[i] == f.stmts[i] || p.g[b].stmts[i].op == Nop;
    }
  }

  lemma ClearedIs(c: Setting, p: PassState, b: nat)
    requires Sized(c, p) && b < |c.g| && PassedAt(c, p, b) && IsCleared(c, p, b)
    ensures p.g[b].stmts == []
  {
    hide OptList, EdgeInto, EntryOf, WellNumbered, PeepBlock;
  }

  /** The pass stops at a refused statement, or finds a divisor to be the constant 0. */
  ghost predicate Stopped(c: Setting, p: PassState) {
    || (exists done, b :: Refusal(c, p, done, b))
    || (Passing(c, p, c.reached)
        && exists b, i :: b in c.reached && b < |p.g| && 0 <= i < |p.g[b].stmts| && ZeroDivisor(p.g[b].stmts[i]))
  }

  lemma PassGood(c: Setting, p: PassState)
    requires Passing(c, p, c.reached) && GoodGraph(c.g)
    ensures Shorter(c.g, p.g) && (GoodGraph(p.g) || Stopped(c, p)) && (AllTotal(c.g, c.reached) ==> GoodGraph(p.g))
  {
    hide PassedAt, Live, Refusal, GoodStmt, ZeroDivisor, Partial;
    forall b, i | 0 <= b < |p.g| && 0 <= i < |p.g[b].stmts|
      ensures GoodStmt(p.g[b].stmts[i]) || (b in c.reached && ZeroDivisor(p.g[b].stmts[i]))
      ensures b in c.reached && Partial(p.g[b].stmts[i].op) ==> |p.g[b].stmts| == |c.g[b].stmts| && Partial(c.g[b].stmts[i].op)
    {
      if b in c.reached {
        assert PassedAt(c, p, b);
        PassedGood(c, p, b, i);
      }
    }
    forall s: Stmt | ZeroDivisor(s)
      ensures Partial(s.op)
    {
      DividesPartially(s);
    }
  }

  lemma DividesPartially(s: Stmt)
    requires ZeroDivisor(s)
    ensures Partial(s.op)
  {
  }

  /** A pass after which the graph is the one that was meant. */
  ghost predicate Harmless(c: Setting, p: PassState) {
    Passing(c, p, c.reached) && AllHandled(c, p) && (AllFresh(c, p) || Freshness.Steady(c, p))
  }

  /** Statement passes one after the other, each with what it started from. */
  type Trace = seq<(Setting, PassState)>

  /** Every pass processed all blocks and left them with statements whose effect is defined. */
  ghost predicate AllComplete(trace: Trace) {
    forall i :: 0 <= i < |trace| ==> Passing(trace[i].0, trace[i].1, trace[i].0.reached) && GoodGraph(trace[i].1.g)
  }

  ghost predicate AllHarmless(trace: Trace) { forall i :: 0 <= i < |trace| ==> Harmless(trace[i].0, trace[i].1) }

  /** What a statement pass keeps of the graph. */
  ghost predicate Proper(g: Graph, h: Graph, root: nat, rank: seq<nat>, s: set<nat>) {
    && Ranked(h, rank) && GoodGraph(h) && Shorter(g, h) && RootOnTop(h, root) && root in s && Closed(h, s)
  }

  lemma PassStaysProper(g: Graph, h0: Graph, root: nat, rank: seq<nat>, s: set<nat>, c: Setting, p: PassState)
    requires Proper(g, h0, root, rank, s) && c.g == h0 && c.reached <= s && root in c.reached && Closed(h0, c.reached)
    requires Passing(c, p, c.reached) && GoodGraph(p.g)
    ensures Proper(g, p.g, root, rank, c.reached)
  {
    hide PassedAt, Live, GoodStmt;
    RankedStill(c, p, rank);
    PassGood(c, p);
    assert forall b :: 0 <= b < |h0| ==> SameShape(h0[b], p.g[b]);
    forall b | b in c.reached
      ensures ClosedAt(p.g, c.reached, b)
    {
      assert ClosedAt(h0, c.reached, b);
    }
  }

  lemma PassStaysTotal(c: Setting, p: PassState, s: set<nat>)
    requires Passing(c, p, c.reached) && AllTotal(c.g, s) && c.reached <= s
    ensures AllTotal(p.g, c.reached)
  {
    hide PassedAt, Live, Partial;
    forall b, i | b in c.reached && b < |p.g| && 0 <= i < |p.g[b].stmts|
      ensures !Partial(p.g[b].stmts[i].op)
    {
      assert PassedAt(c, p, b);
      PassedGood(c, p, b, i);
    }
  }

  /** The first pass starts from the graph as it is, with exact live-out sets. */
  ghost predicate First(trace: Trace, g: Graph, blocks: set<nat>) {
    && |trace| > 0
    && var (c, p) := trace[0];
       && c.g == g && c.reached <= blocks && |c.outUse| == |g| && Passing(c, p, c.reached)
       && forall b :: b in c.reached && b < |g| ==> ExactOut(g, c.outUse[b], b)
  }

  lemma FirstIs(c: Setting, p: PassState, g: Graph, blocks: set<nat>)
    requires c.g == g && c.reached <= blocks && |c.outUse| == |g| && Passing(c, p, c.reached)
    requires forall b :: b in c.reached && b < |g| ==> ExactOut(g, c.outUse[b], b)
    ensures First([(c, p)], g, blocks)
  {
    hide Passing, ExactOut;
  }

  lemma FirstStill(trace: Trace, c: Setting, p: PassState, g: Graph, blocks: set<nat>)
    requires if trace == [] then First([(c, p)], g, blocks) else First(trace, g, blocks)
    ensures First(trace + [(c, p)], g, blocks)
  {
    hide Passing, ExactOut;
    assert (trace + [(c, p)])[0] == if trace == [] then (c, p) else trace[0];
  }

  lemma CompleteStill(trace: Trace, c: Setting, p: PassState)
    requires AllComplete(trace) && Passing(c, p, c.reached) && GoodGraph(p.g)
    ensures AllComplete(trace + [(c, p)])
  {
    hide Passing, GoodGraph;
  }

  lemma LastHarmless(trace: Trace, c: Setting, p: PassState)
    requires AllHarmless(trace + [(c, p)])
    ensures AllHarmless(trace) && Harmless(c, p)
  {
    hide Harmless;
    var longer := trace + [(c, p)];
    assert longer[|trace|] == (c, p) && forall i :: 0 <= i < |trace| ==> longer[i] == trace[i];
  }

  lemma StoppedEarly(c: Setting, p: PassState)
    requires exists done, b :: Refusal(c, p, done, b)
    ensures Stopped(c, p)
  {
  }

  lemma ProperCounts(g: Graph, h: Graph, root: nat, rank: seq<nat>, s: set<nat>, blocks: set<nat>)
    requires Proper(g, h, root, rank, s) && s <= blocks
    ensures |h| == |g| && root < |h| && MaxStmts(h, s, |h|) <= MaxStmts(g, blocks, |g|)
    ensures Ranked(h, rank) && GoodGraph(h) && Closed(h, s) && root in s
  {
    hide Live, Closed;
    MaxStmtsMono(h, g, s, blocks, |g|);
  }

  lemma TotalNotRefused(g: Graph, s: set<nat>)
    requires AllTotal(g, s)
    ensures NothingRefusable(g, s)
  {
  }

  lemma FewerTotal(g: Graph, s: set<nat>, less: set<nat>)
    requires AllTotal(g, s) && less <= s
    ensures AllTotal(g, less)
  {
  }

  /** Every run of `g` that does not reject returns the same in `h`. */
  ghost predicate SameResults(g: Graph, h: Graph, root: nat, rank: seq<nat>) {
    && Ranked(g, rank) && Ranked(h, rank) && root < |g| && root < |h|
    && forall env, st :: !Walk(g, rank, root, env, st).Reject? ==> Walk(h, rank, root, env, st) == Walk(g, rank, root, env, st)
  }

  lemma SameResultsSelf(g: Graph, root: nat, rank: seq<nat>)
    requires Ranked(g, rank) && root < |g|
    ensures SameResults(g, g, root, rank)
  {
  }

  lemma SameResultsTwice(g: Graph, h: Graph, k: Graph, root: nat, rank: seq<nat>)
    requires SameResults(g, h, root, rank) && SameResults(h, k, root, rank)
    ensures SameResults(g, k, root, rank)
  {
    hide Walk;
  }

  /** One pass with do_stmts set, on a graph `k0` that came from `g`. */
  method OneStatementPass(ghost g: Graph, k0: Graph, root: nat, ghost rank: seq<nat>, ghost s: set<nat>, ghost blocks: set<nat>, maxval: nat)
    returns (k: Option<Graph>, ghost c: Setting, ghost p: PassState)
    requires Proper(g, k0, root, rank, s) && s <= blocks && maxval >= 3 * MaxStmts(g, blocks, |g|)
    ensures c.g == k0 && c.reached <= s
    ensures if k.Some? then Passing(c, p, c.reached) && p.g == k.value && GoodGraph(k.value) else Stopped(c, p)
    ensures k.Some? ==> Proper(g, k.value, root, rank, c.reached) && First([(c, p)], k0, s)
    ensures AllTotal(k0, s) ==> k.Some? && AllTotal(k.value, c.reached)
    ensures k.Some? && Harmless(c, p) ==> SameResults(k0, k.value, root, rank)
  {
    hide Walk, Closed, GoodGraph, Passing, ExactOut, AllTotal, Live, Harmless, Stopped, Refusal, AllHandled, AllFresh,
         Freshness.Steady, Freshness.NoRedefinition, NothingRefusable, MaxStmts;
    ProperCounts(g, k0, root, rank, s, blocks);
    var ok, k1;
    ok, k1, c, p := Freshness.OptimizeStatements(k0, root, rank, s, maxval);
    if AllTotal(k0, s) { TotalNotRefused(k0, s); }
    if !ok {
      StoppedEarly(c, p);
      return None, c, p;
    }
    FirstIs(c, p, k0, s);
    PassGood(c, p);
    if AllTotal(k0, s) {
      FewerTotal(k0, s, c.reached);
      PassStaysTotal(c, p, s);
    }
    if !GoodGraph(k1) { return None, c, p; }
    PassStaysProper(g, k0, root, rank, s, c, p);
    if Harmless(c, p) { HarmlessIs(c, p); }
    k := Some(k1);
  }

  /**
   * `m` passes with do_stmts set. They fail exactly when one of them stops, which takes a division
   * or a shift. Every run that does not reject returns the same value, if no pass deletes what is
   * still needed.
   */
  method StatementPasses(g: Graph, root: nat, ghost rank: seq<nat>, ghost blocks: set<nat>, maxval: nat, m: nat)
    returns (h: Option<Graph>, ghost s: set<nat>, ghost trace: Trace)
    requires Proper(g, g, root, rank, blocks) && maxval >= 3 * MaxStmts(g, blocks, |g|)
    ensures if h.Some? then |trace| == m && AllComplete(trace) && Proper(g, h.value, root, rank, s)
            else |trace| > 0 && Stopped(trace[|trace| - 1].0, trace[|trace| - 1].1)
    ensures AllTotal(g, blocks) ==> h.Some?
    ensures m > 0 && h.Some? ==> First(trace, g, blocks)
    ensures h.Some? ==> StatementChain(g, trace, h.value)
    ensures h.Some? && AllHarmless(trace) ==> SameResults(g, h.value, root, rank)
  {
    hide Walk, Proper, GoodGraph, Passing, AllTotal, Harmless, Stopped, StatementChain, First, AllComplete, AllHarmless, MaxStmts,
         SameResults;
    NoStatementPasses(g);
    ProperRanked(g, root, rank, blocks);
    SameResultsSelf(g, root, rank);
    var k := g;
    s, trace := blocks, [];
    var i := 0;
    while i < m
      invariant 0 <= i <= m && |trace| == i && Proper(g, k, root, rank, s) && s <= blocks && (i == 0 ==> k == g && s == blocks)
      invariant StatementChain(g, trace, k)
      invariant AllComplete(trace) && (i > 0 ==> First(trace, g, blocks))
      invariant AllTotal(g, blocks) ==> AllTotal(k, s)
      invariant AllHarmless(trace) ==> SameResults(g, k, root, rank)
    {
      ghost var trace0 := trace;
      var next;
      ghost var c, p;
      next, c, p := OneStatementPass(g, k, root, rank, s, blocks, maxval);
      trace := trace + [(c, p)];
      if next == None { return None, s, trace; }
      FirstStill(trace0, c, p, g, blocks);
      StatementChainNext(g, trace0, k, c, p);
      CompleteStill(trace0, c, p);
      if AllHarmless(trace) {
        LastHarmless(trace0, c, p);
        SameResultsTwice(g, k, next.value, root, rank);
      }
      k, s := next.value, c.reached;
      i := i + 1;
    }
    h := Some(k);
  }

  lemma ProperRanked(g: Graph, root: nat, rank: seq<nat>, s: set<nat>)
    requires Proper(g, g, root, rank, s)
    ensures Ranked(g, rank) && root < |g|
  {
    hide Live, Closed;
  }

  lemma NoStatementPasses(g: Graph)
    ensures StatementChain(g, [], g) && AllComplete([])
  {
  }

  lemma HarmlessIs(c: Setting, p: PassState)
    requires Harmless(c, p)
    ensures Passing(c, p, c.reached) && Sized(c, p) && AllHandled(c, p) && (AllFresh(c, p) || Freshness.Steady(c, p))
  {
  }

  // ---------------------------------------------------------------------
  // Both loops
  // ---------------------------------------------------------------------

  /** Self-contained lists meet the condition on operands. */
  lemma SelfContainedOperands(g: Graph, s: set<nat>)
    requires AllSelfContained(g, s)
    ensures AllOperandsKnown(g, s)
  {
    hide SelfContained, OperandsKnown;
    forall b | b in s && b < |g|
      ensures OperandsKnown(g[b].stmts, {})
    {
      ContainedOperands(g[b]);
    }
  }

  lemma ContainedOperands(b: Block)
    requires SelfContained(b)
    ensures OperandsKnown(b.stmts, {})
  {
    hide LiveIn, Reads, Defines;
    Threading.NeedsNothing(b);
    SelfContainedKnown(b.stmts, {});
  }

  /** A first statement pass on a graph in which nothing is defined twice is harmless. */
  lemma FirstIsHarmless(trace: Trace, g: Graph, s: set<nat>)
    requires First(trace, g, s) && AllSelfContained(g, s) && Freshness.NoRedefinition(g, s)
    ensures Harmless(trace[0].0, trace[0].1)
  {
    hide Passing, ExactOut, SelfContained, OperandsKnown, AllHandled, AllFresh, Freshness.Steady, Freshness.Mergeless,
         Freshness.NeverDefined, Defines;
    var (c, p) := trace[0];
    SelfContainedOperands(g, s);
    OperandsHandled(c, p);
    Freshness.SizedPass(c, p);
    Freshness.NoRedefinitionIsSteady(c, p);
  }

  /**
   * `n` branch-moving passes, `m` statement passes, interning and layout. There is no program exactly
   * when a statement pass stops. The program is valid; on a graph of the code generator's kind it
   * agrees with the graph on every packet the graph does not reject, if no statement pass deletes
   * what is still needed; which is so for one statement pass where nothing is defined twice.
   */
  method OptimizeFully(g: Graph, root: nat, ghost rank: seq<nat>, ghost blocks: set<nat>, maxval: nat, n: nat, m: nat)
    returns (prog: Option<seq<Insn>>, ghost passes: seq<BranchPass>, ghost trace: Trace)
    requires Ranked(g, rank) && GoodGraph(g) && RootOnTop(g, root) && Closed(g, blocks) && root in blocks
    requires AllSelfContained(g, blocks) && Threading.BareReturns(g, blocks)
    requires maxval >= 3 * MaxStmts(g, blocks, |g|) && Layout.Capacity(g, |g|) < 0x8000_0000
    ensures if prog.Some? then |trace| == m && AllComplete(trace) else |trace| > 0 && Stopped(trace[|trace| - 1].0, trace[|trace| - 1].1)
    ensures AllTotal(g, blocks) ==> prog.Some?
    ensures prog.Some? ==> Valid(prog.value) && Forward(prog.value)
                           && forall i :: 0 <= i < |prog.value| ==> !Traps(prog.value[i])
    ensures prog.Some? && AllRaw(g, blocks) && (AllHarmless(trace) || (AllSimple(g, blocks) && n > 0 && m == 1)) ==>
              forall env, st :: !Walk(g, rank, root, env, st).Reject? ==>
                                  Run(prog.value, env, 0, st) == Walk(g, rank, root, env, st)
    ensures |passes| == n && (prog.Some? ==> Built(g, root, passes, trace, prog.value))
  {
    hide Walk, Run, Valid, Traps, Live, Closed, GoodGraph, Layout.Capacity, AllSelfContained, Threading.BareReturns, AllRaw,
         AllQuiet, AllSimple, Freshness.NoRedefinition, AllTotal, Harmless, Stopped, RootOnTop, First, BranchChain, StatementChain,
         Assembled;
    var h;
    ghost var lv, s;
    h, lv, s, passes := BranchPasses(g, root, rank, blocks, maxval, n);
    FitCounts(g, h, root, lv, s, blocks);
    ShorterSelf(h);
    var k;
    ghost var s';
    k, s', trace := StatementPasses(h, root, lv, s, maxval, m);
    if k == None { return None, passes, trace; }
    if AllRaw(g, blocks) && AllSimple(g, blocks) && n > 0 && m == 1 {
      FirstIsHarmless(trace, h, s);
    }
    ShorterTwice(g, h, k.value);
    CapacityShrinks(g, k.value, |g|);
    var p := InternAndFlatten(k.value, root, lv);
    prog := Some(p);
    assert BuiltThrough(g, root, passes, trace, p, h, k.value);
  }

  // ---------------------------------------------------------------------
  // From the expression
  // ---------------------------------------------------------------------

  ghost predicate BuiltFromGraph(e: Gencode.Expr, snaplen: u32, passes: seq<BranchPass>, trace: Trace, prog: seq<Insn>,
                                 g: Graph, root: nat, rank: seq<nat>) {
    Compile.Generated(g, root, rank, e, snaplen) && Built(g, root, passes, trace, prog)
  }

  /** The passes started from a graph that the code generator makes of the expression. */
  ghost predicate BuiltFrom(e: Gencode.Expr, snaplen: u32, passes: seq<BranchPass>, trace: Trace, prog: seq<Insn>) {
    exists g, root, rank :: BuiltFromGraph(e, snaplen, passes, trace, prog, g, root, rank)
  }

  /**
   * The code generator, `n` branch-moving and `m` statement passes, interning and layout. Wherever
   * the expression has a truth value the program returns the snapshot length or 0 as it says, if no
   * mask is compared with 0 and no statement pass deletes what is still needed; one statement pass
   * never does for a plain expression.
   */
  method CompileWithPasses(e: Gencode.Expr, snaplen: u32, n: nat, m: nat)
    returns (prog: Option<seq<Insn>>, ghost passes: seq<BranchPass>, ghost trace: Trace)
    requires Gencode.Sized(e) && Gencode.Bulk(e) < 0x7fff_ffff - 6
    ensures if prog.Some? then snaplen != 0 && Gencode.Accepted(e, MEMWORDS) && |trace| == m && AllComplete(trace)
            else || snaplen == 0 || !Gencode.Accepted(e, MEMWORDS)
                 || (|trace| > 0 && Stopped(trace[|trace| - 1].0, trace[|trace| - 1].1))
    ensures snaplen != 0 && Gencode.Accepted(e, MEMWORDS) && PlainFilters.Total(e) ==> prog.Some?
    ensures prog.Some? ==> Valid(prog.value) && Forward(prog.value)
                           && forall i :: 0 <= i < |prog.value| ==> !Traps(prog.value[i])
    ensures prog.Some? && PlainFilters.NonzeroMasks(e) && (AllHarmless(trace) || (PlainFilters.Plain(e) && n > 0 && m == 1)) ==>
              forall env, st :: Gencode.Truth(e, env).Some? ==>
                                  Run(prog.value, env, 0, st) == Return(if Gencode.Truth(e, env).value then snaplen else 0)
    ensures prog.Some? ==> |passes| == n && BuiltFrom(e, snaplen, passes, trace, prog.value)
  {
    hide Run, Walk, Valid, Traps, Gencode.Truth, Gencode.Accepted, Gencode.Bulk, AllSelfContained, Closed, GoodGraph,
         Layout.Capacity, AllRaw, AllSimple, AllTotal, Stopped, AllHarmless, AllComplete, PlainFilters.NonzeroMasks,
         PlainFilters.PlainEquations, PlainFilters.Total, Threading.BareReturns, Compile.FromTests,
         Built;
    passes, trace := [], [];
    var code;
    ghost var rank;
    code, rank := Compile.GenerateCode(e, snaplen);
    if code == None { return None, passes, trace; }
    var g, root := code.value.0, code.value.1;
    ghost var bs :| Compile.FromTests(g, bs, e, snaplen);
    PlainFilters.GeneratedReturns(g, bs, e, snaplen);
    if PlainFilters.NonzeroMasks(e) { PlainFilters.GeneratedRaw(g, bs, e, snaplen); }
    if PlainFilters.Plain(e) { PlainFilters.PlainSimple(g, bs, e, snaplen); }
    if PlainFilters.Total(e) { PlainFilters.TotalGraph(g, bs, e, snaplen); }
    var maxval := 3 * MaxStmts(g, Analysis.UpTo(|g|), |g|);
    prog, passes, trace := OptimizeFully(g, root, rank, Analysis.UpTo(|g|), maxval, n, m);
    if prog.Some? {
      assert BuiltFromGraph(e, snaplen, passes, trace, prog.value, g, root, rank);
      forall env, st | PlainFilters.NonzeroMasks(e) && (AllHarmless(trace) || (PlainFilters.Plain(e) && n > 0 && m == 1))
                       && Gencode.Truth(e, env).Some?
        ensures Run(prog.value, env, 0, st) == Return(if Gencode.Truth(e, env).value then snaplen else 0)
      {
        assert Walk(g, rank, root, env, st) == Compile.Result(e, snaplen, env);
      }
    }
  }
}
