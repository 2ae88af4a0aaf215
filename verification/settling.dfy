/**
 * Branch-moving passes one after the other (opt_loop of optimize.c with do_stmts clear), on graphs
 * whose tests opt_peep cannot upset: those the code generator builds, and what such passes make of
 * them.
 */
module Settling {
  import opened Words
  import opened Bpf
  import opened Cfg
  import opened Liveness
  import opened ValueNumbers
  import opened Peephole
  import opened StatementPass
  import opened Rewriting
  import opened Threading
  import Analysis
  import Freshness

  // ---------------------------------------------------------------------
  // Blocks
  // ---------------------------------------------------------------------

  predicate Subtraction(op: Op) { op.Alu? && op.alu == Sub }

  predicate SubFree(ss: seq<Stmt>) { forall i :: 0 <= i < |ss| ==> !Subtraction(ss[i].op) }

  /** No mask is tested against 0, now or after a subtraction is absorbed. */
  predicate Unmasked(b: Block) {
    b.Branch? && b.cmp == Jeq ==>
      || (forall i :: 0 <= i < |b.stmts| ==> b.stmts[i].op != Alu(And, K))
      || (b.src == K && b.k != 0 && SubFree(b.stmts))
  }

  /** The last statement loads or computes the accumulator, but not by a subtraction. */
  ghost predicate Quiet(b: Block) {
    b.Branch? ==> exists i: nat :: EndsAt(b.stmts, i) && Defs(b.stmts[i]) == Some(A_ATOM) && !Subtraction(b.stmts[i].op)
  }

  /** `ld M[r]; sub x; jeq #0`: an equation as gen_relation builds it. */
  ghost predicate Equation(b: Block) {
    b.Branch? && b.cmp == Jeq && b.src == K && b.k == 0
    && exists i: nat :: 0 < i && EndsAt(b.stmts, i) && b.stmts[i].op == Alu(Sub, X) && b.stmts[i - 1].op == LdMem
  }

  /** A block before its first pass. */
  ghost predicate Raw(b: Block) {
    Equation(b) || (Quiet(b) && (b.Branch? && b.cmp == Jeq ==> SubFree(b.stmts)))
  }

  ghost predicate AllRaw(g: Graph, s: set<nat>) { forall b :: b in s && b < |g| ==> Raw(g[b]) && Unmasked(g[b]) }

  ghost predicate AllQuiet(g: Graph, s: set<nat>) { forall b :: b in s && b < |g| ==> Quiet(g[b]) && Unmasked(g[b]) }

  // ---------------------------------------------------------------------
  // What opt_peep merges into such blocks
  // ---------------------------------------------------------------------

  lemma EndsOnce(ss: seq<Stmt>, i: nat, j: nat)
    requires EndsAt(ss, i) && EndsAt(ss, j)
    ensures i == j
  {
  }

  /** What is merged is the last statement of the list. */
  lemma MergesLast(c: Setting, p: PassState, b: nat) returns (i: nat)
    requires Sized(c, p) && b < |c.g| && PassedAt(c, p, b) && !c.alter && !MergedAt(c, p, b).Keep?
    ensures var b0 := c.g[b];
            && b0.Branch? && b0.cmp == Jeq && b0.src == K && EndsAt(b0.stmts, i)
            && (if MergedAt(c, p, b).Mask? then b0.stmts[i].op == Alu(And, K) && b0.k == 0 else Subtraction(b0.stmts[i].op))
  {
    hide OptList, WellNumbered, EdgeInto, EntryOf, Left, PeepFrom, LastFrom, Reworked, ConstOf;
    var ss := c.g[b].stmts;
    OptListShape(p.before[b], ss, p.entry[b], false);
    i := LastFrom(ss, 0, 0);
    PeepEnds(ss);
    LastAlu(ss, i);
  }

  lemma UnmaskedUnflipped(c: Setting, p: PassState, b: nat)
    requires Sized(c, p) && b < |c.g| && PassedAt(c, p, b) && !c.alter && Unmasked(c.g[b])
    ensures !MergedAt(c, p, b).Mask?
  {
    hide PassedAt, MergedAt;
    if MergedAt(c, p, b).Mask? {
      var i := MergesLast(c, p, b);
    }
  }

  lemma QuietKeeps(c: Setting, p: PassState, b: nat)
    requires Sized(c, p) && b < |c.g| && PassedAt(c, p, b) && !c.alter && Quiet(c.g[b]) && Unmasked(c.g[b])
    ensures MergedAt(c, p, b).Keep?
  {
    hide PassedAt, MergedAt, Unmasked;
    UnmaskedUnflipped(c, p, b);
    if !MergedAt(c, p, b).Keep? {
      var i := MergesLast(c, p, b);
      var j: nat :| EndsAt(c.g[b].stmts, j) && Defs(c.g[b].stmts[j]) == Some(A_ATOM) && !Subtraction(c.g[b].stmts[j].op);
      EndsOnce(c.g[b].stmts, i, j);
    }
  }

  /** `last` is the last statement of the list, provided another comes before it or it is the head. */
  lemma {:induction false} LastFromEnd(ss: seq<Stmt>, i: nat, last: nat, j: nat)
    requires EndsAt(ss, j) && i <= j && (last == j || exists k :: i <= k < j && ss[k].op != Nop)
    ensures LastFrom(ss, i, last) == j
    decreases |ss| - i
  {
    var s := ThisOp(ss, i);
    if s < |ss| {
      var next := ThisOp(ss, s + 1);
      if next < |ss| {
        LastFromEnd(ss, next, next, j);
      }
    }
  }

  lemma {:induction false} LoadStays(ss: seq<Stmt>, i: nat, k: nat)
    requires i <= |ss| && k < |ss| && (ss[k].op == LdMem || ss[k].op.Alu? || (EndsAt(ss, k) && Defs(ss[k]) == Some(A_ATOM)))
    ensures |PeepFrom(ss, i)| == |ss| && PeepFrom(ss, i)[k] == ss[k]
    decreases |ss| - i
  {
    var s := ThisOp(ss, i);
    if s < |ss| {
      var next := ThisOp(ss, s + 1);
      if next < |ss| {
        var pair := Pair(ss[s], ss[next]);
        var ss' := ss[s := pair.0][next := pair.1];
        assert ss'[k] == ss[k];
        assert forall j :: 0 <= j < |ss| ==> (ss'[j].op == Nop <==> ss[j].op == Nop);
        LoadStays(ss', next, k);
      }
    }
  }

  /** An equation always has its subtraction absorbed, when the accumulator is not used afterwards. */
  lemma EquationMerges(c: Setting, p: PassState, b: nat)
    requires Sized(c, p) && b < |c.g| && PassedAt(c, p, b) && !c.alter && Equation(c.g[b]) && A_ATOM !in c.outUse[b]
    ensures MergedAt(c, p, b).Against?
  {
    hide OptList, WellNumbered, EdgeInto, EntryOf, Left, PeepFrom, LastFrom, ConstOf;
    var ss := c.g[b].stmts;
    OptListShape(p.before[b], ss, p.entry[b], false);
    var i: nat :| 0 < i && EndsAt(ss, i) && ss[i].op == Alu(Sub, X) && ss[i - 1].op == LdMem;
    LastFromEnd(ss, 0, 0, i);
    LoadStays(ss, 0, i);
  }

  // ---------------------------------------------------------------------
  // What a pass leaves of them
  // ---------------------------------------------------------------------

  lemma LeftOps(c: Setting, p: PassState, b: nat)
    requires Sized(c, p) && b < |c.g| && PassedAt(c, p, b) && !c.alter
    ensures var ss, left := c.g[b].stmts, p.g[b].stmts;
            |left| == |ss| && forall i :: 0 <= i < |ss| ==> left[i].op == Nop || ReworkedAt(ss[i], left[i])
  {
    hide OptList, WellNumbered, EdgeInto, EntryOf, Left, PeepBlock, LiveIn;
    var b0, f := c.g[b], Peepholed(c, p, b);
    OptListShape(p.before[b], b0.stmts, p.entry[b], false);
    assert WithStmts(b0, b0.stmts) == b0 && !IsCleared(c, p, b);
    Freshness.LeftIs(c, p, b);
    PeepShape(Renumbered(c, p, b).t, b0, p.exit[b], c.outUse[b]);
    assert forall i :: 0 <= i < |b0.stmts| ==> f.stmts[i].op == Nop || ReworkedAt(b0.stmts[i], f.stmts[i]);
  }

  /** The comparison of a block that is not flipped. */
  lemma LeftTest(c: Setting, p: PassState, b: nat)
    requires Sized(c, p) && b < |c.g| && PassedAt(c, p, b) && !c.alter && c.g[b].Branch? && !MergedAt(c, p, b).Mask?
    ensures var b0, b' := c.g[b], p.g[b];
            b'.Branch? && b'.cmp == b0.cmp && (MergedAt(c, p, b).Keep? && b0.src == K ==> b'.src == K && b'.k == b0.k)
  {
    hide OptList, WellNumbered, EdgeInto, EntryOf, PeepFrom, LastFrom, ConstOf, KnownX, KnownA, NeverSet, Merged, ApplyMerge,
         Strip;
    var b0, r := c.g[b], Renumbered(c, p, b);
    OptListShape(p.before[b], b0.stmts, p.entry[b], false);
    if b0.stmts != [] {
      PeepEnds(b0.stmts);
      var last, b1 := LastFrom(b0.stmts, 0, 0), WithStmts(b0, PeepFrom(b0.stmts, 0));
      MergedFacts(r.t, b1, last, p.exit[b], c.outUse[b]);
      KnownShape(r.t, ApplyMerge(b1, last, Merged(r.t, b1, b1.stmts[last], p.exit[b], c.outUse[b])), p.exit[b]);
    }
  }

  lemma LeftUnmasked(c: Setting, p: PassState, b: nat)
    requires Sized(c, p) && b < |c.g| && PassedAt(c, p, b) && !c.alter && Unmasked(c.g[b])
    ensures Unmasked(p.g[b])
  {
    hide PassedAt, MergedAt;
    UnmaskedUnflipped(c, p, b);
    LeftOps(c, p, b);
    var b0, b' := c.g[b], p.g[b];
    forall i | 0 <= i < |b'.stmts| && b'.stmts[i].op.Alu?
      ensures b'.stmts[i].op == b0.stmts[i].op
    {
      assert ReworkedAt(b0.stmts[i], b'.stmts[i]);
    }
    if b'.Branch? && b0.Branch? {
      LeftTest(c, p, b);
      if b0.cmp == Jeq && SubFree(b0.stmts) && !MergedAt(c, p, b).Keep? {
        var i := MergesLast(c, p, b);
      }
    } else if b'.Branch? {
      LeafStays(c, p, b);
    }
  }

  lemma LeafStays(c: Setting, p: PassState, b: nat)
    requires Sized(c, p) && b < |c.g| && PassedAt(c, p, b)
    ensures c.g[b].Leaf? ==> p.g[b].Leaf?
  {
    hide BlockNumbered;
    NumberedShape(p.t, c.g[b], p.g[b], p.entry[b], p.exit[b], p.oval[b], c.alter, c.outUse[b], p.before[b]);
  }

  lemma StripKeepsLast(ss: seq<Stmt>, out: set<nat>, i: nat, a: nat)
    requires EndsAt(ss, i) && Defs(ss[i]) == Some(a) && a in out
    ensures Strip(ss, out)[i] == ss[i] && EndsAt(Strip(ss, out), i)
  {
    NopsRun(ss[i + 1..], Env([], 0), Zero(), out);
    assert StripAt(ss, i, out) == ss[i];
  }

  lemma StripQuiets(b: Block, ss: seq<Stmt>, out: set<nat>, i: nat)
    requires EndsAt(ss, i) && Defs(ss[i]) == Some(A_ATOM) && !Subtraction(ss[i].op) && A_ATOM in out && b.stmts == Strip(ss, out)
    ensures Quiet(b)
  {
    hide Strip;
    StripKeepsLast(ss, out, i, A_ATOM);
  }

  /** A quiet block stays quiet. */
  lemma LeftQuiet(c: Setting, p: PassState, b: nat)
    requires Sized(c, p) && b < |c.g| && PassedAt(c, p, b) && !c.alter && Quiet(c.g[b]) && Unmasked(c.g[b])
    ensures Quiet(p.g[b])
  {
    hide OptList, WellNumbered, EdgeInto, EntryOf, Left, PeepBlock, PeepFrom, LastFrom, MergedAt, Unmasked, Strip;
    LeafStays(c, p, b);
    if c.g[b].Branch? {
      var ss, f := c.g[b].stmts, Peepholed(c, p, b);
      QuietKeeps(c, p, b);
      OptListShape(p.before[b], ss, p.entry[b], false);
      assert !IsCleared(c, p, b);
      Freshness.LeftIs(c, p, b);
      Freshness.KeptList(c, p, b);
      var i: nat :| EndsAt(ss, i) && Defs(ss[i]) == Some(A_ATOM) && !Subtraction(ss[i].op);
      LoadStays(ss, 0, i);
      EndStays(ss, i);
      StripQuiets(p.g[b], f.stmts, BranchUses(f) + c.outUse[b], i);
    }
  }

  lemma EndStays(ss: seq<Stmt>, i: nat)
    requires EndsAt(ss, i) && |PeepFrom(ss, 0)| == |ss| && PeepFrom(ss, 0)[i] == ss[i]
    ensures EndsAt(PeepFrom(ss, 0), i)
  {
    hide PeepFrom;
    PeepReworks(ss, 0, ss);
    assert forall k :: 0 <= k < |ss| ==> ReworkedAt(ss[k], PeepFrom(ss, 0)[k]);
  }

  lemma MergedList(c: Setting, p: PassState, b: nat, i: nat)
    requires Sized(c, p) && b < |c.g| && PassedAt(c, p, b) && !c.alter && MergedAt(c, p, b).Against? && EndsAt(c.g[b].stmts, i)
    ensures var left := PeepFrom(c.g[b].stmts, 0);
            && |left| == |c.g[b].stmts| && Peepholed(c, p, b).Branch?
            && Peepholed(c, p, b).stmts == left[i := left[i].(op := Nop)]
  {
    hide OptList, WellNumbered, EdgeInto, EntryOf, Left, PeepFrom, LastFrom, ConstOf, KnownX, KnownA, NeverSet, ReworkedAt;
    var b0, ss, r := c.g[b], c.g[b].stmts, Renumbered(c, p, b);
    OptListShape(p.before[b], ss, p.entry[b], false);
    PeepEnds(ss);
    var last := LastFrom(ss, 0, 0);
    LastAlu(ss, last);
    EndsOnce(ss, i, last);
    var b1 := WithStmts(b0, PeepFrom(ss, 0));
    KnownShape(r.t, ApplyMerge(b1, last, Merged(r.t, b1, b1.stmts[last], p.exit[b], c.outUse[b])), p.exit[b]);
  }

  /** An equation is quiet by its first pass. */
  lemma EquationQuiets(c: Setting, p: PassState, b: nat)
    requires Sized(c, p) && b < |c.g| && PassedAt(c, p, b) && !c.alter && Equation(c.g[b]) && A_ATOM !in c.outUse[b]
    ensures Quiet(p.g[b])
  {
    hide OptList, WellNumbered, EdgeInto, EntryOf, Left, PeepBlock, PeepFrom, LastFrom, MergedAt, Strip;
    var ss, f := c.g[b].stmts, Peepholed(c, p, b);
    EquationMerges(c, p, b);
    Freshness.LeftIs(c, p, b);
    var i: nat :| 0 < i && EndsAt(ss, i) && ss[i].op == Alu(Sub, X) && ss[i - 1].op == LdMem;
    MergedList(c, p, b, i);
    LoadStays(ss, 0, i);
    LoadStays(ss, 0, i - 1);
    EndStays(ss, i);
    StripQuiets(p.g[b], f.stmts, BranchUses(f) + c.outUse[b], i - 1);
  }

  // ---------------------------------------------------------------------
  // Numbers of subtractions
  // ---------------------------------------------------------------------

  /** The atoms of `on` have numbers of entries other than subtractions. */
  ghost predicate NotSub(t: seq<Node>, val: seq<nat>, on: set<nat>) {
    |val| == N_ATOMS && forall a :: a in on && 0 <= a < N_ATOMS ==> 1 <= val[a] <= |t| && !Subtraction(t[val[a] - 1].op)
  }

  lemma NotSubStep(t: seq<Node>, s: Stmt, val: seq<nat>, on: set<nat>)
    requires WellNumbered(t) && InTable(t, val) && GoodStmt(s) && NotSub(t, val, on) && Uses(s) <= on && !Subtraction(s.op)
    requires s.op != LdxLen
    ensures var r := OptStmt(t, s, val, false); r.Done? && NotSub(r.t, r.val, After(s, on))
  {
    hide OptStmt, WellNumbered;
    OptStmtShape(t, s, val, false);
    var r := OptStmt(t, s, val, false);
    forall a | a in After(s, on) && 0 <= a < N_ATOMS
      ensures 1 <= r.val[a] <= |r.t| && !Subtraction(r.t[r.val[a] - 1].op)
    {
      OriginStep(t, s, val, a);
    }
  }

  lemma {:induction false} NotSubList(t: seq<Node>, ss: seq<Stmt>, val: seq<nat>, on: set<nat>)
    requires WellNumbered(t) && InTable(t, val) && GoodList(ss) && NotSub(t, val, on) && LiveIn(ss, {}) <= on && SubFree(ss)
    requires forall i :: 0 <= i < |ss| ==> ss[i].op != LdxLen
    ensures var r := OptList(t, ss, val, false); r.DoneList? && NotSub(r.t, r.val, DefinedAfter(ss, on))
    decreases |ss|
  {
    hide OptStmt, WellNumbered, NotSub, Defs, Uses;
    if ss != [] {
      OptStmtShape(t, ss[0], val, false);
      assert Uses(ss[0]) <= LiveIn(ss, {}) && LiveIn(ss[1..], {}) <= After(ss[0], on);
      NotSubStep(t, ss[0], val, on);
      var r := OptStmt(t, ss[0], val, false);
      NotSubList(r.t, ss[1..], r.val, After(ss[0], on));
    }
  }

  lemma NotSubAtEnd(c: Setting, p: PassState, b: nat)
    requires Sized(c, p) && b < |c.g| && PassedAt(c, p, b) && !c.alter && SelfContained(c.g[b]) && c.g[b].Branch? && SubFree(c.g[b].stmts)
    ensures var v := p.exit[b][A_ATOM]; 1 <= v <= |p.t| && !Subtraction(p.t[v - 1].op)
  {
    hide OptList, WellNumbered, EdgeInto, EntryOf, Left, LiveIn, Reads, DefinedAfter, GoodStmt;
    var ss := c.g[b].stmts;
    NeedsNothing(c.g[b]);
    NotSubList(p.before[b], ss, p.entry[b], {});
    TestDefined(c.g[b], DefinedAfter(ss, {}));
  }

  lemma MergedSubAtEnd(c: Setting, p: PassState, b: nat)
    requires Sized(c, p) && b < |c.g| && PassedAt(c, p, b) && !c.alter && MergedAt(c, p, b).Against?
    ensures var v := p.exit[b][A_ATOM]; 1 <= v <= |p.t| && Subtraction(p.t[v - 1].op)
  {
    hide OptList, WellNumbered, EdgeInto, EntryOf, Left, MergedAt;
    var i := MergesLast(c, p, b);
    OptListShape(p.before[b], c.g[b].stmts, p.entry[b], false);
    LastAluNumber(p.before[b], c.g[b].stmts, p.entry[b], false, i);
  }

  // ---------------------------------------------------------------------
  // One pass
  // ---------------------------------------------------------------------

  lemma ReadsNothing(b: Block, a: nat)
    requires SelfContained(b)
    ensures !BlockReads(b, a)
  {
    if a >= N_ATOMS {
      assert forall i :: 0 <= i < |b.stmts| ==> GoodStmt(b.stmts[i]);
    }
  }

  /** Where every block loads what it uses, nothing is live. */
  lemma {:induction false} NothingLive(g: Graph, s: set<nat>, q: seq<nat>, a: nat)
    requires Closed(g, s) && AllSelfContained(g, s) && Trail(g, q) && q[0] in s
    ensures !ReadsAlong(g, q, a)
    decreases |q|
  {
    hide Closed, BlockReads, Defines, SelfContained;
    ReadsNothing(g[q[0]], a);
    ClosedHas(g, s, q[0]);
    if |q| > 1 {
      NothingLive(g, s, q[1..], a);
    }
  }

  lemma NothingUsed(g: Graph, s: set<nat>, outUse: set<nat>, b: nat)
    requires Closed(g, s) && AllSelfContained(g, s) && b in s && b < |g| && ExactOut(g, outUse, b)
    ensures outUse == {}
  {
    hide Closed, SelfContained, ReadsAlong;
    ClosedHas(g, s, b);
    if a :| a in outUse {
      var d := if LiveAt(g, g[b].jt, a) then g[b].jt else g[b].jf;
      assert LiveAt(g, d, a);
      var q :| TrailFrom(g, d, q) && ReadsAlong(g, q, a);
      NothingLive(g, s, q, a);
    }
  }

  /** A pass that found the graph in one of the two states. */
  ghost predicate Calm(c: Setting, p: PassState) {
    && Passing(c, p, c.reached) && !c.alter && Closed(c.g, c.reached) && AllSelfContained(c.g, c.reached)
    && (forall b :: b in c.reached && b < |c.g| ==> ExactOut(c.g, c.outUse[b], b))
    && (AllRaw(c.g, c.reached) || AllQuiet(c.g, c.reached))
  }

  lemma CalmAt(c: Setting, p: PassState, b: nat)
    requires Calm(c, p) && b in c.reached && b < |c.g|
    ensures PassedAt(c, p, b) && SelfContained(c.g[b]) && Unmasked(c.g[b]) && A_ATOM !in c.outUse[b]
  {
    hide PassedAt, SelfContained, Closed, Live, Raw, Quiet, Unmasked, ExactOut;
    assert PassedAt(c, p, b);
    NothingUsed(c.g, c.reached, c.outUse[b], b);
  }

  lemma CalmIsUnflipped(c: Setting, p: PassState)
    requires Calm(c, p)
    ensures Sized(c, p) && Unflipped(c, p)
  {
    hide PassedAt, MergedAt, Unmasked, Closed, ExactOut, AllRaw, AllQuiet, Live;
    forall b | b in c.reached && b < |c.g| && PassedAt(c, p, b)
      ensures !MergedAt(c, p, b).Mask?
    {
      CalmAt(c, p, b);
      UnmaskedUnflipped(c, p, b);
    }
  }

  /** Equations are merged, and their numbers tell them from everything else that is compared. */
  lemma MergesTell(c: Setting, p: PassState, b: nat, q: nat)
    requires Calm(c, p) && b in c.reached && b < |c.g| && q in c.reached && q < |c.g|
    requires Sized(c, p) && PassedAt(c, p, b) && PassedAt(c, p, q) && c.g[q].Branch? && p.g[q].Branch?
    requires MergedAt(c, p, b).Against? && p.g[q].cmp == Jeq && p.exit[b][A_ATOM] == p.exit[q][A_ATOM]
    ensures !MergedAt(c, p, q).Keep?
  {
    hide PassedAt, MergedAt, Unmasked, Closed, ExactOut, Live, Quiet, Equation, SelfContained, SubFree, Passing;
    CalmAt(c, p, b);
    CalmAt(c, p, q);
    if AllQuiet(c.g, c.reached) {
      QuietKeeps(c, p, b);
    }
    UnmaskedUnflipped(c, p, q);
    LeftTest(c, p, q);
    assert Raw(c.g[q]);
    if Equation(c.g[q]) {
      EquationMerges(c, p, q);
    } else {
      NotSubAtEnd(c, p, q);
      MergedSubAtEnd(c, p, b);
    }
  }

  lemma CalmIsUniform(c: Setting, p: PassState)
    requires Calm(c, p)
    ensures Sized(c, p) && Uniform(c, p)
  {
    hide PassedAt, MergedAt, Closed, ExactOut, AllRaw, AllQuiet, Live;
    CalmIsUnflipped(c, p);
    forall b, q | b in c.reached && b < |c.g| && q in c.reached && q < |c.g| && PassedAt(c, p, b) && PassedAt(c, p, q)
                  && p.g[b].Branch? && p.g[q].Branch? && p.g[b].cmp == p.g[q].cmp && p.exit[b][A_ATOM] == p.exit[q][A_ATOM]
                  && !MergedAt(c, p, b).Keep?
      ensures !MergedAt(c, p, q).Keep?
    {
      var i := MergesLast(c, p, b);
      LeafStays(c, p, q);
      LeftTest(c, p, b);
      MergesTell(c, p, b, q);
    }
  }

  /** Whatever state it was in, the graph is quiet afterwards. */
  lemma CalmQuiets(c: Setting, p: PassState, h: Graph)
    requires Calm(c, p) && SameTests(p.g, h)
    ensures AllQuiet(h, c.reached)
  {
    hide PassedAt, Closed, ExactOut, Live, Quiet, Equation, SelfContained, SubFree, Passing, Unmasked, SameTest;
    forall b | b in c.reached && b < |h|
      ensures Quiet(h[b]) && Unmasked(h[b])
    {
      SizedHere(c, p);
      CalmAt(c, p, b);
      LeftUnmasked(c, p, b);
      if Equation(c.g[b]) {
        EquationQuiets(c, p, b);
      } else {
        LeftQuiet(c, p, b);
      }
      assert SameTest(p.g[b], h[b]);
      QuietStill(p.g[b], h[b]);
    }
  }

  lemma SizedHere(c: Setting, p: PassState)
    requires Passing(c, p, c.reached)
    ensures Sized(c, p)
  {
  }

  lemma QuietStill(b: Block, b': Block)
    requires SameTest(b, b') && Quiet(b) && Unmasked(b)
    ensures Quiet(b') && Unmasked(b')
  {
  }

  // ---------------------------------------------------------------------
  // Graphs in which nothing is defined twice
  // ---------------------------------------------------------------------

  /** The only subtraction is that of an equation, and masks are compared with something other than 0. */
  ghost predicate Simple(b: Block) {
    b.Branch? && b.cmp == Jeq ==>
      forall i :: 0 <= i < |b.stmts| && b.stmts[i].op.Alu? ==>
                    && (b.stmts[i].op.alu == Sub ==> Equation(b) && EndsAt(b.stmts, i))
                    && (b.stmts[i].op.alu == And ==> b.src == K && b.k != 0 && SubFree(b.stmts))
  }

  /** Every block is simple, and at most one defines X or a scratch word. */
  ghost predicate AllSimple(g: Graph, s: set<nat>) {
    && (forall b :: b in s && b < |g| ==> Simple(g[b]))
    && forall b, d, a, e :: b in s && b < |g| && d in s && d < |g| && a != A_ATOM && e != A_ATOM
                            && Defines(g[b].stmts, a) && Defines(g[d].stmts, e) ==>
                              b == d
  }

  lemma LeftDefines(c: Setting, p: PassState, b: nat, a: nat)
    requires Sized(c, p) && b < |c.g| && PassedAt(c, p, b) && !c.alter && !MergedAt(c, p, b).Mask? && Defines(p.g[b].stmts, a)
    ensures Defines(c.g[b].stmts, a)
  {
    hide OptList, WellNumbered, EdgeInto, EntryOf, Left, PeepBlock, PeepFrom, LastFrom, MergedAt, LiveIn, Defs;
    var ss, f, left := c.g[b].stmts, Peepholed(c, p, b), p.g[b].stmts;
    OptListShape(p.before[b], ss, p.entry[b], false);
    assert !IsCleared(c, p, b);
    Freshness.LeftIs(c, p, b);
    var i :| 0 <= i < |left| && Defs(left[i]) == Some(a);
    Freshness.NopUses(left[i]);
    assert left[i] == f.stmts[i];
    PeepListIs(c, p, b);
    if ss != [] {
      var after := PeepFrom(ss, 0);
      Freshness.NopUses(f.stmts[i]);
      assert Defs(after[i]) == Some(a);
      Freshness.PeepDefines(ss, 0, a);
    }
  }

  /** The list before dead stores go: one statement at most is missing. */
  lemma PeepListIs(c: Setting, p: PassState, b: nat)
    requires Sized(c, p) && b < |c.g| && PassedAt(c, p, b) && !c.alter && !MergedAt(c, p, b).Mask?
    ensures var ss, f := c.g[b].stmts, Peepholed(c, p, b).stmts;
            if ss == [] then f == []
            else |f| == |PeepFrom(ss, 0)| == |ss| && forall i :: 0 <= i < |ss| ==> f[i].op == Nop || f[i] == PeepFrom(ss, 0)[i]
  {
    hide OptList, WellNumbered, EdgeInto, EntryOf, Left, PeepFrom, LastFrom, ConstOf, KnownX, KnownA, NeverSet, ReworkedAt;
    var b0, ss, r := c.g[b], c.g[b].stmts, Renumbered(c, p, b);
    OptListShape(p.before[b], ss, p.entry[b], false);
    if ss != [] {
      PeepEnds(ss);
      if b0.Branch? {
        var last, b1 := LastFrom(ss, 0, 0), WithStmts(b0, PeepFrom(ss, 0));
        KnownShape(r.t, ApplyMerge(b1, last, Merged(r.t, b1, b1.stmts[last], p.exit[b], c.outUse[b])), p.exit[b]);
      }
    }
  }

  /** A simple block stays simple, and nothing more can be merged into it. */
  lemma LeftSimple(c: Setting, p: PassState, b: nat)
    requires Sized(c, p) && b < |c.g| && PassedAt(c, p, b) && !c.alter && Simple(c.g[b]) && Unmasked(c.g[b])
    requires A_ATOM !in c.outUse[b]
    ensures Simple(p.g[b]) && Freshness.Mergeless(p.g[b])
  {
    hide PassedAt, MergedAt, Unmasked;
    var b0, b' := c.g[b], p.g[b];
    UnmaskedUnflipped(c, p, b);
    LeafStays(c, p, b);
    if b0.Branch? {
      LeftTest(c, p, b);
      if b0.cmp == Jeq {
        forall i | 0 <= i < |b'.stmts| && b'.stmts[i].op.Alu?
          ensures b'.stmts[i].op.alu != Sub
          ensures b'.stmts[i].op.alu == And ==> b'.src == K && b'.k != 0 && SubFree(b'.stmts)
        {
          LeftOperators(c, p, b, i);
        }
      }
    }
  }

  lemma LeftOperators(c: Setting, p: PassState, b: nat, i: nat)
    requires Sized(c, p) && b < |c.g| && PassedAt(c, p, b) && !c.alter && Simple(c.g[b]) && Unmasked(c.g[b])
    requires A_ATOM !in c.outUse[b] && c.g[b].Branch? && c.g[b].cmp == Jeq && i < |p.g[b].stmts| && p.g[b].stmts[i].op.Alu?
    requires !MergedAt(c, p, b).Mask? && p.g[b].Branch?
    ensures p.g[b].stmts[i].op.alu != Sub
    ensures p.g[b].stmts[i].op.alu == And ==> p.g[b].src == K && p.g[b].k != 0 && SubFree(p.g[b].stmts)
  {
    hide PassedAt, MergedAt, Unmasked, Equation;
    var b0, b' := c.g[b], p.g[b];
    LeftOps(c, p, b);
    assert ReworkedAt(b0.stmts[i], b'.stmts[i]);
    forall j | 0 <= j < |b'.stmts| && Subtraction(b'.stmts[j].op)
      ensures Subtraction(b0.stmts[j].op)
    {
      assert ReworkedAt(b0.stmts[j], b'.stmts[j]);
    }
    if b0.stmts[i].op.alu == Sub {
      SubtractionGoes(c, p, b, i);
    } else if b0.stmts[i].op.alu == And {
      if !MergedAt(c, p, b).Keep? {
        var j := MergesLast(c, p, b);
      }
      LeftTest(c, p, b);
    }
  }

  lemma SubtractionGoes(c: Setting, p: PassState, b: nat, i: nat)
    requires Sized(c, p) && b < |c.g| && PassedAt(c, p, b) && !c.alter && Equation(c.g[b]) && A_ATOM !in c.outUse[b]
    requires EndsAt(c.g[b].stmts, i)
    ensures |p.g[b].stmts| == |c.g[b].stmts| && p.g[b].stmts[i].op == Nop
  {
    hide OptList, WellNumbered, EdgeInto, EntryOf, Left, PeepBlock, PeepFrom, LastFrom, MergedAt, LiveIn;
    EquationMerges(c, p, b);
    Freshness.LeftIs(c, p, b);
    MergedList(c, p, b, i);
  }

  lemma CalmStaysSimple(c: Setting, p: PassState, h: Graph)
    requires Calm(c, p) && SameTests(p.g, h) && AllSimple(c.g, c.reached)
    ensures AllSimple(h, c.reached) && forall b :: b in c.reached && b < |h| ==> Freshness.Mergeless(h[b])
  {
    hide PassedAt, Closed, ExactOut, Live, SelfContained, Passing, Unmasked, SameTest, Simple, AllRaw, AllQuiet, MergedAt, Defines,
         Freshness.Mergeless;
    SizedHere(c, p);
    forall b | b in c.reached && b < |h|
      ensures Simple(h[b]) && Freshness.Mergeless(h[b])
      ensures forall a :: Defines(h[b].stmts, a) ==> Defines(c.g[b].stmts, a)
    {
      CalmAt(c, p, b);
      LeftSimple(c, p, b);
      assert SameTest(p.g[b], h[b]);
      SimpleStill(p.g[b], h[b]);
      UnmaskedUnflipped(c, p, b);
      forall a | Defines(h[b].stmts, a)
        ensures Defines(c.g[b].stmts, a)
      {
        LeftDefines(c, p, b, a);
      }
    }
  }

  lemma SimpleStill(b: Block, b': Block)
    requires SameTest(b, b') && Simple(b) && Freshness.Mergeless(b)
    ensures Simple(b') && Freshness.Mergeless(b') && b'.stmts == b.stmts
  {
  }

  lemma {:induction false} TrailsGoDown(g: Graph, rank: seq<nat>, q: seq<nat>, i: nat)
    requires Ranked(g, rank) && Trail(g, q) && i < |q|
    ensures q[i] < |g| && rank[q[i]] <= rank[q[0]]
    decreases |q|
  {
    if i > 0 {
      TrailsGoDown(g, rank, q[1..], i - 1);
    }
  }

  /** Such a graph is one that a statement pass cannot upset. */
  lemma SimpleNoRedefinition(g: Graph, rank: seq<nat>, s: set<nat>)
    requires Ranked(g, rank) && Closed(g, s) && AllSimple(g, s) && forall b :: b in s && b < |g| ==> Freshness.Mergeless(g[b])
    ensures Freshness.NoRedefinition(g, s)
  {
    hide Simple, Freshness.Mergeless, Defines, Closed, LiveAt, Trail;
    forall b, a, d | b in s && b < |g| && a != A_ATOM && Defines(g[b].stmts, a) && IsSuccessor(g[b], d)
      ensures Freshness.NeverDefined(g, d, a)
    {
      forall q, i | TrailFrom(g, d, q) && 0 <= i < |q|
        ensures q[i] < |g| && !Defines(g[q[i]].stmts, a)
      {
        TrailsGoDown(g, rank, q, i);
        ClosedHas(g, s, b);
        StaysInside(g, s, q, i);
      }
    }
  }

  lemma {:induction false} StaysInside(g: Graph, s: set<nat>, q: seq<nat>, i: nat)
    requires Closed(g, s) && Trail(g, q) && i < |q| && q[0] in s
    ensures q[i] in s
    decreases |q|
  {
    hide Closed;
    if i > 0 {
      ClosedHas(g, s, q[0]);
      StaysInside(g, s, q[1..], i - 1);
    }
  }

  // ---------------------------------------------------------------------
  // Any number of passes
  // ---------------------------------------------------------------------

  /** Operators that are not defined for every operand. */
  predicate Partial(op: Op) { op.Alu? && (op.alu == Div || op.alu == Mod || op.alu == Lsh || op.alu == Rsh) }

  /** No block divides or shifts. */
  ghost predicate AllTotal(g: Graph, s: set<nat>) {
    forall b, i :: b in s && b < |g| && 0 <= i < |g[b].stmts| ==> !Partial(g[b].stmts[i].op)
  }

  lemma TotalStill(c: Setting, p: PassState, h: Graph, s: set<nat>)
    requires Passing(c, p, c.reached) && !c.alter && SameTests(p.g, h) && AllTotal(c.g, s) && c.reached <= s
    ensures AllTotal(h, c.reached)
  {
    hide PassedAt, Live;
    forall b, i | b in c.reached && b < |h| && 0 <= i < |h[b].stmts|
      ensures !Partial(h[b].stmts[i].op)
    {
      assert PassedAt(c, p, b) && SameTest(p.g[b], h[b]);
      LeftOps(c, p, b);
      assert p.g[b].stmts[i].op == Nop || ReworkedAt(c.g[b].stmts[i], p.g[b].stmts[i]);
    }
  }

  ghost predicate Shorter(g: Graph, h: Graph) {
    |h| == |g| && forall b :: 0 <= b < |g| ==> |Live(h[b].stmts)| <= |Live(g[b].stmts)|
  }

  /** What every branch-moving pass keeps of a graph from the code generator. */
  ghost predicate Fit(g: Graph, h: Graph, root: nat, rank: seq<nat>, s: set<nat>) {
    && Ranked(h, rank) && GoodGraph(h) && Shorter(g, h) && RootOnTop(h, root)
    && root in s && Closed(h, s) && AllSelfContained(h, s) && BareReturns(h, s)
  }

  lemma StillFit(g: Graph, h0: Graph, root: nat, rank: seq<nat>, s: set<nat>, c: Setting, p: PassState, h: Graph, lv: seq<nat>)
    requires Fit(g, h0, root, rank, s) && c.g == h0 && !c.alter && c.reached <= s && root in c.reached && Passing(c, p, c.reached)
    requires SameTests(p.g, h) && Ranked(h, lv) && RootOnTop(h, root) && Closed(h, c.reached) && AllSelfContained(h, c.reached)
    ensures Fit(g, h, root, lv, c.reached)
  {
    hide PassedAt, Closed, Live, SelfContained, GoodStmt, RootOnTop;
    forall b | 0 <= b < |h|
      ensures GoodList(h[b].stmts) && |Live(h[b].stmts)| <= |Live(g[b].stmts)| && h[b].stmts == p.g[b].stmts
      ensures b in c.reached && h[b].Leaf? ==> h[b].stmts == []
    {
      assert SameTest(p.g[b], h[b]) && SameShape(h0[b], p.g[b]);
      if b in c.reached {
        assert SelfContained(h[b]) && PassedAt(c, p, b);
        SelfContainedGood(h[b]);
        LeftOps(c, p, b);
      }
    }
  }

  /** A branch-moving pass: what it started from, its numbers, and the graph with the edges moved. */
  datatype BranchPass = BranchPass(c: Setting, p: PassState, h: Graph, lv: seq<nat>)

  /** The pass numbered every block from exact live-out sets and moved every edge as far as opt_j does. */
  ghost predicate Made(x: BranchPass, root: nat) {
    && root in x.c.reached && Closed(x.c.g, x.c.reached) && !x.c.alter && |x.c.outUse| == |x.c.g|
    && (forall b :: b in x.c.reached && b < |x.c.g| ==> ExactOut(x.c.g, x.c.outUse[b], b))
    && Passing(x.c, x.p, x.c.reached) && SameTests(x.p.g, x.h)
    && forall b :: b in x.c.reached ==> Threaded(PhaseOf(x.c, x.p, root), x.h, x.lv, b)
  }

  /** Pass `i` starts from the graph that the pass before it left. */
  ghost predicate MadeInTurn(g: Graph, root: nat, passes: seq<BranchPass>, i: nat)
    requires i < |passes|
  {
    Made(passes[i], root) && passes[i].c.g == if i == 0 then g else passes[i - 1].h
  }

  /** Passes one after the other, from graph `g` to graph `h`. */
  ghost predicate BranchChain(g: Graph, root: nat, passes: seq<BranchPass>, h: Graph) {
    && (forall i :: 0 <= i < |passes| ==> MadeInTurn(g, root, passes, i))
    && h == if passes == [] then g else passes[|passes| - 1].h
  }

  lemma BranchChainNext(g: Graph, root: nat, passes: seq<BranchPass>, h: Graph, x: BranchPass)
    requires BranchChain(g, root, passes, h) && Made(x, root) && x.c.g == h
    ensures BranchChain(g, root, passes + [x], x.h)
  {
    hide Made;
    var longer := passes + [x];
    forall i | 0 <= i < |longer|
      ensures MadeInTurn(g, root, longer, i)
    {
      assert i < |passes| ==> MadeInTurn(g, root, passes, i);
    }
  }

  /**
   * `n` passes with do_stmts clear. A graph of the kind the code generator builds keeps the result
   * of every run that does not reject, however many passes are made; one pass makes it quiet.
   */
  method BranchPasses(g: Graph, root: nat, ghost rank: seq<nat>, ghost blocks: set<nat>, maxval: nat, n: nat)
    returns (h: Graph, ghost lv: seq<nat>, ghost s: set<nat>, ghost passes: seq<BranchPass>)
    requires Ranked(g, rank) && GoodGraph(g) && RootOnTop(g, root) && Closed(g, blocks) && root in blocks
    requires AllSelfContained(g, blocks) && BareReturns(g, blocks) && maxval >= 3 * MaxStmts(g, blocks, |g|)
    ensures Fit(g, h, root, lv, s) && s <= blocks
    ensures |passes| == n && BranchChain(g, root, passes, h)
    ensures AllRaw(g, blocks) ==>
              forall env, st :: !Walk(g, rank, root, env, st).Reject? ==>
                                  Walk(h, lv, root, env, st) == Walk(g, rank, root, env, st)
    ensures AllTotal(g, blocks) ==> AllTotal(h, s)
    ensures AllRaw(g, blocks) && n > 0 ==> AllQuiet(h, s)
    ensures AllRaw(g, blocks) && AllSimple(g, blocks) && n > 0 ==> Freshness.NoRedefinition(h, s)
  {
    hide Walk, Closed, GoodGraph, AllSelfContained, BareReturns, AllTotal, AllSimple, AllRaw, AllQuiet, Freshness.NoRedefinition,
         Passing, SameTests, ExactOut, Freshness.Mergeless, Threaded, PhaseOf, BranchChain;
    h, lv, s, passes := g, rank, blocks, [];
    NoPasses(g, root);
    ShorterSelf(g);
    var i := 0;
    while i < n
      invariant 0 <= i <= n && Fit(g, h, root, lv, s) && s <= blocks
      invariant |passes| == i && BranchChain(g, root, passes, h)
      invariant AllRaw(g, blocks) ==> forall env, st :: !Walk(g, rank, root, env, st).Reject? ==>
                                                          Walk(h, lv, root, env, st) == Walk(g, rank, root, env, st)
      invariant AllTotal(g, blocks) ==> AllTotal(h, s)
      invariant AllRaw(g, blocks) ==> if i == 0 then AllRaw(h, s) else AllQuiet(h, s)
      invariant AllRaw(g, blocks) && AllSimple(g, blocks) ==> AllSimple(h, s)
      invariant AllRaw(g, blocks) && AllSimple(g, blocks) && i > 0 ==> forall b :: b in s && b < |h| ==> Freshness.Mergeless(h[b])
    {
      ghost var h0, lv0, s0 := h, lv, s;
      var ok;
      ghost var c, p;
      FitCounts(g, h, root, lv, s, blocks);
      ok, h, c, p, lv := ThreadJumps(h, root, lv, s, maxval);
      s := c.reached;
      StillFit(g, h0, root, lv0, s0, c, p, h, lv);
      BranchChainNext(g, root, passes, h0, BranchPass(c, p, h, lv));
      passes := passes + [BranchPass(c, p, h, lv)];
      if AllTotal(g, blocks) { TotalStill(c, p, h, s0); }
      if AllRaw(g, blocks) {
        CalmHere(h0, s0, c, p, i == 0);
        CalmIsUnflipped(c, p);
        CalmIsUniform(c, p);
        CalmQuiets(c, p, h);
        if AllSimple(g, blocks) {
          FewerSimple(h0, s0, s);
          CalmStaysSimple(c, p, h);
        }
      }
      i := i + 1;
    }
    if AllRaw(g, blocks) && AllSimple(g, blocks) && n > 0 {
      SimpleNoRedefinition(h, lv, s);
    }
  }

  lemma NoPasses(g: Graph, root: nat)
    ensures BranchChain(g, root, [], g)
  {
  }

  lemma ShorterSelf(g: Graph)
    ensures Shorter(g, g)
  {
  }

  lemma FitCounts(g: Graph, h: Graph, root: nat, rank: seq<nat>, s: set<nat>, blocks: set<nat>)
    requires Fit(g, h, root, rank, s) && s <= blocks
    ensures |h| == |g| && root < |h| && MaxStmts(h, s, |h|) <= MaxStmts(g, blocks, |g|)
  {
    hide Live, Closed;
    MaxStmtsMono(h, g, s, blocks, |g|);
  }

  lemma CalmHere(g: Graph, s: set<nat>, c: Setting, p: PassState, first: bool)
    requires Passing(c, p, c.reached) && !c.alter && c.g == g && c.reached <= s && AllSelfContained(g, s) && Closed(g, c.reached)
    requires forall b :: b in c.reached && b < |g| ==> ExactOut(g, c.outUse[b], b)
    requires if first then AllRaw(g, s) else AllQuiet(g, s)
    ensures Calm(c, p)
  {
    hide Passing, Raw, Quiet, Unmasked, SelfContained, Closed, ExactOut;
  }

  lemma FewerSimple(g: Graph, s: set<nat>, less: set<nat>)
    requires AllSimple(g, s) && less <= s
    ensures AllSimple(g, less)
  {
    hide Simple, Defines;
  }
}
