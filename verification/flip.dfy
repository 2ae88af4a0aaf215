/**
 * Where moving edges goes wrong after the peephole step (opt_not, opt_peep and opt_j of
 * optimize.c). `and #1; jeq #0` becomes `jset #1` with the sides exchanged, but the edge dominators
 * were computed before; and a test that absorbed a subtraction keeps the accumulator number it had.
 */
module FlippedSides {
  import opened Words
  import opened Bpf
  import opened Cfg
  import opened Liveness
  import opened ValueNumbers
  import opened Peephole
  import opened StatementPass
  import opened Rewriting
  import opened Threading
  import opened Digraph
  import Analysis
  import Freshness

  function Masked(): seq<Stmt> { WithOne(And) }

  /** Bit 0 of byte 0 is clear, byte 1 is 7, and bit 0 of byte 0 is clear. */
  function Thrice(k: u32): Graph {
    [Branch(Masked(), Jeq, K, 0, 1, 4), Branch([Stmt(LdAbs(B), 1)], Jeq, K, 7, 2, 4), Branch(Masked(), Jeq, K, 0, 3, 4),
     Leaf([], k), Leaf([], 0)]
  }

  function Unmasked(): seq<Stmt> { [Stmt(LdAbs(B), 0), Stmt(Nop, 1)] }

  function Rank(): seq<nat> { [3, 2, 1, 0, 0] }

  function Pass(k: u32): Setting { Setting(Thrice(k), {0, 1, 2, 3, 4}, [{}, {}, {}, {}, {}], false) }

  // ---------------------------------------------------------------------
  // The masked tests have the same numbers
  // ---------------------------------------------------------------------

  /** `ldb [0]` combined with 1. */
  function WithOne(o: AluOp): seq<Stmt> { [Stmt(LdAbs(B), 0), Stmt(Alu(o, K), 1)] }

  function NumberWithOne(t: seq<Node>, o: AluOp): nat {
    Number(t, Node(Alu(o, K), Number(t, Node(LdAbs(B), 0, 0)), Number(t, ConstNode(1))))
  }

  lemma ListWithOne(t: seq<Node>, val: seq<nat>, u: seq<Node>, o: AluOp)
    requires WellNumbered(t) && InTable(t, val) && GoodList(WithOne(o)) && OptList(t, WithOne(o), val, false).DoneList?
    requires OptList(t, WithOne(o), val, false).t <= u
    ensures var r := OptList(t, WithOne(o), val, false); |r.val| == N_ATOMS && r.val[A_ATOM] == NumberWithOne(u, o)
  {
    hide Find, WellNumbered, OptList, Enter;
    var s0, s1 := Stmt(LdAbs(B), 0), Stmt(Alu(o, K), 1);
    var n0 := Node(LdAbs(B), 0, 0);
    var t0, v0 := Enter(t, n0), val[A_ATOM := Number(t, n0)];
    assert OptStmt(t, s0, val, false) == Done(t0, s0, v0);
    var t1, n1 := Enter(t0, ConstNode(1)), Node(Alu(o, K), Number(t, n0), Number(t0, ConstNode(1)));
    assert OptStmt(t0, s1, v0, false) == Done(Enter(t1, n1), s1, v0[A_ATOM := Number(t1, n1)]);
    hide OptStmt;
    OptListStep(t, WithOne(o), val, false);
    assert WithOne(o)[1..] == [s1] && [s1][1..] == [];
    OptListStep(t0, [s1], v0, false);
    OptListNil(Enter(t1, n1), [s1], v0[A_ATOM := Number(t1, n1)], false);
    assert [s1][..0] == [];
    NumberIs(t, u, n0);
    NumberIs(t0, u, ConstNode(1));
    NumberIs(t1, u, n1);
  }

  // ---------------------------------------------------------------------
  // What the first loop of the pass leaves
  // ---------------------------------------------------------------------

  lemma LastOfTwo(o: AluOp)
    ensures PeepFrom(WithOne(o), 0) == WithOne(o) && LastFrom(WithOne(o), 0, 0) == 1
  {
    var ss := WithOne(o);
    assert ThisOp(ss, 0) == 0 && ThisOp(ss, 1) == 1 && ThisOp(ss, 2) == 2;
    assert ss[0 := ss[0]][1 := ss[1]] == ss;
    assert PeepFrom(ss, 1) == ss;
  }

  lemma StripsMask()
    ensures Strip(Unmasked(), {A_ATOM}) == Unmasked() && Strip([Stmt(LdAbs(B), 1)], {A_ATOM}) == [Stmt(LdAbs(B), 1)]
  {
    var ss, out := Unmasked(), {A_ATOM};
    assert ss[1..] == [Stmt(Nop, 1)] && ss[2..] == [] && [Stmt(Nop, 1)][1..] == [];
    assert LiveIn(ss[1..], out) == out;
    assert StripAt(ss, 0, out) == ss[0] && StripAt(ss, 1, out) == ss[1];
    var rr := [Stmt(LdAbs(B), 1)];
    assert rr[1..] == [];
    assert StripAt(rr, 0, out) == rr[0];
  }

  /** The mask moves into the branch and its sides change places. */
  lemma MaskedBlock(c: Setting, p: PassState, b: nat)
    requires Sized(c, p) && b < |c.g| && PassedAt(c, p, b) && !c.alter && c.outUse[b] == {}
    requires c.g[b].Branch? && c.g[b].stmts == Masked() && c.g[b].cmp == Jeq && c.g[b].src == K && c.g[b].k == 0
    ensures p.g[b] == Branch(Unmasked(), Jset, K, 1, c.g[b].jf, c.g[b].jt)
    ensures p.exit[b][A_ATOM] == NumberWithOne(p.t, And) && 1 <= p.oval[b] <= |p.t| && p.t[p.oval[b] - 1] == ConstNode(1)
  {
    hide OptList, WellNumbered, EdgeInto, EntryOf, Strip, PeepFrom, LastFrom, Number;
    var b0, r := c.g[b], Renumbered(c, p, b);
    OptListShape(p.before[b], Masked(), p.entry[b], false);
    ListWithOne(p.before[b], p.entry[b], p.t, And);
    LastOfTwo(And);
    var f := Branch(Unmasked(), Jset, K, 1, b0.jf, b0.jt);
    assert Masked()[1 := Stmt(Nop, 1)] == Unmasked();
    LastAluNumber(p.before[b], Masked(), p.entry[b], false, 1);
    assert PeepBlock(r.t, WithStmts(b0, Masked()), p.exit[b], {}) == f;
    StripsMask();
    assert BranchUses(f) + {} == {A_ATOM};
  }

  lemma PlainBlock(c: Setting, p: PassState, k: u32)
    requires c == Pass(k) && Sized(c, p) && PassedAt(c, p, 1)
    ensures p.g[1] == c.g[1]
  {
    hide OptList, WellNumbered, EdgeInto, EntryOf, Strip, Number;
    var b0, ss, r := c.g[1], c.g[1].stmts, Renumbered(c, p, 1);
    OptListShape(p.before[1], ss, p.entry[1], false);
    assert ThisOp(ss, 0) == 0 && ThisOp(ss, 1) == 1;
    assert PeepFrom(ss, 0) == ss && LastFrom(ss, 0, 0) == 0;
    LoadNumber(p.before[1], p.entry[1]);
    assert PeepBlock(r.t, WithStmts(b0, ss), p.exit[1], {}) == b0;
    StripsMask();
    assert BranchUses(b0) + {} == {A_ATOM};
  }

  lemma LoadNumber(t: seq<Node>, val: seq<nat>)
    requires WellNumbered(t) && InTable(t, val) && GoodList([Stmt(LdAbs(B), 1)])
    ensures var r := OptList(t, [Stmt(LdAbs(B), 1)], val, false);
            r.DoneList? && |r.val| == N_ATOMS && ConstOf(r.t, r.val[A_ATOM]) == None
  {
    hide Find, WellNumbered, OptList;
    var s := Stmt(LdAbs(B), 1);
    OptListShape(t, [s], val, false);
    OptListStep(t, [s], val, false);
    var r := OptStmt(t, s, val, false);
    OptListNil(r.t, [s], r.val, false);
    assert [s][1..] == [s][..0];
  }

  lemma FlippedGraph(c: Setting, p: PassState, k: u32)
    requires c == Pass(k) && Passing(c, p, c.reached)
    ensures p.g[0] == Branch(Unmasked(), Jset, K, 1, 4, 1) && p.g[1] == c.g[1] && p.g[2] == Branch(Unmasked(), Jset, K, 1, 4, 3)
    ensures p.g[3].Leaf? && p.g[3].k == k && p.g[4] == Leaf(p.g[4].stmts, 0) && p.g[4].stmts == []
    ensures Sized(c, p) && p.exit[0][A_ATOM] == p.exit[2][A_ATOM]
    ensures Distinct(p.t) ==> p.oval[0] == p.oval[2]
  {
    hide PassedAt, Live;
    assert forall b :: b in c.reached ==> PassedAt(c, p, b);
    MaskedBlock(c, p, 0);
    PlainBlock(c, p, k);
    MaskedBlock(c, p, 2);
    assert SameShape(c.g[3], p.g[3]) && SameShape(c.g[4], p.g[4]);
    EmptyLeaf(c, p, 4);
  }

  lemma EmptyLeaf(c: Setting, p: PassState, b: nat)
    requires Sized(c, p) && b < |c.g| && PassedAt(c, p, b) && c.g[b].Leaf? && c.g[b].stmts == []
    ensures p.g[b].stmts == []
  {
    hide OptList, WellNumbered, EdgeInto, EntryOf, PeepFrom, LastFrom;
    OptListShape(p.before[b], [], p.entry[b], c.alter);
  }

  // ---------------------------------------------------------------------
  // The move
  // ---------------------------------------------------------------------

  /** Every path to the JT edge of block 1 takes the JT edge of block 0. */
  lemma FirstDominates(k: u32)
    ensures Dominates(Analysis.Edges(Thrice(k)), RootEdges(Thrice(k), 0), 0, 1)
  {
    var g := Thrice(k);
    forall tr | PathTo(Analysis.Edges(g), RootEdges(g, 0), 1, tr)
      ensures exists i :: 0 <= i < |tr| && tr[i] == 0
    {
      assert |tr| > 1;
      assert tr[|tr| - 1] in Analysis.EdgeSuccessors(g, tr[|tr| - 2]);
      assert tr[|tr| - 2] == 0;
    }
  }

  lemma LoadsByte(i: nat, b: u8, env: Env, st: State)
    requires i < |env.pkt| && env.pkt[i] == b && i < TWO32
    ensures Exec(LdAbs(B), i, env, st) == Next(st.(a := b))
  {
  }

  lemma FlagClear(env: Env, st: State)
    requires env.pkt == [0, 7]
    ensures ExecList(Masked(), env, st) == Next(st.(a := 0)) && ExecList(Unmasked(), env, st) == Next(st.(a := 0))
    ensures ExecList([Stmt(LdAbs(B), 1)], env, st) == Next(st.(a := 7))
  {
    hide Exec;
    LoadsByte(0, 0, env, st);
    LoadsByte(1, 7, env, st);
    var st' := st.(a := 0);
    assert Masked()[1..] == [Stmt(Alu(And, K), 1)] && Unmasked()[1..] == [Stmt(Nop, 1)];
    One(Stmt(Alu(And, K), 1), env, st', {});
    One(Stmt(Nop, 1), env, st', {});
    One(Stmt(LdAbs(B), 1), env, st, {});
    NopSkips(Stmt(Nop, 1), env, st');
    MaskZero(env, st');
  }

  lemma MaskZero(env: Env, st: State)
    requires st.a == 0
    ensures Exec(Alu(And, K), 1, env, st) == Next(st) && !Compare(Jset, 0, 1)
  {
    hide BitAnd, BitOr, BitXor, ShiftLeft, ShiftRight, Plus, Minus, Times, Quotient, Remainder;
    BitsZero(1);
  }

  /**
   * After a branch-moving pass has turned the two masked tests round, the numbers make opt_j take
   * the JT edge of block 0, which now means that the bit is set, for a dominator of the edge from
   * block 1 to block 2. It moves that edge to the return of 0, and the result changes.
   */
  lemma FlipFails(c: Setting, p: PassState, k: u32, env: Env, st: State)
    requires c == Pass(k) && Passing(c, p, c.reached) && Distinct(p.t) && env.pkt == [0, 7]
    ensures Sized(c, p) && !Unflipped(c, p)
    ensures Dominates(Analysis.Edges(c.g), RootEdges(c.g, 0), 0, EdgeOf(c.g, 1, true))
    ensures FoldEdge(p.g, p.exit, p.oval, 2, 0) == Some(4) && !Conflicts(p.exit[1], p.exit[4], c.outUse[4])
    ensures var h := Redirected(p.g, 1, true, 4);
            && Ranked(c.g, Rank()) && Ranked(h, Rank())
            && Walk(c.g, Rank(), 0, env, st) == Return(k) && Walk(h, Rank(), 0, env, st) == Return(0)
  {
    hide Passing, Dominates, Walk, Unflipped, FoldEdge, Distinct;
    FlippedGraph(c, p, k);
    FirstDominates(k);
    FoldsFlipped(c, p, k);
    NotUnflipped(c, p, k);
    MovedRuns(p.g, k, env, st);
    OriginalRuns(k, env, st);
  }

  lemma FoldsFlipped(c: Setting, p: PassState, k: u32)
    requires c == Pass(k) && Passing(c, p, c.reached) && Distinct(p.t)
    ensures Sized(c, p) && FoldEdge(p.g, p.exit, p.oval, 2, 0) == Some(4)
  {
    hide Passing;
    FlippedGraph(c, p, k);
    Freshness.SizedPass(c, p);
  }

  lemma NotUnflipped(c: Setting, p: PassState, k: u32)
    requires c == Pass(k) && Passing(c, p, c.reached)
    ensures Sized(c, p) && !Unflipped(c, p)
  {
    hide OptList, WellNumbered, EdgeInto, EntryOf, Left, PeepFrom, LastFrom, Live;
    assert PassedAt(c, p, 0);
    OptListShape(p.before[0], Masked(), p.entry[0], false);
    LastOfTwo(And);
    assert MergedAt(c, p, 0).Mask?;
  }

  lemma ReturnsAt(g: Graph, b: nat, env: Env, st: State)
    requires Ranked(g, Rank()) && b < |g| && g[b].Leaf? && g[b].stmts == []
    ensures Walk(g, Rank(), b, env, st) == Return(g[b].k)
  {
    NothingRuns(env, st);
  }

  lemma OriginalRuns(k: u32, env: Env, st: State)
    requires env.pkt == [0, 7]
    ensures Ranked(Thrice(k), Rank()) && Walk(Thrice(k), Rank(), 0, env, st) == Return(k)
  {
    hide ExecList, WithOne;
    var g, s0, s1 := Thrice(k), st.(a := 0), st.(a := 7);
    FlagClear(env, st);
    FlagClear(env, s0);
    FlagClear(env, s1);
    ReturnsAt(g, 3, env, s0);
    assert Walk(g, Rank(), 2, env, s1) == Walk(g, Rank(), 3, env, s0);
    assert Walk(g, Rank(), 1, env, s0) == Walk(g, Rank(), 2, env, s1);
    assert Walk(g, Rank(), 0, env, st) == Walk(g, Rank(), 1, env, s0);
  }

  lemma MovedRuns(g: Graph, k: u32, env: Env, st: State)
    requires |g| == 5 && g[0] == Branch(Unmasked(), Jset, K, 1, 4, 1) && g[1] == Thrice(k)[1]
    requires g[2] == Branch(Unmasked(), Jset, K, 1, 4, 3) && g[3].Leaf? && g[4] == Leaf([], 0) && env.pkt == [0, 7]
    ensures var h := Redirected(g, 1, true, 4); Ranked(h, Rank()) && Walk(h, Rank(), 0, env, st) == Return(0)
  {
    hide ExecList, Unmasked;
    var h, s0, s1 := Redirected(g, 1, true, 4), st.(a := 0), st.(a := 7);
    FlagClear(env, st);
    FlagClear(env, s0);
    MaskZero(env, s0);
    ReturnsAt(h, 4, env, s1);
    assert Walk(h, Rank(), 1, env, s0) == Walk(h, Rank(), 4, env, s1);
    assert Walk(h, Rank(), 0, env, st) == Walk(h, Rank(), 1, env, s0);
  }

  // ---------------------------------------------------------------------
  // One subtraction absorbed, the same one kept
  // ---------------------------------------------------------------------

  function Moved(): seq<Stmt> { WithOne(Sub) + [Stmt(Tax, 0), Stmt(Txa, 0)] }

  /** Byte 0 minus 1 is 5, and, with a detour through X, byte 0 minus 1 is 6. */
  function Twice(k: u32): Graph {
    [Branch(WithOne(Sub), Jeq, K, 5, 1, 3), Branch(Moved(), Jeq, K, 6, 2, 3), Leaf([], k), Leaf([], 0)]
  }

  function PassTwice(k: u32): Setting { Setting(Twice(k), {0, 1, 2, 3}, [{}, {}, {}, {}], false) }

  function RankTwice(): seq<nat> { [2, 1, 0, 0] }

  lemma AbsorbedBlock(c: Setting, p: PassState, k: u32)
    requires c == PassTwice(k) && Sized(c, p) && PassedAt(c, p, 0)
    ensures p.g[0] == Branch(Unmasked(), Jeq, K, 6, 1, 3) && !MergedAt(c, p, 0).Keep?
    ensures p.exit[0][A_ATOM] == NumberWithOne(p.t, Sub) && 1 <= p.oval[0] <= |p.t| && p.t[p.oval[0] - 1] == ConstNode(6)
  {
    hide OptList, WellNumbered, EdgeInto, EntryOf, Strip, PeepFrom, LastFrom, Number;
    var b0, ss, r := c.g[0], WithOne(Sub), Renumbered(c, p, 0);
    OptListShape(p.before[0], ss, p.entry[0], false);
    ListWithOne(p.before[0], p.entry[0], p.t, Sub);
    LastOfTwo(Sub);
    assert ss[1 := Stmt(Nop, 1)] == Unmasked();
    LastAluNumber(p.before[0], ss, p.entry[0], false, 1);
    var f := Branch(Unmasked(), Jeq, K, 6, 1, 3);
    assert PeepBlock(r.t, WithStmts(b0, ss), p.exit[0], {}) == f;
    StripsMask();
    assert BranchUses(f) + {} == {A_ATOM};
  }

  lemma LastOfMoved()
    ensures PeepFrom(Moved(), 0) == Moved() && LastFrom(Moved(), 0, 0) == 3
  {
    var ss := Moved();
    assert ThisOp(ss, 0) == 0 && ThisOp(ss, 1) == 1 && ThisOp(ss, 2) == 2 && ThisOp(ss, 3) == 3 && ThisOp(ss, 4) == 4;
    assert ss[0 := ss[0]][1 := ss[1]] == ss && ss[1 := ss[1]][2 := ss[2]] == ss && ss[2 := ss[2]][3 := ss[3]] == ss;
    assert PeepFrom(ss, 3) == ss && LastFrom(ss, 3, 3) == 3;
    assert PeepFrom(ss, 2) == ss && LastFrom(ss, 2, 2) == 3;
    assert PeepFrom(ss, 1) == ss && LastFrom(ss, 1, 1) == 3;
  }

  lemma StripsMoved()
    ensures Strip(Moved(), {A_ATOM}) == Moved()
  {
    var ss, out := Moved(), {A_ATOM};
    assert ss[1..] == [ss[1], ss[2], ss[3]] && ss[2..] == [ss[2], ss[3]] && ss[3..] == [ss[3]] && ss[4..] == [];
    assert [ss[1], ss[2], ss[3]][1..] == [ss[2], ss[3]] && [ss[2], ss[3]][1..] == [ss[3]] && [ss[3]][1..] == [];
    assert LiveIn(ss[3..], out) == {X_ATOM};
    assert LiveIn(ss[2..], out) == {A_ATOM};
    assert LiveIn(ss[1..], out) == {A_ATOM};
    assert StripAt(ss, 0, out) == ss[0] && StripAt(ss, 1, out) == ss[1] && StripAt(ss, 2, out) == ss[2] && StripAt(ss, 3, out) == ss[3];
  }

  lemma Parts()
    ensures var ss, s2, s3 := WithOne(Sub), Stmt(Tax, 0), Stmt(Txa, 0);
            Moved() == ss + [s2] + [s3] && GoodList(ss) && GoodList(ss + [s2]) && GoodList(ss + [s2] + [s3])
  {
  }

  lemma Back(t: seq<Node>, val: seq<nat>)
    requires |val| == N_ATOMS
    ensures var s2, s3, v := Stmt(Tax, 0), Stmt(Txa, 0), val[X_ATOM := val[A_ATOM]];
            && OptStmt(t, s2, val, false) == Done(t, s2, v)
            && OptStmt(t, s3, v, false) == Done(t, s3, v[A_ATOM := v[X_ATOM]])
  {
  }

  /** A detour through X leaves the number of the difference. */
  lemma ListMoved(t: seq<Node>, val: seq<nat>, u: seq<Node>)
    requires WellNumbered(t) && InTable(t, val) && GoodList(Moved()) && OptList(t, Moved(), val, false).DoneList?
    requires OptList(t, Moved(), val, false).t <= u
    ensures var r := OptList(t, Moved(), val, false); |r.val| == N_ATOMS && r.val[A_ATOM] == NumberWithOne(u, Sub)
  {
    hide WellNumbered, OptList, OptStmt, WithOne, NumberWithOne;
    var ss, s2, s3 := WithOne(Sub), Stmt(Tax, 0), Stmt(Txa, 0);
    Parts();
    OptListSnoc(t, ss, s2, val);
    OptListSnoc(t, ss + [s2], s3, val);
    var r := OptList(t, ss, val, false);
    OptStmtShape(r.t, s2, r.val, false);
    Back(r.t, r.val);
    ListWithOne(t, val, u, Sub);
  }

  lemma KeptBlock(c: Setting, p: PassState, k: u32)
    requires c == PassTwice(k) && Sized(c, p) && PassedAt(c, p, 1)
    ensures p.g[1] == c.g[1] && MergedAt(c, p, 1).Keep?
    ensures p.exit[1][A_ATOM] == NumberWithOne(p.t, Sub) && 1 <= p.oval[1] <= |p.t| && p.t[p.oval[1] - 1] == ConstNode(6)
  {
    hide OptList, WellNumbered, EdgeInto, EntryOf, Strip, PeepFrom, LastFrom, NumberWithOne;
    var b0, ss, r := c.g[1], Moved(), Renumbered(c, p, 1);
    OptListShape(p.before[1], ss, p.entry[1], false);
    ListMoved(p.before[1], p.entry[1], p.t);
    ListMoved(p.before[1], p.entry[1], r.t);
    DifferenceNotConst(r.t);
    LastOfMoved();
    assert PeepBlock(r.t, WithStmts(b0, ss), p.exit[1], {}) == b0;
    StripsMoved();
    assert BranchUses(b0) + {} == {A_ATOM};
  }

  lemma DifferenceNotConst(t: seq<Node>)
    ensures ConstOf(t, NumberWithOne(t, Sub)) == None
  {
    hide Find;
  }

  lemma Differs(env: Env, st: State)
    requires env.pkt == [6]
    ensures ExecList(WithOne(Sub), env, st) == Next(st.(a := 5)) && ExecList(Unmasked(), env, st) == Next(st.(a := 6))
    ensures ExecList(Moved(), env, st) == Next(st.(a := 5, x := 5))
  {
    hide Exec;
    var s6, s5, s55 := st.(a := 6), st.(a := 5), st.(a := 5, x := 5);
    LoadsByte(0, 6, env, st);
    assert WithOne(Sub)[1..] == [Stmt(Alu(Sub, K), 1)] && Unmasked()[1..] == [Stmt(Nop, 1)];
    One(Stmt(Alu(Sub, K), 1), env, s6, {});
    One(Stmt(Nop, 1), env, s6, {});
    NopSkips(Stmt(Nop, 1), env, s6);
    Minus1(env, s6);
    ExecConcat(WithOne(Sub), [Stmt(Tax, 0), Stmt(Txa, 0)], env, st);
    assert [Stmt(Tax, 0), Stmt(Txa, 0)][1..] == [Stmt(Txa, 0)];
    One(Stmt(Txa, 0), env, s55, {});
    Detour(env, s5);
  }

  lemma Minus1(env: Env, st: State)
    requires st.a == 6
    ensures Exec(Alu(Sub, K), 1, env, st) == Next(st.(a := 5))
  {
  }

  lemma Detour(env: Env, st: State)
    ensures Exec(Tax, 0, env, st) == Next(st.(x := st.a)) && Exec(Txa, 0, env, st.(x := st.a)) == Next(st.(x := st.a))
  {
  }

  /**
   * Block 0 absorbs its subtraction and compares with 6, block 1 keeps it and compares with 6; the
   * accumulator numbers on exit are equal, so opt_j takes the tests for the same.
   */
  lemma MixedFails(c: Setting, p: PassState, k: u32, env: Env, st: State)
    requires c == PassTwice(k) && Passing(c, p, c.reached) && Distinct(p.t) && env.pkt == [6]
    ensures Sized(c, p) && !Uniform(c, p)
    ensures FoldEdge(p.g, p.exit, p.oval, 1, 0) == Some(2) && !Conflicts(p.exit[0], p.exit[2], c.outUse[2])
    ensures var h := Redirected(p.g, 0, true, 2);
            && Ranked(c.g, RankTwice()) && Ranked(h, RankTwice())
            && Walk(c.g, RankTwice(), 0, env, st) == Return(0) && Walk(h, RankTwice(), 0, env, st) == Return(k)
  {
    hide PassedAt, Live, MergedAt, NumberWithOne, Walk, WithOne, Unmasked, Moved;
    assert forall b :: b in c.reached ==> PassedAt(c, p, b);
    AbsorbedBlock(c, p, k);
    KeptBlock(c, p, k);
    EmptyLeaf(c, p, 2);
    EmptyLeaf(c, p, 3);
    assert SameShape(c.g[2], p.g[2]) && SameShape(c.g[3], p.g[3]);
    TwiceRuns(p.g, k, env, st);
  }

  lemma TwiceRuns(g: Graph, k: u32, env: Env, st: State)
    requires g == Twice(k)[0 := Branch(Unmasked(), Jeq, K, 6, 1, 3)] && env.pkt == [6]
    ensures var h := Redirected(g, 0, true, 2);
            && Ranked(Twice(k), RankTwice()) && Ranked(h, RankTwice())
            && Walk(Twice(k), RankTwice(), 0, env, st) == Return(0) && Walk(h, RankTwice(), 0, env, st) == Return(k)
  {
    hide ExecList, Unmasked, WithOne, Moved;
    var g0, h, s5, s6, s55 := Twice(k), Redirected(g, 0, true, 2), st.(a := 5), st.(a := 6), st.(a := 5, x := 5);
    Differs(env, st);
    Differs(env, s5);
    NothingRuns(env, s6);
    NothingRuns(env, s55);
    assert Walk(g0, RankTwice(), 3, env, s55) == Return(0) && Walk(h, RankTwice(), 2, env, s6) == Return(k);
    assert Walk(g0, RankTwice(), 1, env, s5) == Walk(g0, RankTwice(), 3, env, s55);
    assert Walk(g0, RankTwice(), 0, env, st) == Walk(g0, RankTwice(), 1, env, s5);
    assert Walk(h, RankTwice(), 0, env, st) == Walk(h, RankTwice(), 2, env, s6);
  }
}
