/**
 * A filter the optimizer miscompiles: `0 * len >= 0 and len > len` is false of every packet, but
 * after the passes of optimize.c the graph accepts every packet that is not empty.
 */
module StaleDeletion {
  import opened Words
  import opened Bpf
  import opened Cfg
  import opened Liveness
  import opened ValueNumbers
  import opened Peephole
  import opened StatementPass
  import opened Rewriting
  import opened Settling
  import Analysis
  import Arithmetic
  import Backpatch
  import Compile
  import Digraph
  import Freshness
  import Gencode
  import Layout
  import Threading

  function Zeros(): Arithmetic.Arith { Arithmetic.Binary(Mul, Arithmetic.Number(0), Arithmetic.WireLength) }

  function Filter(): Gencode.Expr {
    Gencode.Conj(Gencode.Relation(Jge, Zeros(), Arithmetic.Number(0), false),
         Gencode.Relation(Jgt, Arithmetic.WireLength, Arithmetic.WireLength, false))
  }

  // ---------------------------------------------------------------------
  // The graphs
  // ---------------------------------------------------------------------

  /** What the generator appends for the relations, with the registers alloc_reg hands out. */
  function Left0(): seq<Stmt> { Arithmetic.NumberCode(0, 0) + Arithmetic.LengthCode(1) + Arithmetic.BinaryCode(Mul, 0, 1, 1) }

  function Code0(): seq<Stmt> { Left0() + Arithmetic.NumberCode(0, 2) + Gencode.RelationCode(Jge, 1, 2) }

  function Code1(): seq<Stmt> { Arithmetic.LengthCode(2) + Arithmetic.LengthCode(3) + Gencode.RelationCode(Jgt, 2, 3) }

  function List0(): seq<Stmt> {
    [Stmt(LdImm, 0), Stmt(St, 0), Stmt(LdLen, 0), Stmt(St, 1), Stmt(LdxMem, 1), Stmt(LdMem, 0),
     Stmt(Alu(Mul, X), 0), Stmt(St, 1), Stmt(LdImm, 0), Stmt(St, 2), Stmt(LdxMem, 2), Stmt(LdMem, 1)]
  }

  function List1(): seq<Stmt> {
    [Stmt(LdLen, 0), Stmt(St, 2), Stmt(LdLen, 0), Stmt(St, 3), Stmt(LdxMem, 3), Stmt(LdMem, 2)]
  }

  lemma CodeIs()
    ensures Code0() == List0() && Code1() == List1()
  {
  }

  /** The two tests and the returns; a pass changes the lists, an operand and an edge. */
  function GraphOf(ss0: seq<Stmt>, src: Src, jf: nat, ss1: seq<Stmt>, k: u32): Graph {
    [Branch(ss0, Jge, src, 0, 1, jf), Branch(ss1, Jgt, X, 0, 2, 3), Leaf([], k), Leaf([], 0)]
  }

  /** Stored and reloaded at once: the loads of X become `tax`, and X is compared as a constant. */
  function Once0(): seq<Stmt> {
    [Stmt(LdImm, 0), Stmt(St, 0), Stmt(LdLen, 0), Stmt(Nop, 1), Stmt(Tax, 1), Stmt(LdMem, 0),
     Stmt(Alu(Mul, X), 0), Stmt(St, 1), Stmt(LdImm, 0), Stmt(Nop, 2), Stmt(Nop, 2), Stmt(LdMem, 1)]
  }

  function Once1(): seq<Stmt> {
    [Stmt(LdLen, 0), Stmt(St, 2), Stmt(LdLen, 0), Stmt(Nop, 3), Stmt(Tax, 3), Stmt(LdMem, 2)]
  }

  function Twice0(): seq<Stmt> {
    [Stmt(LdImm, 0), Stmt(St, 0), Stmt(LdLen, 0), Stmt(Nop, 1), Stmt(Tax, 1), Stmt(LdMem, 0),
     Stmt(Alu(Mul, X), 0), Stmt(St, 1), Stmt(Nop, 0), Stmt(Nop, 2), Stmt(Nop, 2), Stmt(LdMem, 1)]
  }

  /** What opt_stmt makes of the lists: in block 1, X already has the number of `len`. */
  function Rewritten0(): seq<Stmt> {
    [Stmt(LdImm, 0), Stmt(St, 0), Stmt(LdLen, 0), Stmt(Nop, 1), Stmt(Tax, 1), Stmt(LdImm, 0),
     Stmt(Nop, 0), Stmt(St, 1), Stmt(Nop, 0), Stmt(Nop, 2), Stmt(Nop, 2), Stmt(Nop, 0)]
  }

  function Rewritten1(): seq<Stmt> {
    [Stmt(LdLen, 0), Stmt(St, 2), Stmt(Nop, 0), Stmt(Nop, 3), Stmt(Nop, 3), Stmt(Nop, 2)]
  }

  /** `mul x` is gone, and so is `tax`, which only it read; block 1 relied on X. */
  function Left3(): seq<Stmt> {
    [Stmt(LdImm, 0), Stmt(Nop, 0), Stmt(LdLen, 0), Stmt(Nop, 1), Stmt(Nop, 1), Stmt(LdImm, 0),
     Stmt(Nop, 0), Stmt(Nop, 1), Stmt(Nop, 0), Stmt(Nop, 2), Stmt(Nop, 2), Stmt(Nop, 0)]
  }

  function Right3(): seq<Stmt> {
    [Stmt(LdLen, 0), Stmt(Nop, 2), Stmt(Nop, 0), Stmt(Nop, 3), Stmt(Nop, 3), Stmt(Nop, 2)]
  }

  function Generated0(k: u32): Graph { GraphOf(List0(), X, 3, List1(), k) }

  function AfterOne(k: u32): Graph { GraphOf(Once0(), K, 3, Once1(), k) }

  function AfterTwo(k: u32): Graph { GraphOf(Twice0(), K, 3, Once1(), k) }

  function Miscompiled(k: u32): Graph { GraphOf(Left3(), K, 1, Right3(), k) }

  function Rank(): seq<nat> { [2, 1, 0, 0] }

  function Blocks(): set<nat> { {0, 1, 2, 3} }

  // ---------------------------------------------------------------------
  // Numbers
  // ---------------------------------------------------------------------

  // ---------------------------------------------------------------------
  // Where numbers come from
  // ---------------------------------------------------------------------

  /** The statement whose number `a` holds after the first `i`, if it is one of them. */
  function Origin(ss: seq<Stmt>, i: nat, a: nat): Option<Stmt>
    requires i <= |ss|
    decreases i
  {
    if i == 0 then None
    else if Defs(ss[i - 1]) != Some(a) then Origin(ss, i - 1, a)
    else if Copies(ss[i - 1]) then Origin(ss, i - 1, CopiedFrom(ss[i - 1]))
    else Some(ss[i - 1])
  }

  lemma {:induction false} OriginRight(t: seq<Node>, ss: seq<Stmt>, val: seq<nat>, i: nat, a: nat)
    requires WellNumbered(t) && InTable(t, val) && GoodList(ss) && i <= |ss| && a < N_ATOMS
    requires forall k :: 0 <= k < |ss| ==> ss[k].op != LdxLen
    ensures var r := OptList(t, ss[..i], val, false);
            r.DoneList? && |r.val| == N_ATOMS && (Origin(ss, i, a).Some? ==> NumberOf(r.t, r.val[a], Origin(ss, i, a).value))
    decreases i
  {
    hide OptStmt, WellNumbered, Defs, OptList, GoodStmt;
    OptListShape(t, ss[..i], val, false);
    if i > 0 {
      var s := ss[i - 1];
      assert ss[..i] == ss[..i - 1] + [s] && GoodStmt(s);
      OptListSnoc(t, ss[..i - 1], s, val);
      OptListShape(t, ss[..i - 1], val, false);
      var r := OptList(t, ss[..i - 1], val, false);
      OriginStep(r.t, s, r.val, a);
      OptStmtShape(r.t, s, r.val, false);
      OriginRight(t, ss, val, i - 1, if Defs(s) == Some(a) && Copies(s) then CopiedFrom(s) else a);
    }
  }

  ghost predicate ConstAt(r: NumberedList, a: nat, c: Option<u32>) {
    r.DoneList? && a < |r.val| && ConstOf(r.t, r.val[a]) == c
  }

  /** Whether an atom ends with a constant is a matter of the statement its number comes from. */
  lemma ConstFrom(t: seq<Node>, ss: seq<Stmt>, val: seq<nat>, a: nat)
    requires WellNumbered(t) && InTable(t, val) && GoodList(ss) && a < N_ATOMS && Origin(ss, |ss|, a).Some?
    requires forall k :: 0 <= k < |ss| ==> ss[k].op != LdxLen
    ensures var s := Origin(ss, |ss|, a).value;
            ConstAt(OptList(t, ss, val, false), a, if s.op == LdImm || s.op == LdxImm then Some(s.k) else None)
  {
    hide OptList, WellNumbered, Origin;
    assert ss[..|ss|] == ss;
    OriginRight(t, ss, val, |ss|, a);
  }

  lemma GoodLists()
    ensures GoodList(List0()) && GoodList(List1()) && GoodList(Once0()) && GoodList(Once1()) && GoodList(Twice0())
  {
  }

  lemma ProductOrigin(ss: seq<Stmt>)
    requires |ss| == 12 && ss[6] == Stmt(Alu(Mul, X), 0) && ss[7] == Stmt(St, 1) && ss[8] == Stmt(LdImm, 0)
    requires ss[9].op == Nop || ss[9] == Stmt(St, 2)
    requires ss[10].op == Nop || ss[10] == Stmt(LdxMem, 2)
    requires ss[11] == Stmt(LdMem, 1)
    ensures Origin(ss, 12, A_ATOM) == Some(ss[6])
  {
    assert Origin(ss, 8, 1) == Origin(ss, 7, A_ATOM) == Some(ss[6]);
    assert Origin(ss, 11, 1) == Origin(ss, 10, 1) == Origin(ss, 9, 1) == Origin(ss, 8, 1);
  }

  lemma ZeroOrigin(ss: seq<Stmt>)
    requires |ss| == 12 && ss[8] == Stmt(LdImm, 0) && ss[9] == Stmt(St, 2) && ss[10] == Stmt(LdxMem, 2) && ss[11] == Stmt(LdMem, 1)
    ensures Origin(ss, 12, X_ATOM) == Some(ss[8])
  {
    assert Origin(ss, 10, 2) == Origin(ss, 9, A_ATOM) == Some(ss[8]);
    assert Origin(ss, 12, X_ATOM) == Origin(ss, 11, X_ATOM) == Origin(ss, 10, 2);
  }

  lemma LengthOrigin(ss: seq<Stmt>)
    requires |ss| == 6 && ss[2] == Stmt(LdLen, 0) && ss[5] == Stmt(LdMem, 2)
    requires (ss[3] == Stmt(St, 3) && ss[4] == Stmt(LdxMem, 3)) || (ss[3].op == Nop && ss[4] == Stmt(Tax, 3))
    ensures Origin(ss, 6, X_ATOM) == Some(ss[2])
  {
    assert Origin(ss, 3, A_ATOM) == Some(ss[2]);
    assert Origin(ss, 6, X_ATOM) == Origin(ss, 5, X_ATOM) == Origin(ss, 4, if ss[3].op == Nop then A_ATOM else 3);
  }

  // ---------------------------------------------------------------------
  // What opt_peep and opt_deadstores make of the lists
  // ---------------------------------------------------------------------

  /** Neighbours that opt_peep leaves alone, without a deleted statement among them. */
  lemma {:induction false} PeepThrough(ss: seq<Stmt>, i: nat, j: nat)
    requires i <= j < |ss| && forall k :: i <= k <= j ==> ss[k].op != Nop
    requires forall k :: i <= k < j ==> Pair(ss[k], ss[k + 1]) == (ss[k], ss[k + 1])
    ensures PeepFrom(ss, i) == PeepFrom(ss, j)
    decreases j - i
  {
    if i < j {
      assert ThisOp(ss, i) == i && ThisOp(ss, i + 1) == i + 1;
      assert ss[i := ss[i]][i + 1 := ss[i + 1]] == ss;
      PeepThrough(ss, i + 1, j);
    }
  }

  lemma PeepAt(ss: seq<Stmt>, i: nat)
    requires i + 1 < |ss| && ss[i].op == St && ss[i + 1] == Stmt(LdxMem, ss[i].k)
    ensures PeepFrom(ss, i) == PeepFrom(ss[i + 1 := Stmt(Tax, ss[i].k)], i + 1)
  {
    assert ThisOp(ss, i) == i && ThisOp(ss, i + 1) == i + 1;
    assert ss[i := ss[i]] == ss;
  }

  lemma PeepEnd(ss: seq<Stmt>, i: nat)
    requires i + 1 == |ss|
    ensures PeepFrom(ss, i) == ss
  {
  }

  lemma PeepLists()
    ensures PeepFrom(List0(), 0) == List0()[4 := Stmt(Tax, 1)][10 := Stmt(Tax, 2)]
    ensures PeepFrom(List1(), 0) == List1()[4 := Stmt(Tax, 3)]
  {
    hide PeepFrom;
    var ss := List0();
    PeepThrough(ss, 0, 3);
    PeepAt(ss, 3);
    var s1 := ss[4 := Stmt(Tax, 1)];
    PeepThrough(s1, 4, 9);
    PeepAt(s1, 9);
    var s2 := s1[10 := Stmt(Tax, 2)];
    PeepThrough(s2, 10, 11);
    PeepEnd(s2, 11);
    var rr := List1();
    PeepThrough(rr, 0, 3);
    PeepAt(rr, 3);
    var r1 := rr[4 := Stmt(Tax, 3)];
    PeepThrough(r1, 4, 5);
    PeepEnd(r1, 5);
  }

  /** One statement of opt_deadstores, seen from the end of the list. */
  lemma LiveStep(ss: seq<Stmt>, out: set<nat>, i: nat, after: set<nat>, before: set<nat>)
    requires i < |ss| && LiveIn(ss[i + 1..], out) == after
    requires before == Uses(ss[i]) + if Defs(ss[i]).Some? then after - {Defs(ss[i]).value} else after
    ensures LiveIn(ss[i..], out) == before
    ensures Strip(ss, out)[i] == if Defs(ss[i]).Some? && Defs(ss[i]).value !in after then ss[i].(op := Nop) else ss[i]
  {
    hide Uses, Defs;
    assert ss[i..][1..] == ss[i + 1..] && ss[i..][0] == ss[i];
  }

  lemma NopStep(ss: seq<Stmt>, out: set<nat>, i: nat, after: set<nat>)
    requires i < |ss| && ss[i].op == Nop && LiveIn(ss[i + 1..], out) == after
    ensures LiveIn(ss[i..], out) == after && Strip(ss, out)[i] == ss[i]
  {
    assert ss[i..][1..] == ss[i + 1..] && ss[i..][0] == ss[i];
  }

  lemma StripsList0()
    ensures Strip(List0()[4 := Stmt(Tax, 1)][10 := Stmt(Tax, 2)], {A_ATOM}) == Once0()
  {
    hide LiveIn, Strip;
    StripsList0Tail(List0()[4 := Stmt(Tax, 1)][10 := Stmt(Tax, 2)], {A_ATOM});
    StripsList0Head(List0()[4 := Stmt(Tax, 1)][10 := Stmt(Tax, 2)], {A_ATOM});
  }

  lemma StripsList0Head(ss: seq<Stmt>, out: set<nat>)
    requires |ss| == 12 && LiveIn(ss[6..], out) == {A_ATOM, X_ATOM}
    requires ss[0] == Stmt(LdImm, 0) && ss[1] == Stmt(St, 0) && ss[2] == Stmt(LdLen, 0)
    requires ss[3] == Stmt(St, 1) && ss[4] == Stmt(Tax, 1) && ss[5] == Stmt(LdMem, 0)
    ensures forall i :: 0 <= i < 6 ==> Strip(ss, out)[i] == Once0()[i]
  {
    hide LiveIn, Strip;
    LiveStep(ss, out, 5, {A_ATOM, X_ATOM}, {0, X_ATOM});
    LiveStep(ss, out, 4, {0, X_ATOM}, {0, A_ATOM});
    LiveStep(ss, out, 3, {0, A_ATOM}, {0, A_ATOM});
    LiveStep(ss, out, 2, {0, A_ATOM}, {0});
    LiveStep(ss, out, 1, {0}, {A_ATOM});
    LiveStep(ss, out, 0, {A_ATOM}, {});
  }

  lemma StripsList0Tail(ss: seq<Stmt>, out: set<nat>)
    requires |ss| == 12 && out == {A_ATOM}
    requires ss[6] == Stmt(Alu(Mul, X), 0) && ss[7] == Stmt(St, 1) && ss[8] == Stmt(LdImm, 0)
    requires ss[9] == Stmt(St, 2) && ss[10] == Stmt(Tax, 2) && ss[11] == Stmt(LdMem, 1)
    ensures LiveIn(ss[6..], out) == {A_ATOM, X_ATOM} && forall i :: 6 <= i < 12 ==> Strip(ss, out)[i] == Once0()[i]
  {
    hide LiveIn, Strip;
    LiveInNothing(out);
    assert ss[12..] == [];
    LiveStep(ss, out, 11, {A_ATOM}, {1});
    LiveStep(ss, out, 10, {1}, {1, A_ATOM});
    LiveStep(ss, out, 9, {1, A_ATOM}, {1, A_ATOM});
    LiveStep(ss, out, 8, {1, A_ATOM}, {1});
    LiveStep(ss, out, 7, {1}, {A_ATOM});
    LiveStep(ss, out, 6, {A_ATOM}, {A_ATOM, X_ATOM});
  }

  lemma StripsList1()
    ensures Strip(List1()[4 := Stmt(Tax, 3)], {A_ATOM, X_ATOM}) == Once1()
  {
    hide LiveIn, Strip;
    var ss, out := List1()[4 := Stmt(Tax, 3)], {A_ATOM, X_ATOM};
    LiveInNothing(out);
    assert ss[6..] == [];
    LiveStep(ss, out, 5, {A_ATOM, X_ATOM}, {2, X_ATOM});
    LiveStep(ss, out, 4, {2, X_ATOM}, {2, A_ATOM});
    LiveStep(ss, out, 3, {2, A_ATOM}, {2, A_ATOM});
    LiveStep(ss, out, 2, {2, A_ATOM}, {2});
    LiveStep(ss, out, 1, {2}, {A_ATOM});
    LiveStep(ss, out, 0, {A_ATOM}, {});
  }

  lemma StripsOnce0()
    ensures Strip(Once0(), {A_ATOM}) == Twice0()
  {
    hide LiveIn, Strip;
    StripsOnce0Tail(Once0(), {A_ATOM});
    StripsOnce0Head(Once0(), {A_ATOM});
  }

  lemma StripsOnce0Head(ss: seq<Stmt>, out: set<nat>)
    requires |ss| == 12 && LiveIn(ss[6..], out) == {A_ATOM, X_ATOM}
    requires ss[0] == Stmt(LdImm, 0) && ss[1] == Stmt(St, 0) && ss[2] == Stmt(LdLen, 0)
    requires ss[3] == Stmt(Nop, 1) && ss[4] == Stmt(Tax, 1) && ss[5] == Stmt(LdMem, 0)
    ensures forall i :: 0 <= i < 6 ==> Strip(ss, out)[i] == Twice0()[i]
  {
    hide LiveIn, Strip;
    LiveStep(ss, out, 5, {A_ATOM, X_ATOM}, {0, X_ATOM});
    LiveStep(ss, out, 4, {0, X_ATOM}, {0, A_ATOM});
    NopStep(ss, out, 3, {0, A_ATOM});
    LiveStep(ss, out, 2, {0, A_ATOM}, {0});
    LiveStep(ss, out, 1, {0}, {A_ATOM});
    LiveStep(ss, out, 0, {A_ATOM}, {});
  }

  lemma StripsOnce0Tail(ss: seq<Stmt>, out: set<nat>)
    requires |ss| == 12 && out == {A_ATOM}
    requires ss[6] == Stmt(Alu(Mul, X), 0) && ss[7] == Stmt(St, 1) && ss[8] == Stmt(LdImm, 0)
    requires ss[9] == Stmt(Nop, 2) && ss[10] == Stmt(Nop, 2) && ss[11] == Stmt(LdMem, 1)
    ensures LiveIn(ss[6..], out) == {A_ATOM, X_ATOM} && forall i :: 6 <= i < 12 ==> Strip(ss, out)[i] == Twice0()[i]
  {
    hide LiveIn, Strip;
    LiveInNothing(out);
    assert ss[12..] == [];
    LiveStep(ss, out, 11, {A_ATOM}, {1});
    NopStep(ss, out, 10, {1});
    NopStep(ss, out, 9, {1});
    LiveStep(ss, out, 8, {1}, {1});
    LiveStep(ss, out, 7, {1}, {A_ATOM});
    LiveStep(ss, out, 6, {A_ATOM}, {A_ATOM, X_ATOM});
  }

  lemma StripsOnce1()
    ensures Strip(Once1(), {A_ATOM, X_ATOM}) == Once1()
  {
    hide LiveIn, Strip;
    var ss, out := Once1(), {A_ATOM, X_ATOM};
    LiveInNothing(out);
    assert ss[6..] == [];
    LiveStep(ss, out, 5, {A_ATOM, X_ATOM}, {2, X_ATOM});
    LiveStep(ss, out, 4, {2, X_ATOM}, {2, A_ATOM});
    NopStep(ss, out, 3, {2, A_ATOM});
    LiveStep(ss, out, 2, {2, A_ATOM}, {2});
    LiveStep(ss, out, 1, {2}, {A_ATOM});
    LiveStep(ss, out, 0, {A_ATOM}, {});
  }

  lemma StripsRewritten0()
    ensures Strip(Rewritten0(), {A_ATOM}) == Left3()
  {
    hide LiveIn, Strip;
    StripsRewritten0Tail(Rewritten0(), {A_ATOM});
    StripsRewritten0Head(Rewritten0(), {A_ATOM});
  }

  lemma StripsRewritten0Head(ss: seq<Stmt>, out: set<nat>)
    requires |ss| == 12 && LiveIn(ss[6..], out) == {A_ATOM}
    requires ss[0] == Stmt(LdImm, 0) && ss[1] == Stmt(St, 0) && ss[2] == Stmt(LdLen, 0)
    requires ss[3] == Stmt(Nop, 1) && ss[4] == Stmt(Tax, 1) && ss[5] == Stmt(LdImm, 0)
    ensures forall i :: 0 <= i < 6 ==> Strip(ss, out)[i] == Left3()[i]
  {
    hide LiveIn, Strip;
    LiveStep(ss, out, 5, {A_ATOM}, {});
    LiveStep(ss, out, 4, {}, {A_ATOM});
    NopStep(ss, out, 3, {A_ATOM});
    LiveStep(ss, out, 2, {A_ATOM}, {});
    LiveStep(ss, out, 1, {}, {A_ATOM});
    LiveStep(ss, out, 0, {A_ATOM}, {});
  }

  lemma StripsRewritten0Tail(ss: seq<Stmt>, out: set<nat>)
    requires |ss| == 12 && out == {A_ATOM}
    requires ss[6] == Stmt(Nop, 0) && ss[7] == Stmt(St, 1) && ss[8] == Stmt(Nop, 0)
    requires ss[9] == Stmt(Nop, 2) && ss[10] == Stmt(Nop, 2) && ss[11] == Stmt(Nop, 0)
    ensures LiveIn(ss[6..], out) == {A_ATOM} && forall i :: 6 <= i < 12 ==> Strip(ss, out)[i] == Left3()[i]
  {
    hide LiveIn, Strip;
    LiveInNothing(out);
    assert ss[12..] == [];
    NopStep(ss, out, 11, {A_ATOM});
    NopStep(ss, out, 10, {A_ATOM});
    NopStep(ss, out, 9, {A_ATOM});
    NopStep(ss, out, 8, {A_ATOM});
    LiveStep(ss, out, 7, {A_ATOM}, {A_ATOM});
    NopStep(ss, out, 6, {A_ATOM});
  }

  lemma StripsRewritten1()
    ensures Strip(Rewritten1(), {A_ATOM, X_ATOM}) == Right3()
  {
    hide LiveIn, Strip;
    var ss, out := Rewritten1(), {A_ATOM, X_ATOM};
    LiveInNothing(out);
    assert ss[6..] == [];
    NopStep(ss, out, 5, {A_ATOM, X_ATOM});
    NopStep(ss, out, 4, {A_ATOM, X_ATOM});
    NopStep(ss, out, 3, {A_ATOM, X_ATOM});
    NopStep(ss, out, 2, {A_ATOM, X_ATOM});
    LiveStep(ss, out, 1, {A_ATOM, X_ATOM}, {A_ATOM, X_ATOM});
    LiveStep(ss, out, 0, {A_ATOM, X_ATOM}, {X_ATOM});
  }

  // ---------------------------------------------------------------------
  // The two branch-moving passes
  // ---------------------------------------------------------------------

  /** opt_peep on a test other than an equation. */
  lemma PeepTest(t: seq<Node>, b: Block, val: seq<nat>, outUse: set<nat>)
    requires |val| == N_ATOMS && b.Branch? && b.stmts != [] && b.cmp != Jeq && b.cmp != Jset
    ensures PeepBlock(t, b, val, outUse) == KnownA(t, KnownX(t, WithStmts(b, PeepFrom(b.stmts, 0)), val), val)
  {
    hide PeepFrom, LastFrom, ConstOf;
    PeepEnds(b.stmts);
  }

  /** The pass starts from a graph with nothing live between blocks. */
  function Pass(g: Graph, alter: bool): Setting { Setting(g, Blocks(), [{}, {}, {}, {}], alter) }

  /** What a pass that alters nothing leaves of a block, when opt_peep makes `f` of it. */
  lemma BlockLeft(c: Setting, p: PassState, b: nat, f: Block)
    requires Sized(c, p) && b < |c.g| && PassedAt(c, p, b) && !c.alter && c.outUse[b] == {} && c.g[b].Branch?
    requires PeepBlock(Renumbered(c, p, b).t, c.g[b], p.exit[b], {}) == f
    ensures p.g[b] == WithStmts(f, Strip(f.stmts, BranchUses(f)))
  {
    hide OptList, WellNumbered, EdgeInto, EntryOf, Strip, PeepBlock;
    OptListShape(p.before[b], c.g[b].stmts, p.entry[b], false);
    assert WithStmts(c.g[b], c.g[b].stmts) == c.g[b] && BranchUses(f) + {} == BranchUses(f);
  }

  lemma LeavesLeft(c: Setting, p: PassState, b: nat)
    requires Sized(c, p) && b < |c.g| && PassedAt(c, p, b) && c.g[b].Leaf? && c.g[b].stmts == []
    ensures p.g[b] == c.g[b]
  {
    hide OptList, WellNumbered, EdgeInto, EntryOf, PeepFrom, LastFrom;
    OptListShape(p.before[b], [], p.entry[b], c.alter);
  }

  lemma FirstBlock(c: Setting, p: PassState, k: u32)
    requires c == Pass(Generated0(k), false) && Sized(c, p) && PassedAt(c, p, 0)
    ensures p.g[0] == AfterOne(k)[0]
  {
    hide OptList, WellNumbered, EdgeInto, EntryOf, Strip, PeepFrom, Left, Origin;
    var b, r := c.g[0], Renumbered(c, p, 0);
    var f := Branch(List0()[4 := Stmt(Tax, 1)][10 := Stmt(Tax, 2)], Jge, K, 0, 1, 3);
    GoodLists();
    ProductOrigin(List0());
    ZeroOrigin(List0());
    ConstFrom(p.before[0], List0(), p.entry[0], A_ATOM);
    ConstFrom(p.before[0], List0(), p.entry[0], X_ATOM);
    PeepTest(r.t, b, p.exit[0], {});
    PeepLists();
    BlockLeft(c, p, 0, f);
    StripsList0();
  }

  /** Block 1 is the same in both passes: X is the length, which is no constant. */
  lemma SecondBlock(c: Setting, p: PassState, ss: seq<Stmt>, f: seq<Stmt>)
    requires Sized(c, p) && |c.g| == 4 && PassedAt(c, p, 1) && !c.alter && c.outUse[1] == {}
    requires c.g[1] == Branch(ss, Jgt, X, 0, 2, 3) && PeepFrom(ss, 0) == f && (ss == List1() || ss == Once1())
    requires Strip(f, {A_ATOM, X_ATOM}) == Once1()
    ensures p.g[1] == Branch(Once1(), Jgt, X, 0, 2, 3)
  {
    hide OptList, WellNumbered, EdgeInto, EntryOf, Strip, PeepFrom, Left, Origin;
    var b, r := c.g[1], Renumbered(c, p, 1);
    GoodLists();
    LengthOrigin(ss);
    ConstFrom(p.before[1], ss, p.entry[1], X_ATOM);
    PeepTest(r.t, b, p.exit[1], {});
    BlockLeft(c, p, 1, Branch(f, Jgt, X, 0, 2, 3));
  }

  lemma FirstPass(c: Setting, p: PassState, k: u32)
    requires c == Pass(Generated0(k), false) && Passing(c, p, c.reached)
    ensures p.g == AfterOne(k)
  {
    hide PassedAt, Live, PeepFrom, Strip;
    assert forall b :: b in Blocks() ==> PassedAt(c, p, b);
    FirstBlock(c, p, k);
    PeepLists();
    StripsList1();
    SecondBlock(c, p, List1(), List1()[4 := Stmt(Tax, 3)]);
    LeavesLeft(c, p, 2);
    LeavesLeft(c, p, 3);
  }

  /** Lists opt_peep leaves alone: no `ldx M[k]`, and `tax` only after `ld len`. */
  predicate Inert(ss: seq<Stmt>) { forall j :: 0 <= j < |ss| ==> InertAt(ss, j) }

  predicate InertAt(ss: seq<Stmt>, j: nat)
    requires j < |ss|
  {
    ss[j].op != LdxMem && (ss[j].op == Tax ==> j >= 2 && ss[j - 1].op == Nop && ss[j - 2].op == LdLen)
  }

  lemma InertPair(ss: seq<Stmt>, s: nat, next: nat)
    requires Inert(ss) && s < next < |ss| && ss[s].op != Nop && forall k :: s < k < next ==> ss[k].op == Nop
    ensures Pair(ss[s], ss[next]) == (ss[s], ss[next]) && ss[s := ss[s]][next := ss[next]] == ss
  {
    assert InertAt(ss, next);
    if ss[next].op == Tax {
      assert !(s < next - 2 < next);
      assert s == next - 2;
    }
  }

  lemma {:induction false} PeepNothing(ss: seq<Stmt>, i: nat)
    requires Inert(ss) && i <= |ss|
    ensures PeepFrom(ss, i) == ss
    decreases |ss| - i
  {
    hide Inert, Pair;
    var s := ThisOp(ss, i);
    if s < |ss| {
      var next := ThisOp(ss, s + 1);
      if next < |ss| {
        InertPair(ss, s, next);
        PeepNothing(ss, next);
      }
    }
  }

  lemma InertLists()
    ensures Inert(Once0()) && Inert(Once1())
  {
  }

  lemma InertRewritten()
    ensures Inert(Rewritten0()) && Inert(Rewritten1())
  {
  }

  lemma FirstBlockAgain(c: Setting, p: PassState, k: u32)
    requires c == Pass(AfterOne(k), false) && Sized(c, p) && PassedAt(c, p, 0)
    ensures p.g[0] == AfterTwo(k)[0]
  {
    hide OptList, WellNumbered, EdgeInto, EntryOf, Strip, PeepFrom, Left, Origin, Inert;
    var b, r := c.g[0], Renumbered(c, p, 0);
    GoodLists();
    ProductOrigin(Once0());
    ConstFrom(p.before[0], Once0(), p.entry[0], A_ATOM);
    PeepTest(r.t, b, p.exit[0], {});
    InertLists();
    PeepNothing(Once0(), 0);
    BlockLeft(c, p, 0, b);
    StripsOnce0();
  }

  lemma SecondPass(c: Setting, p: PassState, k: u32)
    requires c == Pass(AfterOne(k), false) && Passing(c, p, c.reached)
    ensures p.g == AfterTwo(k)
  {
    hide PassedAt, Live, PeepFrom, Strip, Inert;
    assert forall b :: b in Blocks() ==> PassedAt(c, p, b);
    FirstBlockAgain(c, p, k);
    InertLists();
    PeepNothing(Once1(), 0);
    StripsOnce1();
    SecondBlock(c, p, Once1(), Once1());
    LeavesLeft(c, p, 2);
    LeavesLeft(c, p, 3);
  }

  /** No edge moves in either pass: the two tests have different opcodes. */
  lemma NothingMoves(c: Setting, p: PassState)
    requires Sized(c, p) && |c.g| == 4 && p.g[0].Branch? && p.g[1].Branch? && p.g[2].Leaf? && p.g[3].Leaf? && c.reached == Blocks()
    requires p.g[0].cmp == Jge && p.g[1].cmp == Jgt && p.g[0].jt == 1 && p.g[0].jf == 3 && p.g[1].jt == 2 && p.g[1].jf == 3
    ensures Threading.Unmoved(c, p, 0)
  {
    hide Digraph.Dominates;
    forall b, side | b in c.reached && b < |p.g| && p.g[b].Branch?
      ensures Threading.Stuck(p.g, p.exit, p.oval, Successor(p.g[b], side),
                              Threading.Dominators(c.g, 0, Threading.EdgeOf(c.g, b, side)))
    {
      if b == 0 && side {
        forall d: nat | d in Threading.Dominators(c.g, 0, 0)
          ensures d == 0
        {
          OnlyItself(c.g, d);
        }
      }
    }
  }

  lemma OnlyItself(g: Graph, d: nat)
    requires |g| > 0 && Digraph.Dominates(Analysis.Edges(g), Threading.RootEdges(g, 0), d, 0)
    ensures d == 0
  {
    assert Digraph.PathTo(Analysis.Edges(g), Threading.RootEdges(g, 0), 0, [0]);
  }

  // ---------------------------------------------------------------------
  // The statement pass
  // ---------------------------------------------------------------------

  /** Numbers for M[0], M[1], M[2], A and X. */
  function Vals(m0: nat, m1: nat, m2: nat, a: nat, x: nat): seq<nat> {
    [m0, m1, m2, 0, 0, 0, 0, 0, 0, 0, 0, 0, 0, 0, 0, 0, a, x]
  }

  const LEN: Node := Node(LdLen, 0, 0)

  /** `c` numbers the constant 0 and `l` the length. */
  ghost predicate Both(t: seq<Node>, c: nat, l: nat) {
    && WellNumbered(t) && 1 <= c <= |t| && 1 <= l <= |t| && c != l && t[c - 1] == ConstNode(0) && t[l - 1] == LEN
    && Number(t, ConstNode(0)) == c && Number(t, LEN) == l && Enter(t, ConstNode(0)) == t && Enter(t, LEN) == t
  }

  lemma {:induction false} OptListJoin(t: seq<Node>, s1: seq<Stmt>, s2: seq<Stmt>, val: seq<nat>, r1: NumberedList, r2: NumberedList)
    requires WellNumbered(t) && InTable(t, val) && GoodList(s1) && GoodList(s2) && GoodList(s1 + s2)
    requires r1.DoneList? && OptList(t, s1, val, true) == r1 && WellNumbered(r1.t) && InTable(r1.t, r1.val)
    requires r2.DoneList? && OptList(r1.t, s2, r1.val, true) == r2
    ensures OptList(t, s1 + s2, val, true) == DoneList(r2.t, r1.ss + r2.ss, r2.val)
    decreases |s1|
  {
    hide OptStmt, WellNumbered;
    if s1 == [] {
      assert s1 + s2 == s2 && r1.ss + r2.ss == r2.ss;
    } else {
      assert (s1 + s2)[0] == s1[0] && (s1 + s2)[1..] == s1[1..] + s2;
      OptListStep(t, s1, val, true);
      var r := OptStmt(t, s1[0], val, true);
      var r' := OptList(r.t, s1[1..], r.val, true);
      assert r1.ss == [r.s] + r'.ss;
      OptListJoin(r.t, s1[1..], s2, r.val, r', r2);
      assert [r.s] + (r'.ss + r2.ss) == r1.ss + r2.ss;
    }
  }

  lemma TwoNumbers(t: seq<Node>) returns (t1: seq<Node>, t2: seq<Node>, c: nat, l: nat)
    requires WellNumbered(t)
    ensures t1 == Enter(t, ConstNode(0)) && c == Number(t, ConstNode(0)) && t2 == Enter(t1, LEN) && l == Number(t1, LEN)
    ensures WellNumbered(t1) && c <= |t1| && Both(t2, c, l) && t <= t1 <= t2
  {
    hide Find, WellNumbered;
    t1, c := Enter(t, ConstNode(0)), Number(t, ConstNode(0));
    t2, l := Enter(t1, LEN), Number(t1, LEN);
    EnterWellNumbered(t, ConstNode(0));
    EnterWellNumbered(t1, LEN);
    FindEntered(t, ConstNode(0));
    FindEntered(t1, LEN);
    NumberStays(t1, t2, ConstNode(0));
    assert t2[c - 1] == ConstNode(0) && t2[l - 1] == LEN;
  }

  /** `ld #0; st M[0]; ld len` */
  lemma Triple0(t: seq<Node>) returns (t2: seq<Node>, c: nat, l: nat)
    requires WellNumbered(t)
    ensures Both(t2, c, l) && t <= t2
    ensures var s0, s1, s2 := Stmt(LdImm, 0), Stmt(St, 0), Stmt(LdLen, 0);
            OptList(t, [s0, s1, s2], Vals(0, 0, 0, 0, 0), true) == DoneList(t2, [s0, s1, s2], Vals(c, 0, 0, l, 0))
  {
    hide Find, Enter, WellNumbered, OptList;
    var t1;
    t1, t2, c, l := TwoNumbers(t);
    var s0, s1, s2 := Stmt(LdImm, 0), Stmt(St, 0), Stmt(LdLen, 0);
    var v0, v1, v2, v3 := Vals(0, 0, 0, 0, 0), Vals(0, 0, 0, c, 0), Vals(c, 0, 0, c, 0), Vals(c, 0, 0, l, 0);
    assert v0[A_ATOM := c] == v1 && v1[0 := c] == v2 && v2[A_ATOM := l] == v3;
    assert OptStmt(t, s0, v0, true) == Done(t1, s0, v1);
    assert OptStmt(t1, s1, v1, true) == Done(t1, s1, v2);
    assert OptStmt(t1, s2, v2, true) == Done(t2, s2, v3);
    hide OptStmt;
    OptThree(s0, s1, s2, t, v0);
  }

  /** `tax; ld M[0]`: the load becomes `ld #0`. */
  lemma Triple1(t: seq<Node>, c: nat, l: nat)
    requires Both(t, c, l)
    ensures var s0, s1, s2 := Stmt(Nop, 1), Stmt(Tax, 1), Stmt(LdMem, 0);
            OptList(t, [s0, s1, s2], Vals(c, 0, 0, l, 0), true) == DoneList(t, [s0, s1, Stmt(LdImm, 0)], Vals(c, 0, 0, c, l))
  {
    hide Find, Enter, Number, WellNumbered, OptList;
    var s0, s1, s2 := Stmt(Nop, 1), Stmt(Tax, 1), Stmt(LdMem, 0);
    var v0, v1, v2 := Vals(c, 0, 0, l, 0), Vals(c, 0, 0, l, l), Vals(c, 0, 0, c, l);
    assert v0[X_ATOM := l] == v1 && v1[A_ATOM := c] == v2;
    assert OptStmt(t, s0, v0, true) == Done(t, s0, v0);
    assert OptStmt(t, s1, v0, true) == Done(t, s1, v1);
    assert OptStmt(t, s2, v1, true) == Done(t, Stmt(LdImm, 0), v2);
    hide OptStmt;
    OptThree(s0, s1, s2, t, v0);
  }

  /** `mul x; st M[1]`: 0 times anything is the 0 that is there. */
  lemma Triple2(t: seq<Node>, c: nat, l: nat)
    requires Both(t, c, l)
    ensures var s0, s1, s2 := Stmt(Alu(Mul, X), 0), Stmt(St, 1), Stmt(Nop, 0);
            OptList(t, [s0, s1, s2], Vals(c, 0, 0, c, l), true) == DoneList(t, [Stmt(Nop, 0), s1, s2], Vals(c, c, 0, c, l))
  {
    hide Find, Enter, Number, WellNumbered, OptList;
    var s0, s1, s2 := Stmt(Alu(Mul, X), 0), Stmt(St, 1), Stmt(Nop, 0);
    var v0, v1 := Vals(c, 0, 0, c, l), Vals(c, c, 0, c, l);
    assert v0[1 := c] == v1;
    assert OptStmt(t, s0, v0, true) == Done(t, Stmt(Nop, 0), v0);
    assert OptStmt(t, s1, v0, true) == Done(t, s1, v1);
    assert OptStmt(t, s2, v1, true) == Done(t, s2, v1);
    hide OptStmt;
    OptThree(s0, s1, s2, t, v0);
  }

  /** `ld M[1]`: A already has that number. */
  lemma Triple3(t: seq<Node>, c: nat, l: nat)
    requires Both(t, c, l)
    ensures var s0, s2 := Stmt(Nop, 2), Stmt(LdMem, 1);
            OptList(t, [s0, s0, s2], Vals(c, c, 0, c, l), true) == DoneList(t, [s0, s0, Stmt(Nop, 0)], Vals(c, c, 0, c, l))
  {
    hide Find, Enter, Number, WellNumbered, OptList;
    var s0, s2, v := Stmt(Nop, 2), Stmt(LdMem, 1), Vals(c, c, 0, c, l);
    assert OptStmt(t, s0, v, true) == Done(t, s0, v);
    assert OptStmt(t, s2, v, true) == Done(t, Stmt(Nop, 0), v);
    hide OptStmt;
    OptThree(s0, s0, s2, t, v);
  }

  function Rest0(): seq<Stmt> {
    [Stmt(Nop, 1), Stmt(Tax, 1), Stmt(LdMem, 0), Stmt(Alu(Mul, X), 0), Stmt(St, 1), Stmt(Nop, 0),
     Stmt(Nop, 2), Stmt(Nop, 2), Stmt(LdMem, 1)]
  }

  function RewrittenRest0(): seq<Stmt> {
    [Stmt(Nop, 1), Stmt(Tax, 1), Stmt(LdImm, 0), Stmt(Nop, 0), Stmt(St, 1), Stmt(Nop, 0), Stmt(Nop, 2), Stmt(Nop, 2), Stmt(Nop, 0)]
  }

  lemma RewritesRest0(t: seq<Node>, c: nat, l: nat)
    requires Both(t, c, l)
    ensures GoodList(Rest0()) && InTable(t, Vals(c, 0, 0, l, 0))
    ensures OptList(t, Rest0(), Vals(c, 0, 0, l, 0), true) == DoneList(t, RewrittenRest0(), Vals(c, c, 0, c, l))
  {
    hide OptList, Number, Enter, WellNumbered;
    Triple1(t, c, l);
    Triple2(t, c, l);
    Triple3(t, c, l);
    var b, d, e := [Stmt(Nop, 1), Stmt(Tax, 1), Stmt(LdMem, 0)], [Stmt(Alu(Mul, X), 0), Stmt(St, 1), Stmt(Nop, 0)],
                   [Stmt(Nop, 2), Stmt(Nop, 2), Stmt(LdMem, 1)];
    var rb, rd, re := [Stmt(Nop, 1), Stmt(Tax, 1), Stmt(LdImm, 0)], [Stmt(Nop, 0), Stmt(St, 1), Stmt(Nop, 0)],
                      [Stmt(Nop, 2), Stmt(Nop, 2), Stmt(Nop, 0)];
    var va, vb, vd := Vals(c, 0, 0, l, 0), Vals(c, 0, 0, c, l), Vals(c, c, 0, c, l);
    OptListJoin(t, d, e, vb, DoneList(t, rd, vd), DoneList(t, re, vd));
    OptListJoin(t, b, d + e, va, DoneList(t, rb, vb), DoneList(t, rd + re, vd));
    assert b + (d + e) == Rest0() && rb + (rd + re) == RewrittenRest0();
  }

  /** Block 0, entered with nothing known. */
  lemma Rewrites0(t: seq<Node>) returns (t2: seq<Node>, c: nat, l: nat)
    requires WellNumbered(t)
    ensures Both(t2, c, l) && t <= t2 && InTable(t, Vals(0, 0, 0, 0, 0)) && GoodList(Twice0())
    ensures OptList(t, Twice0(), Vals(0, 0, 0, 0, 0), true) == DoneList(t2, Rewritten0(), Vals(c, c, 0, c, l))
  {
    hide OptList, Number, Enter, WellNumbered, Rest0, RewrittenRest0;
    t2, c, l := Triple0(t);
    RewritesRest0(t2, c, l);
    var a := [Stmt(LdImm, 0), Stmt(St, 0), Stmt(LdLen, 0)];
    Parts0();
    OptListJoin(t, a, Rest0(), Vals(0, 0, 0, 0, 0), DoneList(t2, a, Vals(c, 0, 0, l, 0)),
                DoneList(t2, RewrittenRest0(), Vals(c, c, 0, c, l)));
  }

  lemma Parts0()
    ensures var a := [Stmt(LdImm, 0), Stmt(St, 0), Stmt(LdLen, 0)];
            a + Rest0() == Twice0() && a + RewrittenRest0() == Rewritten0() && GoodList(a) && GoodList(Twice0())
  {
  }

  /** `ld len; st M[2]; ld len` */
  lemma Triple4(t: seq<Node>, c: nat, l: nat)
    requires Both(t, c, l)
    ensures var s0, s1 := Stmt(LdLen, 0), Stmt(St, 2);
            OptList(t, [s0, s1, s0], Vals(c, c, 0, c, l), true) == DoneList(t, [s0, s1, Stmt(Nop, 0)], Vals(c, c, l, l, l))
  {
    hide OptList, Find, Number, Enter, WellNumbered;
    var s0, s1 := Stmt(LdLen, 0), Stmt(St, 2);
    var v0, v1, v2 := Vals(c, c, 0, c, l), Vals(c, c, 0, l, l), Vals(c, c, l, l, l);
    assert v0[A_ATOM := l] == v1 && v1[2 := l] == v2;
    assert OptStmt(t, s0, v0, true) == Done(t, s0, v1);
    assert OptStmt(t, s1, v1, true) == Done(t, s1, v2);
    assert OptStmt(t, s0, v2, true) == Done(t, Stmt(Nop, 0), v2);
    hide OptStmt;
    OptThree(s0, s1, s0, t, v0);
  }

  /** `tax; ld M[2]`: X and A have the length already. */
  lemma Triple5(t: seq<Node>, c: nat, l: nat)
    requires Both(t, c, l)
    ensures var n3, v := Stmt(Nop, 3), Vals(c, c, l, l, l);
            OptList(t, [n3, Stmt(Tax, 3), Stmt(LdMem, 2)], v, true) == DoneList(t, [n3, n3, Stmt(Nop, 2)], v)
  {
    hide OptList, Find, Number, Enter, WellNumbered;
    var n3, s4, s5, v := Stmt(Nop, 3), Stmt(Tax, 3), Stmt(LdMem, 2), Vals(c, c, l, l, l);
    assert OptStmt(t, n3, v, true) == Done(t, n3, v);
    assert OptStmt(t, s4, v, true) == Done(t, n3, v);
    assert OptStmt(t, s5, v, true) == Done(t, Stmt(Nop, 2), v);
    hide OptStmt;
    OptThree(n3, s4, s5, t, v);
  }

  /** Block 1, entered with the numbers block 0 leaves: X has the length already. */
  lemma Rewrites1(t: seq<Node>, c: nat, l: nat)
    requires Both(t, c, l)
    ensures InTable(t, Vals(c, c, 0, c, l)) && GoodList(Once1())
    ensures OptList(t, Once1(), Vals(c, c, 0, c, l), true) == DoneList(t, Rewritten1(), Vals(c, c, l, l, l))
  {
    hide OptList, Number, Enter, WellNumbered;
    GoodLists();
    Triple4(t, c, l);
    Triple5(t, c, l);
    var a, b := [Stmt(LdLen, 0), Stmt(St, 2), Stmt(LdLen, 0)], [Stmt(Nop, 3), Stmt(Tax, 3), Stmt(LdMem, 2)];
    var ra, rb, v := [Stmt(LdLen, 0), Stmt(St, 2), Stmt(Nop, 0)], [Stmt(Nop, 3), Stmt(Nop, 3), Stmt(Nop, 2)], Vals(c, c, l, l, l);
    OptListJoin(t, a, b, Vals(c, c, 0, c, l), DoneList(t, ra, v), DoneList(t, rb, v));
    assert a + b == Once1() && ra + rb == Rewritten1();
  }

  /** What a pass leaves of a block whose statements it rewrites to `rw`, when opt_peep makes `f` of it. */
  lemma RewrittenLeft(c: Setting, p: PassState, b: nat, f: Block)
    requires Sized(c, p) && b < |c.g| && PassedAt(c, p, b) && c.outUse[b] == {} && c.g[b].Branch? && !IsCleared(c, p, b)
    requires PeepBlock(Renumbered(c, p, b).t, WithStmts(c.g[b], Rewritten(c, p, b)), p.exit[b], {}) == f
    ensures p.g[b] == WithStmts(f, Strip(f.stmts, BranchUses(f)))
  {
    hide OptList, WellNumbered, EdgeInto, EntryOf, Strip, PeepBlock;
    assert BranchUses(f) + {} == BranchUses(f);
  }

  lemma EdgesAre(g: Graph, e: nat, b: nat)
    requires |g| == 4 && g[0].Branch? && g[0].jt == 1 && g[0].jf == 3
    requires g[1].Branch? && g[1].jt == 2 && g[1].jf == 3 && g[2].Leaf? && g[3].Leaf?
    ensures !EdgeInto(g, Blocks(), e, 0) && (EdgeInto(g, Blocks(), e, 1) <==> e == 0)
  {
  }

  /** Nothing is known on entry to the root, and block 1 starts from what block 0 leaves. */
  lemma EntriesAre(c: Setting, p: PassState, k: u32)
    requires c == Pass(AfterTwo(k), true) && Sized(c, p) && PassedAt(c, p, 0) && PassedAt(c, p, 1)
    ensures p.entry[0] == Vals(0, 0, 0, 0, 0) && p.entry[1] == p.exit[0]
  {
    hide EdgeInto, BlockNumbered;
    forall e: nat
      ensures !EdgeInto(c.g, c.reached, e, 0) && (EdgeInto(c.g, c.reached, e, 1) <==> e == 0)
    {
      EdgesAre(c.g, e, 0);
    }
    forall a | 0 <= a < N_ATOMS
      ensures p.entry[0][a] == 0 && p.entry[1][a] == p.exit[0][a]
    {
      assert p.entry[0][a] != UNKNOWN ==> CommonNumber(c, p, 0, a, p.entry[0][a]);
      assert EdgeInto(c.g, c.reached, 0, 1) && Analysis.EdgeSource(|c.g|, 0) == 0;
      if p.exit[0][a] != UNKNOWN {
        assert CommonNumber(c, p, 1, a, p.exit[0][a]);
      }
      assert p.entry[1][a] != UNKNOWN ==> CommonNumber(c, p, 1, a, p.entry[1][a]);
    }
  }

  /** The numbers are the same in any stage of the table that has them. */
  lemma BothHere(t: seq<Node>, u: seq<Node>, v: seq<Node>, c: nat, l: nat)
    requires Both(t, c, l) && t <= u && v <= u && WellNumbered(v) && c <= |v| && l <= |v|
    ensures Both(v, c, l)
  {
    hide Find, WellNumbered;
    assert v[c - 1] == u[c - 1] == t[c - 1] && v[l - 1] == u[l - 1] == t[l - 1];
    NumberStays(t, u, ConstNode(0));
    NumberStays(t, u, LEN);
    NumberStays(v, u, ConstNode(0));
    NumberStays(v, u, LEN);
  }

  lemma FirstBlockRewritten(c: Setting, p: PassState, k: u32) returns (x: nat, l: nat)
    requires c == Pass(AfterTwo(k), true) && Sized(c, p) && PassedAt(c, p, 0) && p.entry[0] == Vals(0, 0, 0, 0, 0)
    ensures p.g[0] == Miscompiled(k)[0] && p.exit[0] == Vals(x, x, 0, x, l)
    ensures Both(Renumbered(c, p, 0).t, x, l) && Renumbered(c, p, 0).t <= p.t && Rewritten(c, p, 0) == Rewritten0()
    ensures Peepholed(c, p, 0).stmts == Rewritten0()
  {
    hide OptList, WellNumbered, EdgeInto, EntryOf, Strip, PeepFrom, Left, Inert, Number, Enter;
    var t2;
    t2, x, l := Rewrites0(p.before[0]);
    var b := WithStmts(c.g[0], Rewritten0());
    InertRewritten();
    PeepNothing(Rewritten0(), 0);
    PeepTest(t2, b, p.exit[0], {});
    RewrittenLeft(c, p, 0, Branch(Rewritten0(), Jge, K, 0, 1, 1));
    StripsRewritten0();
  }

  lemma SecondBlockRewritten(c: Setting, p: PassState, k: u32, x: nat, l: nat)
    requires c == Pass(AfterTwo(k), true) && Sized(c, p) && PassedAt(c, p, 1) && p.entry[1] == Vals(x, x, 0, x, l)
    requires Both(p.before[1], x, l)
    ensures p.g[1] == Miscompiled(k)[1]
  {
    hide OptList, WellNumbered, EdgeInto, EntryOf, Strip, PeepFrom, Left, Inert, Number, Enter;
    Rewrites1(p.before[1], x, l);
    var b := WithStmts(c.g[1], Rewritten1());
    InertRewritten();
    PeepNothing(Rewritten1(), 0);
    PeepTest(p.before[1], b, p.exit[1], {});
    RewrittenLeft(c, p, 1, Branch(Rewritten1(), Jgt, X, 0, 2, 3));
    StripsRewritten1();
  }

  /** A statement pass loses X in block 0 and relies on it in block 1. */
  lemma ThirdPass(c: Setting, p: PassState, k: u32)
    requires c == Pass(AfterTwo(k), true) && Passing(c, p, c.reached)
    ensures p.g == Miscompiled(k) && !AllFresh(c, p)
  {
    hide PassedAt, Live, AllFresh, Both, Renumbered, Rewritten, Peepholed;
    assert forall b :: b in Blocks() ==> PassedAt(c, p, b);
    EntriesAre(c, p, k);
    var x, l := FirstBlockRewritten(c, p, k);
    BeforeSecond(c, p, x, l);
    SecondBlockRewritten(c, p, k, x, l);
    LeavesLeft(c, p, 2);
    LeavesLeft(c, p, 3);
    NotFresh(c, p, k);
  }

  lemma BeforeSecond(c: Setting, p: PassState, x: nat, l: nat)
    requires Sized(c, p) && |c.g| == 4 && PassedAt(c, p, 0) && PassedAt(c, p, 1) && p.entry[1] == Vals(x, x, 0, x, l)
    requires Both(Renumbered(c, p, 0).t, x, l) && Renumbered(c, p, 0).t <= p.t
    ensures Both(p.before[1], x, l)
  {
    hide OptList, EdgeInto, EntryOf, Left, WellNumbered, Both;
    assert InTable(p.before[1], p.entry[1]) && p.entry[1][A_ATOM] == x && p.entry[1][X_ATOM] == l;
    BothHere(Renumbered(c, p, 0).t, p.t, p.before[1], x, l);
  }

  /** What is left of block 0 after its `tax` must not define X, which block 1 reads. */
  lemma XNeeded(g: Graph, k: u32)
    requires g == Miscompiled(k)
    ensures X_ATOM in LiveIn(Left3()[5..], BranchUses(g[0]) + LiveOut(g, 0))
  {
    hide LiveIn, Reads, Defines, LiveAt, Right3;
    LiveAtStep(g, 1, X_ATOM);
    StaleX();
    assert LiveAfter(g, 0, X_ATOM);
    LiveInReads(Left3()[5..], BranchUses(g[0]) + LiveOut(g, 0), X_ATOM);
  }

  lemma NotFresh(c: Setting, p: PassState, k: u32)
    requires c == Pass(AfterTwo(k), true) && Sized(c, p) && PassedAt(c, p, 0) && p.g == Miscompiled(k)
    requires Peepholed(c, p, 0).stmts == Rewritten0() && p.entry[0] == Vals(0, 0, 0, 0, 0)
    ensures !AllFresh(c, p)
  {
    hide PassedAt, LiveIn, Peepholed, Renumbered, LiveOut, Defines;
    XNeeded(p.g, k);
    var f, left, out := Rewritten0(), Left3(), BranchUses(p.g[0]) + LiveOut(p.g, 0);
    assert f[4] == Stmt(Tax, 1) && left[4] == Stmt(Nop, 1);
    assert !IsCleared(c, p, 0) && p.g[0].stmts == left;
    assert left[4] != f[4] && !NotNeeded(f[4], left[4 + 1..], out);
    assert !DeadRemoved(f, left, out);
  }

  lemma StaleX()
    ensures BlockReads(Miscompiled(0)[1], X_ATOM) && !Defines(Left3()[5..], X_ATOM)
    ensures forall k :: BlockReads(Miscompiled(k)[1], X_ATOM)
  {
    assert forall i :: 0 <= i < 6 ==> Defs(Right3()[i]) != Some(X_ATOM);
    assert forall i :: 0 <= i < 12 ==> Defs(Left3()[i]) != Some(X_ATOM);
    assert forall i :: 0 <= i < |Left3()[5..]| ==> Left3()[5..][i] == Left3()[i + 5];
    assert !Defines(Right3(), X_ATOM);
    assert forall k :: Miscompiled(k)[1] == Branch(Right3(), Jgt, X, 0, 2, 3);
  }

  // ---------------------------------------------------------------------
  // What the filter means, and what becomes of it
  // ---------------------------------------------------------------------

  /** The filter is accepted, and false of every packet. */
  lemma FilterIsFalse(env: Env)
    ensures Gencode.Accepted(Filter(), MEMWORDS) && Gencode.Truth(Filter(), env) == Some(false)
  {
    hide Times;
    assert Arithmetic.Eval(Zeros(), env) == Some(Times(0, env.wirelen)) by {
      assert Arithmetic.Eval(Arithmetic.Number(0), env) == Some(0);
    }
    assert Times(0, env.wirelen) == 0 by { MulZero(env.wirelen); }
    assert Arithmetic.Need(Zeros()) == 2;
  }

  lemma MulZero(a: u32)
    ensures Times(0, a) == 0
  {
  }

  /** Statements that never reject a packet and leave X and the scratch words alone. */
  lemma {:induction false} OnlyLoads(ss: seq<Stmt>, env: Env, st: State) returns (a: u32)
    requires forall i :: 0 <= i < |ss| ==> ss[i].op == LdImm || ss[i].op == LdLen || ss[i].op == Nop
    ensures ExecList(ss, env, st) == Next(st.(a := a))
    decreases |ss|
  {
    if ss == [] {
      a := st.a;
    } else {
      a := OnlyLoads(ss[1..], env, Exec(ss[0].op, ss[0].k, env, st).st);
    }
  }

  lemma MiscompiledRuns(k: u32, env: Env, st: State)
    ensures Ranked(Miscompiled(k), Rank())
    ensures Walk(Miscompiled(k), Rank(), 0, env, st) == Return(if env.wirelen > st.x then k else 0)
  {
    hide ExecList, Left3, Right3;
    var g := Miscompiled(k);
    LoadLists();
    var a := OnlyLoads(Left3(), env, st);
    var s1 := st.(a := a);
    LengthOnly(env, s1);
    var s2 := s1.(a := env.wirelen);
    ReturnsAt(g, 2, env, s2);
    ReturnsAt(g, 3, env, s2);
    assert Walk(g, Rank(), 1, env, s1) == Walk(g, Rank(), if env.wirelen > st.x then 2 else 3, env, s2);
    assert Walk(g, Rank(), 0, env, st) == Walk(g, Rank(), 1, env, s1);
  }

  lemma LoadLists()
    ensures forall i :: 0 <= i < |Left3()| ==> var op := Left3()[i].op; op == LdImm || op == LdLen || op == Nop
  {
  }

  lemma LengthOnly(env: Env, st: State)
    ensures ExecList(Right3(), env, st) == Next(st.(a := env.wirelen))
  {
    hide ExecList;
    var post := [Stmt(Nop, 2), Stmt(Nop, 0), Stmt(Nop, 3), Stmt(Nop, 3), Stmt(Nop, 2)];
    EndsWith([], Stmt(LdLen, 0), post, env, st, {});
    NothingRuns(env, st);
    assert [] + ([Stmt(LdLen, 0)] + post) == Right3();
  }

  lemma ReturnsAt(g: Graph, b: nat, env: Env, st: State)
    requires Ranked(g, Rank()) && b < |g| && g[b].Leaf? && g[b].stmts == []
    ensures Walk(g, Rank(), b, env, st) == Return(g[b].k)
  {
    NothingRuns(env, st);
  }

  // ---------------------------------------------------------------------
  // The graph the generator builds
  // ---------------------------------------------------------------------

  /** Both relations compute their operands as the generator's lemmas say. */
  lemma Computed()
    ensures Arithmetic.Computes(Left0(), 1, Zeros(), {}) && Arithmetic.Computes(Arithmetic.NumberCode(0, 2), 2, Arithmetic.Number(0), {1})
    ensures Arithmetic.Computes(Arithmetic.LengthCode(2), 2, Arithmetic.WireLength, {})
    ensures Arithmetic.Computes(Arithmetic.LengthCode(3), 3, Arithmetic.WireLength, {2})
  {
    hide Arithmetic.Computes;
    Arithmetic.NumberComputes(0, 0, {});
    Arithmetic.LengthComputes(1, {0});
    assert {} + {0} == {0};
    Arithmetic.BinaryComputes(Mul, Arithmetic.NumberCode(0, 0), 0, Arithmetic.Number(0), Arithmetic.LengthCode(1), 1,
                              Arithmetic.WireLength, 1, {});
    Arithmetic.NumberComputes(0, 2, {1});
    Arithmetic.LengthComputes(2, {});
    Arithmetic.LengthComputes(3, {2});
  }

  lemma BlocksRun(env: Env, st: State)
    ensures var x, y := ExecList(List0(), env, st), ExecList(List1(), env, st);
            && x.Next? && Test(Jge, X, 0, x.st) && y.Next? && !Test(Jgt, X, 0, y.st)
  {
    hide Arithmetic.Computes, ExecList, Gencode.Truth, Test;
    Computed();
    CodeIs();
    assert {} + {1} == {1} && {} + {2} == {2};
    Gencode.RelationRuns(Jge, Left0(), 1, Zeros(), Arithmetic.NumberCode(0, 2), 2, Arithmetic.Number(0), {}, env, st);
    Gencode.RelationRuns(Jgt, Arithmetic.LengthCode(2), 2, Arithmetic.WireLength, Arithmetic.LengthCode(3), 3,
                         Arithmetic.WireLength, {}, env, st);
    Truths(env);
  }

  lemma Truths(env: Env)
    ensures Gencode.Truth(Gencode.Relation(Jge, Zeros(), Arithmetic.Number(0), false), env) == Some(true)
    ensures Gencode.Truth(Gencode.Relation(Jgt, Arithmetic.WireLength, Arithmetic.WireLength, false), env) == Some(false)
  {
    hide Times;
    MulZero(env.wirelen);
    assert Arithmetic.Eval(Arithmetic.Number(0), env) == Some(0);
    assert Arithmetic.Eval(Zeros(), env) == Some(Times(0, env.wirelen));
  }

  lemma GeneratedRuns(k: u32, env: Env, st: State)
    ensures Ranked(Generated0(k), Rank()) && Walk(Generated0(k), Rank(), 0, env, st) == Return(0)
  {
    hide ExecList, List0, List1, Test;
    var g := Generated0(k);
    BlocksRun(env, st);
    var s1 := ExecList(List0(), env, st).st;
    BlocksRun(env, s1);
    var s2 := ExecList(List1(), env, s1).st;
    ReturnsAt(g, 3, env, s2);
    assert Walk(g, Rank(), 1, env, s1) == Walk(g, Rank(), 3, env, s2);
    assert Walk(g, Rank(), 0, env, st) == Walk(g, Rank(), 1, env, s1);
  }

  function Tests(): seq<Backpatch.GenBlock> {
    [Gencode.FreshBlock(0, Code0(), Jge, X, 0), Gencode.FreshBlock(1, Code1(), Jgt, X, 0)]
  }

  lemma TestsOriginate()
    ensures Gencode.Originates(Tests(), 0, Filter())
  {
    hide Arithmetic.Computes, Code0, Code1;
    var d := Gencode.Relation(Jge, Zeros(), Arithmetic.Number(0), false);
    var e := Gencode.Relation(Jgt, Arithmetic.WireLength, Arithmetic.WireLength, false);
    OperatesAll();
    assert Code0() == Left0() + Arithmetic.NumberCode(0, 2) + Gencode.RelationCode(Jge, 1, 2) by { CodeParts(); }
    assert Code1() == Arithmetic.LengthCode(2) + Arithmetic.LengthCode(3) + Gencode.RelationCode(Jgt, 2, 3) by { CodeParts(); }
    assert Gencode.Relates(Tests()[0], Jge, Zeros(), Arithmetic.Number(0));
    assert Gencode.Relates(Tests()[1], Jgt, Arithmetic.WireLength, Arithmetic.WireLength);
    assert Gencode.Stems(Tests()[0], d) && Gencode.Stems(Tests()[1], e);
    assert Gencode.Relations(d) == 1 && Gencode.Relations(e) == 1;
  }

  lemma CodeParts()
    ensures Code0() == Left0() + Arithmetic.NumberCode(0, 2) + Gencode.RelationCode(Jge, 1, 2)
    ensures Code1() == Arithmetic.LengthCode(2) + Arithmetic.LengthCode(3) + Gencode.RelationCode(Jgt, 2, 3)
  {
  }

  lemma OperatesAll()
    ensures Arithmetic.Operates(Left0(), Zeros()) && Arithmetic.Operates(Arithmetic.NumberCode(0, 2), Arithmetic.Number(0))
    ensures Arithmetic.Operates(Arithmetic.LengthCode(2), Arithmetic.WireLength)
    ensures Arithmetic.Operates(Arithmetic.LengthCode(3), Arithmetic.WireLength)
  {
    Computed();
  }

  lemma BothContained()
    ensures SelfContained(Branch(List0(), Jge, X, 0, 1, 3)) && SelfContained(Branch(List1(), Jgt, X, 0, 2, 3))
  {
    hide Arithmetic.Computes, SelfContained, Gencode.Contained;
    Computed();
    CodeIs();
    assert {} + {1} == {1} && {} + {2} == {2};
    Gencode.RelationContained(Jge, Left0(), 1, Zeros(), Arithmetic.NumberCode(0, 2), 2, Arithmetic.Number(0), {});
    Gencode.RelationContained(Jgt, Arithmetic.LengthCode(2), 2, Arithmetic.WireLength, Arithmetic.LengthCode(3), 3,
                              Arithmetic.WireLength, {});
    Compile.ContainedIsSelfContained(Tests()[0], Branch(List0(), Jge, X, 0, 1, 3));
    Compile.ContainedIsSelfContained(Tests()[1], Branch(List1(), Jgt, X, 0, 2, 3));
  }

  /** The graph is what the generator builds for the filter. */
  lemma IsGenerated(k: u32)
    ensures Compile.Generated(Generated0(k), 0, Rank(), Filter(), k)
  {
    hide Walk, SelfContained, Layout.Capacity, Gencode.Originates, Gencode.Truth, Live;
    var g := Generated0(k);
    TestsOriginate();
    CodeIs();
    assert Compile.FromTests(g, Tests(), Filter(), k);
    BothContained();
    Compile.ReturnIsSelfContained(k);
    Compile.ReturnIsSelfContained(0);
    GoodLists();
    ShapeFacts(g);
    Fits(k);
    forall env, st
      ensures Walk(g, Rank(), 0, env, st) == Compile.Result(Filter(), k, env)
    {
      GeneratedRuns(k, env, st);
      FilterIsFalse(env);
    }
  }

  lemma ShapeFacts(g: Graph)
    requires |g| == 4 && g[0].Branch? && g[0].jt == 1 && (g[0].jf == 3 || g[0].jf == 1)
    requires g[1].Branch? && g[1].jt == 2 && g[1].jf == 3 && g[2].Leaf? && g[3].Leaf?
    ensures Ranked(g, Rank()) && RootOnTop(g, 0) && Closed(g, Analysis.UpTo(4)) && Blocks() == Analysis.UpTo(4)
  {
    assert Blocks() == Analysis.UpTo(4);
    forall b | b in Analysis.UpTo(4)
      ensures ClosedAt(g, Analysis.UpTo(4), b)
    {
    }
  }

  lemma Fits(k: u32)
    ensures Layout.Capacity(Generated0(k), 4) < 0x8000_0000
  {
    var g := Generated0(k);
    SmallBlock(g[0]);
    SmallBlock(g[1]);
    SmallBlock(g[2]);
    SmallBlock(g[3]);
    hide Layout.SizeOf;
    assert Layout.Capacity(g, 0) == 0;
    assert Layout.Capacity(g, 1) <= 20;
    assert Layout.Capacity(g, 2) <= 40;
    assert Layout.Capacity(g, 3) <= 60;
  }

  lemma SmallBlock(b: Block)
    requires |b.stmts| <= 12
    ensures Layout.SizeOf(b, 1, 1) <= 20
  {
  }

  // ---------------------------------------------------------------------
  // The failure
  // ---------------------------------------------------------------------

  /**
   * In one statement pass, `mul x` is deleted because 0 times anything is 0; so the load of X
   * before it is dead; and the load of X in block 1 goes because block 0 claims to leave that number
   * in X. The filter is false, but the graph accepts every packet of nonzero length.
   */
  lemma StaleDeletionFails(c: Setting, p: PassState, k: u32, env: Env, mem: Mem)
    requires c == Pass(AfterTwo(k), true) && Passing(c, p, c.reached) && env.wirelen > 0
    ensures Gencode.Accepted(Filter(), MEMWORDS) && Gencode.Truth(Filter(), env) == Some(false)
    ensures Ranked(p.g, Rank()) && Walk(p.g, Rank(), 0, env, State(0, 0, mem)) == Return(k)
    ensures Sized(c, p) && !AllFresh(c, p)
  {
    hide Passing, AllFresh, Walk, Gencode.Truth, Gencode.Accepted;
    Freshness.SizedPass(c, p);
    ThirdPass(c, p, k);
    FilterIsFalse(env);
    MiscompiledRuns(k, env, State(0, 0, mem));
  }

  /** That something needed is deleted need not show: it does not where both returns are 0. */
  lemma FreshNotNecessary(c: Setting, p: PassState, env: Env, st: State)
    requires c == Pass(AfterTwo(0), true) && Passing(c, p, c.reached)
    ensures Sized(c, p) && !AllFresh(c, p) && Ranked(c.g, Rank()) && Ranked(p.g, Rank())
    ensures Walk(p.g, Rank(), 0, env, st) == Walk(c.g, Rank(), 0, env, st)
  {
    hide Passing, AllFresh, Walk;
    Freshness.SizedPass(c, p);
    ThirdPass(c, p, 0);
    MiscompiledRuns(0, env, st);
    ShapeFacts(c.g);
    ZeroRuns(env, st);
  }

  lemma {:induction false} NeverRejects(ss: seq<Stmt>, env: Env, st: State)
    requires GoodList(ss) && forall i :: 0 <= i < |ss| ==>
               !ss[i].op.LdAbs? && !ss[i].op.LdInd? && !ss[i].op.LdxMsh? && !Partial(ss[i].op)
    ensures ExecList(ss, env, st).Next?
    decreases |ss|
  {
    hide GoodStmt;
    if ss != [] {
      RunsOn(ss[0], env, st);
      NeverRejects(ss[1..], env, Exec(ss[0].op, ss[0].k, env, st).st);
    }
  }

  lemma RunsOn(s: Stmt, env: Env, st: State)
    requires GoodStmt(s) && !s.op.LdAbs? && !s.op.LdInd? && !s.op.LdxMsh? && !Partial(s.op)
    ensures Exec(s.op, s.k, env, st).Next?
  {
  }

  lemma ZeroRuns(env: Env, st: State)
    ensures Ranked(AfterTwo(0), Rank()) && Walk(AfterTwo(0), Rank(), 0, env, st) == Return(0)
  {
    hide ExecList, Compare;
    var g := AfterTwo(0);
    GoodLists();
    NeverRejects(Twice0(), env, st);
    var s1 := ExecList(Twice0(), env, st).st;
    NeverRejects(Once1(), env, s1);
    var s2 := ExecList(Once1(), env, s1).st;
    ReturnsAt(g, 3, env, s1);
    ReturnsAt(g, 2, env, s2);
    ReturnsAt(g, 3, env, s2);
    assert Walk(g, Rank(), 1, env, s1) == Return(0);
  }

  lemma AllReached(g: Graph, s: set<nat>)
    requires |g| == 4 && g[0].Branch? && g[0].jt == 1 && g[0].jf == 3 && g[1].Branch? && g[1].jt == 2 && g[1].jf == 3
    requires Closed(g, s) && 0 in s
    ensures s == Blocks()
  {
    ClosedHas(g, s, 0);
    ClosedHas(g, s, 1);
  }

  lemma PassIs(c: Setting)
    requires |c.g| == 4 == |c.outUse| && c.reached == Blocks() && Closed(c.g, Blocks()) && AllSelfContained(c.g, Blocks())
    requires forall b :: b in c.reached && b < |c.g| ==> ExactOut(c.g, c.outUse[b], b)
    ensures c == Pass(c.g, c.alter)
  {
    hide Closed, SelfContained, ExactOut;
    forall b | 0 <= b < 4
      ensures c.outUse[b] == {}
    {
      assert b in Blocks();
      NothingUsed(c.g, c.reached, c.outUse[b], b);
    }
    assert c.outUse == [{}, {}, {}, {}];
  }

  lemma ContainedGraph(g: Graph)
    requires |g| == 4 && AllSelfContained(g, Blocks())
    ensures GoodGraph(g)
  {
    hide SelfContained;
    forall b | 0 <= b < |g|
      ensures GoodList(g[b].stmts)
    {
      assert b in Blocks();
      Threading.SelfContainedGood(g[b]);
    }
  }

  /** The filter is false of the packet, but the graph returns `k`, with registers as the interpreter starts them. */
  ghost predicate WronglyAccepts(h: Graph, k: u32, env: Env, mem: Mem) {
    && Gencode.Truth(Filter(), env) == Some(false)
    && Ranked(h, Rank()) && 0 < |h| && Walk(h, Rank(), 0, env, State(0, 0, mem)) == Return(k)
  }

  /** The four blocks between two branch-moving passes. */
  ghost predicate Stage(g: Graph, lv: seq<nat>, maxval: nat) {
    && |g| == 4 && g[0].Branch? && g[0].jt == 1 && g[0].jf == 3 && g[1].Branch? && g[1].jt == 2 && g[1].jf == 3
    && Ranked(g, lv) && GoodGraph(g) && Closed(g, Blocks()) && AllSelfContained(g, Blocks())
    && Threading.BareReturns(g, Blocks()) && maxval >= 3 * MaxStmts(g, Blocks(), 4)
  }

  /** A branch-moving pass on them is the one of the lemmas above. */
  method MoveBranches(g: Graph, ghost lv0: seq<nat>, maxval: nat) returns (h: Graph, ghost p: PassState, ghost lv: seq<nat>)
    requires Stage(g, lv0, maxval)
    ensures Passing(Pass(g, false), p, Blocks()) && |h| == 4 && Ranked(h, lv) && AllSelfContained(h, Blocks()) && Closed(h, Blocks())
    ensures Sized(Pass(g, false), p) && (Threading.Unmoved(Pass(g, false), p, 0) ==> h == p.g)
  {
    hide SelfContained, Passing, Closed, ExactOut, Threading.Unmoved, GoodGraph, Walk;
    var ok;
    ghost var c;
    ok, h, c, p, lv := Threading.ThreadJumps(g, 0, lv0, Blocks(), maxval);
    AllReached(g, c.reached);
    PassIs(c);
    Freshness.SizedPass(c, p);
  }

  lemma NextStage(g: Graph, p: PassState, h: Graph, lv: seq<nat>, maxval: nat)
    requires |g| == 4 && maxval >= 3 * MaxStmts(g, Blocks(), 4) && Passing(Pass(g, false), p, Blocks()) && h == p.g && Ranked(h, lv) && AllSelfContained(h, Blocks())
    requires Closed(h, Blocks()) && h[0].Branch? && h[0].jt == 1 && h[0].jf == 3 && h[1].Branch? && h[1].jt == 2 && h[1].jf == 3
    requires h[2].Leaf? && h[2].stmts == [] && h[3].Leaf? && h[3].stmts == []
    ensures Stage(h, lv, maxval)
  {
    hide AllSelfContained, Closed, Passing, GoodGraph, MaxStmts;
    PassShrinks(Pass(g, false), p, Blocks());
    ContainedGraph(h);
  }

  /**
   * The passes as bpf_optimize performs them on the graph of the filter: two that move branches,
   * after which there is nothing left for them to do, and one over the statements.
   */
  method MiscompileFilter(snaplen: u32) returns (h: Graph)
    ensures Compile.Generated(Generated0(snaplen), 0, Rank(), Filter(), snaplen)
    ensures forall env: Env, mem: Mem :: env.wirelen > 0 ==> WronglyAccepts(h, snaplen, env, mem)
  {
    hide Walk, Passing, Gencode.Truth, Threading.Unmoved, List0, List1, Once0, Once1, Twice0, Left3, Right3, Compile.Generated,
         AllSelfContained, Closed, Live, Threading.BareReturns, GoodGraph;
    IsGenerated(snaplen);
    GeneratedFacts(snaplen);
    var g0 := Generated0(snaplen);
    var maxval := 3 * MaxStmts(g0, Analysis.UpTo(4), 4);
    var g1, g2;
    ghost var p, lv;
    g1, p, lv := MoveBranches(g0, Rank(), maxval);
    FirstPass(Pass(g0, false), p, snaplen);
    NothingMoves(Pass(g0, false), p);
    NextStage(g0, p, g1, lv, maxval);
    g2, p, lv := MoveBranches(g1, lv, maxval);
    SecondPass(Pass(g1, false), p, snaplen);
    NothingMoves(Pass(g1, false), p);
    NextStage(g1, p, g2, lv, maxval);
    h := DeleteStale(g2, lv, maxval, snaplen);
  }

  method DeleteStale(g: Graph, ghost lv: seq<nat>, maxval: nat, snaplen: u32) returns (h: Graph)
    requires g == AfterTwo(snaplen) && Stage(g, lv, maxval)
    ensures forall env: Env, mem: Mem :: env.wirelen > 0 ==> WronglyAccepts(h, snaplen, env, mem)
  {
    hide Walk, SelfContained, Passing, AllFresh, Gencode.Truth, Closed, ExactOut, Once1, Twice0, Left3, Right3, Live, GoodGraph,
         NothingRefusable, Refusal;
    NeverRefused(snaplen);
    var ok;
    ghost var c, p;
    ok, h, c, p := Freshness.OptimizeStatements(g, 0, lv, Blocks(), maxval);
    AllReached(g, c.reached);
    PassIs(c);
    ThirdPass(c, p, snaplen);
    ShapeFacts(h);
    forall env: Env, mem: Mem | env.wirelen > 0
      ensures WronglyAccepts(h, snaplen, env, mem)
    {
      StaleDeletionFails(c, p, snaplen, env, mem);
    }
  }

  lemma GeneratedFacts(k: u32)
    ensures var g := Generated0(k);
            && Ranked(g, Rank()) && GoodGraph(g) && Blocks() == Analysis.UpTo(4) && Closed(g, Blocks())
            && AllSelfContained(g, Blocks()) && Threading.BareReturns(g, Blocks())
  {
    hide SelfContained, Walk, Closed, Layout.Capacity, Compile.FromTests;
    IsGenerated(k);
    ShapeFacts(Generated0(k));
  }

  lemma NeverRefused(k: u32)
    ensures NothingRefusable(AfterTwo(k), Blocks())
  {
  }
}
