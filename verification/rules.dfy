/**
 * What the optimizer's rules achieve, as opposed to what they preserve: which statements opt_stmt
 * folds or deletes, and which branches opt_peep simplifies.
 */
module Rules {
  import opened Words
  import opened Bpf
  import opened Cfg
  import opened Liveness
  import opened ValueNumbers
  import opened Peephole
  import opened StatementPass

  /** The atom's number stands for the constant `k`. */
  predicate Holds(t: seq<Node>, val: seq<nat>, a: nat, k: u32)
    requires |val| == N_ATOMS && a < N_ATOMS
  {
    ConstOf(t, val[a]) == Some(k)
  }

  /** After the statement the accumulator has the constant as its number, and at most a load of it is left. */
  predicate FoldsTo(t: seq<Node>, s: Stmt, val: seq<nat>, k: u32)
    requires |val| == N_ATOMS && GoodStmt(s)
  {
    var r := OptStmt(t, s, val, true);
    && r.Done? && |r.val| == N_ATOMS && Holds(r.t, r.val, A_ATOM, k)
    && (r.s == Stmt(LdImm, k) || (r.s.op == Nop && Holds(t, val, A_ATOM, k)))
  }

  lemma NewConstant(t: seq<Node>, k: u32)
    ensures ConstOf(Enter(t, ConstNode(k)), Number(t, ConstNode(k))) == Some(k)
  {
  }

  /** Operators of known values become their result. */
  lemma ConstantsFold(t: seq<Node>, o: AluOp, x: Src, k: u32, val: seq<nat>, a: u32, b: u32)
    requires InTable(t, val) && GoodStmt(Stmt(Alu(o, x), k)) && Holds(t, val, A_ATOM, a)
    requires if x == K then b == k else Holds(t, val, X_ATOM, b)
    requires AluX(o, a, b).Some?
    ensures FoldsTo(t, Stmt(Alu(o, x), k), val, AluX(o, a, b).value)
  {
    hide ConstOf, Number, Enter, BitAnd, BitOr, BitXor, ShiftLeft, ShiftRight, Plus, Minus, Times, Quotient, Remainder;
    var v := AluX(o, a, b).value;
    NewConstant(t, v);
    NewConstant(Enter(t, ConstNode(k)), v);
    NewConstant(t, 0);
    if x == K && k == 0 {
      NothingAdded(o, a);
    }
  }

  lemma NothingAdded(o: AluOp, a: u32)
    ensures o == Add || o == Lsh || o == Rsh || o == Or || o == Xor ==> AluX(o, a, 0) == Some(a)
    ensures o == Mul || o == And ==> AluX(o, a, 0) == Some(0)
  {
    hide BitAnd, BitOr, BitXor, ShiftLeft, ShiftRight;
    BitsZero(a);
  }

  /** ... as do the negation of a known value and the load of a scratch word with one. */
  lemma CopiesFold(t: seq<Node>, m: u32, val: seq<nat>, a: u32)
    requires InTable(t, val) && m < MEMWORDS
    ensures Holds(t, val, A_ATOM, a) ==> FoldsTo(t, Stmt(Neg, 0), val, Minus(0, a))
    ensures Holds(t, val, m, a) ==> FoldsTo(t, Stmt(LdMem, m), val, a)
    ensures Holds(t, val, m, a) ==>
              var r := OptStmt(t, Stmt(LdxMem, m), val, true);
              && r.Done? && |r.val| == N_ATOMS && Holds(r.t, r.val, X_ATOM, a)
              && (r.s == Stmt(LdxImm, a) || (r.s.op == Nop && Holds(t, val, X_ATOM, a)))
  {
    hide Number, Enter, ConstOf, Minus;
    NewConstant(t, Minus(0, a));
    UnknownIsNone(t);
  }

  lemma UnknownIsNone(t: seq<Node>)
    ensures ConstOf(t, UNKNOWN) == None
  {
  }

  /** An indexed load from a known index becomes an absolute load. */
  lemma IndexFolds(t: seq<Node>, size: Size, k: u32, val: seq<nat>, x: u32)
    requires InTable(t, val) && Holds(t, val, X_ATOM, x)
    ensures OptStmt(t, Stmt(LdInd(size), k), val, true) == OptStmt(t, Stmt(LdAbs(size), Plus(k, x)), val, true)
  {
  }

  /** With a known X and an unknown accumulator the operator takes X as a constant, unless it is a wide shift. */
  lemma KnownXFolds(t: seq<Node>, o: AluOp, k: u32, val: seq<nat>, x: u32)
    requires InTable(t, val) && Holds(t, val, X_ATOM, x) && ConstOf(t, val[A_ATOM]) == None
    ensures var r := OptStmt(t, Stmt(Alu(o, X), k), val, true);
            if (o == Lsh || o == Rsh) && x > 31 then r.Failed? else r.Done? && r.s == Stmt(Alu(o, K), x)
  {
    hide Number, Enter;
  }

  /** With 0 in the accumulator and an unknown X only a subtraction or a shift by X, or a move, is left to do. */
  lemma ZeroFolds(t: seq<Node>, o: AluOp, k: u32, val: seq<nat>)
    requires InTable(t, val) && Holds(t, val, A_ATOM, 0) && ConstOf(t, val[X_ATOM]) == None
    ensures var r := OptStmt(t, Stmt(Alu(o, X), k), val, true);
            && r.Done?
            && (o == Add || o == Or || o == Xor ==> (r.s == Stmt(Txa, k) || r.s.op == Nop) && r.val[A_ATOM] == val[X_ATOM])
            && (o != Add && o != Or && o != Xor && o != Sub ==> FoldsTo(t, Stmt(Alu(o, X), k), val, 0))
            && (o == Sub ==> r.s == Stmt(Alu(Sub, X), k))
  {
    hide Number, Enter, ConstOf;
    NewConstant(t, 0);
    SameZero(t, val[A_ATOM]);
  }

  lemma SameZero(t: seq<Node>, v: nat)
    requires ConstOf(t, v) == Some(0)
    ensures v != UNKNOWN
  {
  }

  /** Operators without effect are deleted, whatever the accumulator holds. */
  lemma NeutralGoes(t: seq<Node>, o: AluOp, val: seq<nat>)
    requires InTable(t, val) && o in {Add, Lsh, Rsh, Or, Xor, Mul, And}
    ensures var r := OptStmt(t, Stmt(Alu(o, K), 0), val, true);
            r.Done? && r.s == if o == Mul || o == And then Stmt(LdImm, 0) else Stmt(Nop, 0)
  {
  }

  /** A subtraction of 0 is kept: a branch may have to absorb it later. */
  lemma SubtractionStays(t: seq<Node>, val: seq<nat>)
    requires InTable(t, val) && ConstOf(t, val[A_ATOM]) == None
    ensures var r := OptStmt(t, Stmt(Alu(Sub, K), 0), val, true); r.Done? && r.s == Stmt(Alu(Sub, K), 0)
  {
  }

  /** A statement that gives its atom the number it already has is deleted, unless it is an operator. */
  lemma RepeatsGo(t: seq<Node>, s: Stmt, val: seq<nat>)
    requires InTable(t, val) && GoodStmt(s) && Defs(s).Some? && !s.op.Alu? && s.op != Neg && s.op != LdxLen
    ensures var r, a := OptStmt(t, s, val, true), Defs(s).value;
            r.Done? && |r.val| == N_ATOMS && (val[a] != UNKNOWN && r.val[a] == val[a] ==> r.s.op == Nop)
  {
    hide Number, Enter, ConstOf;
  }

  /** Loading the same field, length or constant again gives the same number, so the second load goes. */
  lemma SecondLoadGoes(t: seq<Node>, s: Stmt, val: seq<nat>)
    requires InTable(t, val) && GoodStmt(s) && (s.op.LdAbs? || s.op == LdLen || s.op == LdImm || s.op == LdxImm || s.op == LdxMsh)
    ensures var r := OptStmt(t, s, val, true);
            && r.Done? && |r.val| == N_ATOMS
            && var again := OptStmt(r.t, s, r.val, true);
               again.Done? && again.s.op == Nop && again.t == r.t && again.val == r.val
  {
    hide Number, ConstOf;
    var n := if s.op.LdAbs? then Node(s.op, s.k, 0) else if s.op == LdLen then Node(LdLen, 0, 0)
             else if s.op == LdxMsh then Node(LdxMsh, s.k, 0) else ConstNode(s.k);
    assert Number(Enter(t, n), n) == Number(t, n) && Number(t, n) != UNKNOWN by { NumberStays(t, n); }
  }

  lemma NumberStays(t: seq<Node>, n: Node)
    ensures Number(Enter(t, n), n) == Number(t, n) && Number(t, n) > 0 && n in Enter(t, n)
  {
    FindEntered(t, n);
  }

  // ---------------------------------------------------------------------
  // opt_peep
  // ---------------------------------------------------------------------

  /** A reload of X from the word just stored becomes a move, also across deleted statements. */
  lemma ReloadMoves(m: u32)
    ensures PeepFrom([Stmt(St, m), Stmt(Nop, 0), Stmt(LdxMem, m)], 0) == [Stmt(St, m), Stmt(Nop, 0), Stmt(Tax, m)]
  {
    var ss := [Stmt(St, m), Stmt(Nop, 0), Stmt(LdxMem, m)];
    assert ThisOp(ss, 0) == 0 && ThisOp(ss, 1) == 2;
    var left := [Stmt(St, m), Stmt(Nop, 0), Stmt(Tax, m)];
    assert ss[0 := Stmt(St, m)][2 := Stmt(Tax, m)] == left;
    assert ThisOp(left, 2) == 2 && ThisOp(left, 3) == 3;
  }

  /** A constant moved to X is loaded there, and moved back. */
  lemma ConstantMoves(k: u32, m: u32)
    ensures PeepFrom([Stmt(LdImm, k), Stmt(Tax, m)], 0) == [Stmt(LdxImm, k), Stmt(Txa, m)]
  {
    var ss := [Stmt(LdImm, k), Stmt(Tax, m)];
    assert ThisOp(ss, 0) == 0 && ThisOp(ss, 1) == 1;
    var left := [Stmt(LdxImm, k), Stmt(Txa, m)];
    assert ss[0 := Stmt(LdxImm, k)][1 := Stmt(Txa, m)] == left;
    assert ThisOp(left, 1) == 1 && ThisOp(left, 2) == 2;
  }

  /**
   * An equation whose accumulator no one needs and has no known value: the subtraction before it is
   * absorbed by the constant or the operand, and a mask compared with 0 becomes `jset` with the
   * sides exchanged.
   */
  lemma EquationsAbsorb(t: seq<Node>, b: Block, s: Stmt, val: seq<nat>, outUse: set<nat>)
    requires b.Branch? && b.stmts == [s] && b.cmp == Jeq && b.src == K && A_ATOM !in outUse
    requires |val| == N_ATOMS && ConstOf(t, val[A_ATOM]) == None
    ensures s.op == Alu(Sub, K) ==> PeepBlock(t, b, val, outUse) == Branch([s.(op := Nop)], Jeq, K, Plus(b.k, s.k), b.jt, b.jf)
    ensures s.op == Alu(Sub, X) && ConstOf(t, val[X_ATOM]) == None && b.k == 0 ==>
              PeepBlock(t, b, val, outUse) == Branch([s.(op := Nop)], Jeq, X, 0, b.jt, b.jf)
    ensures forall x :: s.op == Alu(Sub, X) && ConstOf(t, val[X_ATOM]) == Some(x) ==>
              PeepBlock(t, b, val, outUse) == Branch([s.(op := Nop)], Jeq, K, Plus(b.k, x), b.jt, b.jf)
    ensures s.op == Alu(And, K) && b.k == 0 && s.k != 0 ==>
              PeepBlock(t, b, val, outUse) == Branch([s.(op := Nop)], Jset, K, s.k, b.jf, b.jt)
  {
    hide ConstOf, Plus;
    OneStatement(s);
  }

  lemma OneStatement(s: Stmt)
    ensures s.op != Nop ==> PeepFrom([s], 0) == [s] && LastFrom([s], 0, 0) == 0
  {
    if s.op != Nop {
      assert ThisOp([s], 0) == 0 && ThisOp([s], 1) == 1;
    }
  }

  /** Branches on known values: X becomes a constant operand, and a decided test leads to one side. */
  lemma KnownBranches(t: seq<Node>, b: Block, s: Stmt, val: seq<nat>, outUse: set<nat>)
    requires b.Branch? && b.stmts == [s] && s.op.LdAbs? && |val| == N_ATOMS
    ensures ConstOf(t, val[A_ATOM]) == None && b.src == K && b.cmp == Jset && b.k == 0 ==>
              PeepBlock(t, b, val, outUse) == b.(jt := b.jf)
    ensures forall x :: ConstOf(t, val[A_ATOM]) == None && ConstOf(t, val[X_ATOM]) == Some(x) && b.src == X ==>
              PeepBlock(t, b, val, outUse) == b.(src := K, k := x)
    ensures forall a :: ConstOf(t, val[A_ATOM]) == Some(a) && b.src == K && !(b.cmp == Jset && b.k == 0) ==>
              PeepBlock(t, b, val, outUse) == if Compare(b.cmp, a, b.k) then b.(jf := b.jt) else b.(jt := b.jf)
    ensures forall a, x :: ConstOf(t, val[A_ATOM]) == Some(a) && ConstOf(t, val[X_ATOM]) == Some(x) && b.src == X ==>
              PeepBlock(t, b, val, outUse) ==
              if Compare(b.cmp, a, x) then b.(src := K, k := x, jf := b.jt) else b.(src := K, k := x, jt := b.jf)
  {
    hide ConstOf, Compare;
    OneStatement(s);
  }

  // ---------------------------------------------------------------------
  // opt_blk
  // ---------------------------------------------------------------------

  /**
   * A pass that alters statements empties returns, and blocks that leave A and X with the known
   * numbers they had and nothing that anyone uses.
   */
  lemma IdleBlocksClear(t: seq<Node>, b: Block, b': Block, entry: seq<nat>, exit: seq<nat>, oval: nat, outUse: set<nat>,
                        before: seq<Node>)
    requires BlockNumbered(t, b, b', entry, exit, oval, true, outUse, before)
    ensures b.Leaf? ==> b' == Leaf([], b.k)
    ensures && outUse == {} && entry[A_ATOM] != UNKNOWN && entry[X_ATOM] != UNKNOWN
            && exit[A_ATOM] == entry[A_ATOM] && exit[X_ATOM] == entry[X_ATOM] ==>
              b' == WithStmts(b, [])
  {
    hide OptList, WellNumbered, PeepBlock;
  }
}
