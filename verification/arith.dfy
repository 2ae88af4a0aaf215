/**
 * Arithmetic expressions of the filter language: their value, and the statement
 * lists gen_loadi, gen_loadlen, gen_load, gen_neg and gen_arth build (gencode.c).
 */
module Arithmetic {
  import opened Words
  import opened Bpf
  import opened Cfg
  import opened Liveness

  /** An arithmetic expression; `Packet` is `ether[index:size]`. */
  datatype Arith =
    | Number(n: u32)
    | WireLength
    | Packet(index: Arith, size: Size)
    | Negated(arg: Arith)
    | Binary(op: AluOp, left: Arith, right: Arith)

  /** The value on a packet; `None` when a load is out of range or a divisor is zero. */
  function Eval(e: Arith, env: Env): Option<u32> {
    match e
    case Number(n) => Some(n)
    case WireLength => Some(env.wirelen)
    case Packet(i, size) =>
      (match Eval(i, env) case None => None case Some(x) => Load(env.pkt, x, size))
    case Negated(a) =>
      (match Eval(a, env) case None => None case Some(x) => Some(Minus(0, x)))
    case Binary(op, l, r) =>
      (match (Eval(l, env), Eval(r, env))
       case (Some(x), Some(y)) => AluX(op, x, y)
       case _ => None)
  }

  /** The first statement generated for an expression loads its leftmost operand. */
  function Leading(e: Arith): Option<u32> {
    match e
    case Number(n) => Some(n)
    case WireLength => None
    case Packet(i, _) => Leading(i)
    case Negated(a) => Leading(a)
    case Binary(_, l, _) => Leading(l)
  }

  /** gen_arth's compile-time refusal looks at the leading constant of the right operand only. */
  predicate Refused(op: AluOp, right: Arith) {
    match Leading(right)
    case None => false
    case Some(n) => ((op == Div || op == Mod) && n == 0) || ((op == Lsh || op == Rsh) && n > 31)
  }

  predicate Compilable(e: Arith) {
    match e
    case Number(_) => true
    case WireLength => true
    case Packet(i, _) => Compilable(i)
    case Negated(a) => Compilable(a)
    case Binary(op, l, r) => Compilable(l) && Compilable(r) && !Refused(op, r)
  }

  /** Scratch registers that must be free to evaluate the expression. */
  function Need(e: Arith): nat {
    match e
    case Number(_) => 1
    case WireLength => 1
    case Packet(i, _) => Max(Need(i), 2)
    case Negated(a) => Need(a)
    case Binary(_, l, r) => Max(Need(l), Need(r) + 1)
  }

  /** Number of statements generated for the expression. */
  function CodeLength(e: Arith): nat {
    match e
    case Number(_) => 2
    case WireLength => 2
    case Packet(i, _) => CodeLength(i) + 3
    case Negated(a) => CodeLength(a) + 3
    case Binary(_, l, r) => CodeLength(l) + CodeLength(r) + 4
  }

  /** The operator occurs in the expression. */
  predicate Mentions(e: Arith, o: AluOp) {
    match e
    case Number(_) => false
    case WireLength => false
    case Packet(i, _) => Mentions(i, o)
    case Negated(a) => Mentions(a, o)
    case Binary(op, l, r) => op == o || Mentions(l, o) || Mentions(r, o)
  }

  /** A constant zero divisor is always refused, but so is a divisor that merely starts with 0. */
  lemma RefusalIsNotDivisionByZero(env: Env)
    ensures var e := Binary(Div, Number(1), Binary(Add, Number(0), Number(1)));
            Eval(e, env) == Some(1) && !Compilable(e)
  {
    assert Eval(Binary(Add, Number(0), Number(1)), env) == Some(1);
  }

  /** A constant right operand is refused exactly if C does not define the operation for it. */
  lemma ConstantOperands(o: AluOp, n: u32)
    ensures Compilable(Binary(o, WireLength, Number(n))) <==> GoodConstant(o, n)
    ensures Compilable(Binary(o, WireLength, WireLength))
  {
  }

  /** `ether[0] << (16 + 16)` is not refused here, and has the value 0 on every packet with a byte. */
  lemma WideShiftCompiles(env: Env)
    requires |env.pkt| > 0
    ensures var e := Binary(Lsh, Packet(Number(0), B), Binary(Add, Number(16), Number(16)));
            Compilable(e) && Eval(e, env) == Some(0)
  {
    assert Eval(Number(0), env) == Some(0) && Eval(Packet(Number(0), B), env) == Some(env.pkt[0]);
    assert Eval(Number(16), env) == Some(16) && Eval(Binary(Add, Number(16), Number(16)), env) == Some(32);
    assert Leading(Binary(Add, Number(16), Number(16))) == Some(16);
    assert Compilable(Binary(Add, Number(16), Number(16))) && Compilable(Packet(Number(0), B));
  }

  // ---------------------------------------------------------------------
  // Generated lists
  // ---------------------------------------------------------------------

  ghost predicate Kept(st: State, st': State, keep: set<nat>) {
    forall r :: r in keep && r < MEMWORDS ==> st'.mem[r] == st.mem[r]
  }

  ghost predicate ComputesOn(ss: seq<Stmt>, reg: nat, e: Arith, keep: set<nat>, env: Env, st: State)
    requires reg < MEMWORDS
  {
    var x := ExecList(ss, env, st);
    && !x.Undefined?
    && (x.Next? ==> Eval(e, env) == Some(x.st.mem[reg]) && Kept(st, x.st, keep))
    && (x.Rejected? ==> Eval(e, env) == None)
  }

  /** The list needs nothing on entry that is needed after it, and least of all what `reg` held. */
  ghost predicate Supplies(ss: seq<Stmt>, reg: nat) {
    && (forall i :: 0 <= i < |ss| ==> ss[i].op != LdxLen)
    && forall out: set<nat> :: LiveIn(ss, out) <= out - {reg}
  }

  lemma LiveIn2(a: Stmt, b: Stmt, out: set<nat>)
    ensures LiveIn([a, b], out) == Before(a, Before(b, out))
  {
    assert [a, b][1..] == [b] && [b][1..] == [];
    assert LiveIn([], out) == out;
    assert LiveIn([b], out) == Before(b, out);
  }

  lemma LiveIn3(a: Stmt, b: Stmt, c: Stmt, out: set<nat>)
    ensures LiveIn([a, b, c], out) == Before(a, Before(b, Before(c, out)))
  {
    assert [a, b, c][1..] == [b, c];
    LiveIn2(b, c, out);
  }

  /** Atoms needed before a statement when `after` is needed after it. */
  function Before(s: Stmt, after: set<nat>): set<nat> {
    Uses(s) + if Defs(s).Some? then after - {Defs(s).value} else after
  }

  /** The list combines A with X, by operators of the expression. */
  ghost predicate Operates(ss: seq<Stmt>, e: Arith) {
    forall i :: 0 <= i < |ss| && ss[i].op.Alu? ==> ss[i].op.src == X && Mentions(e, ss[i].op.alu)
  }

  lemma OperatesMore(s: seq<Stmt>, t: seq<Stmt>, d: Arith, e: Arith)
    requires Operates(s, d) && Operates(t, e) && forall o :: Mentions(d, o) ==> Mentions(e, o)
    ensures Operates(s + t, e)
  {
  }

  ghost predicate Registers(keep: set<nat>) { forall r :: r in keep ==> r < MEMWORDS }

  /**
   * Running `ss` in any state either rejects, and then the expression has no value, or leaves
   * the value in M[reg]; the registers of `keep` are not changed.
   */
  ghost predicate Computes(ss: seq<Stmt>, reg: nat, e: Arith, keep: set<nat>) {
    && GoodList(ss) && |ss| == CodeLength(e) && |ss| > 0 && reg < MEMWORDS && Registers(keep)
    && (ss[0].op == LdImm <==> Leading(e).Some?)
    && (ss[0].op == LdImm ==> Leading(e) == Some(ss[0].k))
    && Supplies(ss, reg) && Operates(ss, e)
    && forall env, st :: ComputesOn(ss, reg, e, keep, env, st)
  }

  function NumberCode(n: u32, reg: u32): seq<Stmt> { [Stmt(LdImm, n), Stmt(St, reg)] }

  function LengthCode(reg: u32): seq<Stmt> { [Stmt(LdLen, 0), Stmt(St, reg)] }

  function LoadCode(index: u32, size: Size, reg: u32): seq<Stmt> {
    [Stmt(LdxMem, index), Stmt(LdInd(size), 0), Stmt(St, reg)]
  }

  function NegCode(arg: u32): seq<Stmt> { [Stmt(LdMem, arg), Stmt(Neg, 0), Stmt(St, arg)] }

  function OperandsCode(left: u32, right: u32): seq<Stmt> { [Stmt(LdxMem, right), Stmt(LdMem, left)] }

  function BinaryCode(op: AluOp, left: u32, right: u32, reg: u32): seq<Stmt> {
    OperandsCode(left, right) + [Stmt(Alu(op, X), 0), Stmt(St, reg)]
  }

  /** Two statements of straight-line code in sequence. */
  lemma {:induction false} ExecCons(s: Stmt, ss: seq<Stmt>, env: Env, st: State)
    ensures ExecList([s] + ss, env, st) ==
            match Exec(s.op, s.k, env, st) case Next(st') => ExecList(ss, env, st') case e => e
  {
    assert ([s] + ss)[1..] == ss;
  }

  lemma Exec2(a: Stmt, b: Stmt, env: Env, st: State)
    ensures ExecList([a, b], env, st) ==
            match Exec(a.op, a.k, env, st) case Next(s1) => Exec(b.op, b.k, env, s1) case e => e
  {
    hide Exec;
    assert [a, b] == [a] + ([b] + []);
    ExecCons(a, [b], env, st);
    var e := Exec(a.op, a.k, env, st);
    if e.Next? {
      ExecCons(b, [], env, e.st);
      assert [b] == [b] + [];
    }
  }

  lemma Exec3(a: Stmt, b: Stmt, c: Stmt, env: Env, st: State)
    ensures ExecList([a, b, c], env, st) ==
            match Exec(a.op, a.k, env, st) case Next(s1) => ExecList([b, c], env, s1) case e => e
  {
    hide Exec;
    assert [a, b, c] == [a] + [b, c];
    ExecCons(a, [b, c], env, st);
  }

  lemma NumberComputes(n: u32, reg: u32, keep: set<nat>)
    requires reg < MEMWORDS && Registers(keep) && reg !in keep
    ensures Computes(NumberCode(n, reg), reg, Number(n), keep)
  {
    forall out: set<nat>
      ensures LiveIn(NumberCode(n, reg), out) <= out - {reg}
    {
      LiveIn2(Stmt(LdImm, n), Stmt(St, reg), out);
    }
    forall env, st
      ensures ComputesOn(NumberCode(n, reg), reg, Number(n), keep, env, st)
    {
      Exec2(Stmt(LdImm, n), Stmt(St, reg), env, st);
    }
  }

  lemma LengthComputes(reg: u32, keep: set<nat>)
    requires reg < MEMWORDS && Registers(keep) && reg !in keep
    ensures Computes(LengthCode(reg), reg, WireLength, keep)
  {
    forall out: set<nat>
      ensures LiveIn(LengthCode(reg), out) <= out - {reg}
    {
      LiveIn2(Stmt(LdLen, 0), Stmt(St, reg), out);
    }
    forall env, st
      ensures ComputesOn(LengthCode(reg), reg, WireLength, keep, env, st)
    {
      Exec2(Stmt(LdLen, 0), Stmt(St, reg), env, st);
    }
  }

  lemma LoadSupplies(ss: seq<Stmt>, index: u32, size: Size, reg: u32)
    requires Supplies(ss, index) && reg < MEMWORDS
    ensures Supplies(ss + LoadCode(index, size, reg), reg)
  {
    hide LiveIn;
    forall out: set<nat>
      ensures LiveIn(ss + LoadCode(index, size, reg), out) <= out - {reg}
    {
      LiveInConcat(ss, LoadCode(index, size, reg), out);
      LiveIn3(Stmt(LdxMem, index), Stmt(LdInd(size), 0), Stmt(St, reg), out);
      assert LiveIn(ss, LiveIn(LoadCode(index, size, reg), out)) <= LiveIn(LoadCode(index, size, reg), out) - {index};
    }
  }

  lemma NegSupplies(ss: seq<Stmt>, arg: u32)
    requires Supplies(ss, arg) && arg < MEMWORDS
    ensures Supplies(ss + NegCode(arg), arg)
  {
    hide LiveIn;
    forall out: set<nat>
      ensures LiveIn(ss + NegCode(arg), out) <= out - {arg}
    {
      LiveInConcat(ss, NegCode(arg), out);
      LiveIn3(Stmt(LdMem, arg), Stmt(Neg, 0), Stmt(St, arg), out);
      assert LiveIn(ss, LiveIn(NegCode(arg), out)) <= LiveIn(NegCode(arg), out) - {arg};
    }
  }

  /** Two lists that supply the registers the code after them reads. */
  lemma BothSupply(s0: seq<Stmt>, r0: u32, s1: seq<Stmt>, r1: u32, tail: seq<Stmt>, out: set<nat>)
    requires Supplies(s0, r0) && Supplies(s1, r1)
    ensures LiveIn(s0 + s1 + tail, out) <= LiveIn(tail, out) - {r0, r1}
  {
    hide LiveIn;
    LiveInConcat(s0 + s1, tail, out);
    LiveInConcat(s0, s1, LiveIn(tail, out));
    assert LiveIn(s1, LiveIn(tail, out)) <= LiveIn(tail, out) - {r1};
    assert LiveIn(s0, LiveIn(s1, LiveIn(tail, out))) <= LiveIn(s1, LiveIn(tail, out)) - {r0};
  }

  lemma BinarySupplies(op: AluOp, s0: seq<Stmt>, r0: u32, s1: seq<Stmt>, r1: u32, reg: u32)
    requires Supplies(s0, r0) && Supplies(s1, r1) && r0 < MEMWORDS && r1 < MEMWORDS && reg < MEMWORDS
    ensures Supplies(s0 + s1 + BinaryCode(op, r0, r1, reg), reg)
  {
    hide LiveIn;
    var tail := BinaryCode(op, r0, r1, reg);
    var a, b, x, y := Stmt(LdxMem, r1), Stmt(LdMem, r0), Stmt(Alu(op, X), 0), Stmt(St, reg);
    assert tail == [a, b] + [x, y];
    forall out: set<nat>
      ensures LiveIn(s0 + s1 + tail, out) <= out - {reg}
    {
      BothSupply(s0, r0, s1, r1, tail, out);
      LiveInConcat([a, b], [x, y], out);
      LiveIn2(x, y, out);
      LiveIn2(a, b, LiveIn([x, y], out));
    }
  }

  lemma LoadComputes(ss: seq<Stmt>, index: u32, e: Arith, size: Size, reg: u32, keep: set<nat>)
    requires Computes(ss, index, e, keep) && reg < MEMWORDS && reg !in keep
    ensures Computes(ss + LoadCode(index, size, reg), reg, Packet(e, size), keep)
  {
    hide ExecList, Load, Supplies;
    LoadSupplies(ss, index, size, reg);
    OperatesMore(ss, LoadCode(index, size, reg), e, Packet(e, size));
    forall env, st
      ensures ComputesOn(ss + LoadCode(index, size, reg), reg, Packet(e, size), keep, env, st)
    {
      assert ComputesOn(ss, index, e, keep, env, st);
      ExecConcat(ss, LoadCode(index, size, reg), env, st);
      var x := ExecList(ss, env, st);
      if x.Next? {
        var s1 := x.st.(x := x.st.mem[index]);
        Exec3(Stmt(LdxMem, index), Stmt(LdInd(size), 0), Stmt(St, reg), env, x.st);
        Exec2(Stmt(LdInd(size), 0), Stmt(St, reg), env, s1);
      }
    }
  }

  lemma NegComputes(ss: seq<Stmt>, arg: u32, e: Arith, keep: set<nat>)
    requires Computes(ss, arg, e, keep) && arg !in keep
    ensures Computes(ss + NegCode(arg), arg, Negated(e), keep)
  {
    hide ExecList, Supplies;
    NegSupplies(ss, arg);
    OperatesMore(ss, NegCode(arg), e, Negated(e));
    forall env, st
      ensures ComputesOn(ss + NegCode(arg), arg, Negated(e), keep, env, st)
    {
      assert ComputesOn(ss, arg, e, keep, env, st);
      ExecConcat(ss, NegCode(arg), env, st);
      var x := ExecList(ss, env, st);
      if x.Next? {
        var s1 := x.st.(a := x.st.mem[arg]);
        Exec3(Stmt(LdMem, arg), Stmt(Neg, 0), Stmt(St, arg), env, x.st);
        Exec2(Stmt(Neg, 0), Stmt(St, arg), env, s1);
      }
    }
  }

  ghost predicate LoadsOperands(x: Effect, e0: Arith, e1: Arith, keep: set<nat>, env: Env, st: State) {
    && !x.Undefined?
    && (x.Next? ==> Eval(e0, env) == Some(x.st.a) && Eval(e1, env) == Some(x.st.x) && Kept(st, x.st, keep))
    && (x.Rejected? ==> Eval(e0, env) == None || Eval(e1, env) == None)
  }

  /** Both operands evaluated, the left one surviving the evaluation of the right one. */
  lemma OperandsLoaded(s0: seq<Stmt>, r0: u32, e0: Arith, s1: seq<Stmt>, r1: u32, e1: Arith,
                       keep: set<nat>, env: Env, st: State)
    requires Computes(s0, r0, e0, keep) && Computes(s1, r1, e1, keep + {r0})
    ensures LoadsOperands(ExecList(s0 + s1 + OperandsCode(r0, r1), env, st), e0, e1, keep, env, st)
  {
    hide ExecList, Eval, Supplies;
    assert ComputesOn(s0, r0, e0, keep, env, st);
    ExecConcat(s0 + s1, OperandsCode(r0, r1), env, st);
    ExecConcat(s0, s1, env, st);
    var x := ExecList(s0, env, st);
    if x.Next? {
      assert ComputesOn(s1, r1, e1, keep + {r0}, env, x.st);
      var y := ExecList(s1, env, x.st);
      if y.Next? {
        Exec2(Stmt(LdxMem, r1), Stmt(LdMem, r0), env, y.st);
      }
    }
  }

  lemma BinaryComputes(op: AluOp, s0: seq<Stmt>, r0: u32, e0: Arith, s1: seq<Stmt>, r1: u32, e1: Arith,
                       reg: u32, keep: set<nat>)
    requires Computes(s0, r0, e0, keep) && Computes(s1, r1, e1, keep + {r0})
    requires reg < MEMWORDS && reg !in keep
    ensures Computes(s0 + s1 + BinaryCode(op, r0, r1, reg), reg, Binary(op, e0, e1), keep)
  {
    hide ExecList, AluX, Supplies;
    BinarySupplies(op, s0, r0, s1, r1, reg);
    BinaryOperates(op, s0, r0, e0, s1, r1, e1, reg);
    var ss := s0 + s1 + BinaryCode(op, r0, r1, reg);
    assert ss == (s0 + s1 + OperandsCode(r0, r1)) + [Stmt(Alu(op, X), 0), Stmt(St, reg)];
    forall env, st
      ensures ComputesOn(ss, reg, Binary(op, e0, e1), keep, env, st)
    {
      OperandsLoaded(s0, r0, e0, s1, r1, e1, keep, env, st);
      ExecConcat(s0 + s1 + OperandsCode(r0, r1), [Stmt(Alu(op, X), 0), Stmt(St, reg)], env, st);
      var x := ExecList(s0 + s1 + OperandsCode(r0, r1), env, st);
      if x.Next? {
        Exec2(Stmt(Alu(op, X), 0), Stmt(St, reg), env, x.st);
      }
    }
  }

  lemma BinaryOperates(op: AluOp, s0: seq<Stmt>, r0: u32, e0: Arith, s1: seq<Stmt>, r1: u32, e1: Arith, reg: u32)
    requires Operates(s0, e0) && Operates(s1, e1)
    ensures Operates(s0 + s1 + BinaryCode(op, r0, r1, reg), Binary(op, e0, e1))
  {
    var e := Binary(op, e0, e1);
    forall i | 0 <= i < |s0 + s1| && (s0 + s1)[i].op.Alu?
      ensures (s0 + s1)[i].op.src == X && Mentions(e, (s0 + s1)[i].op.alu)
    {
      if i < |s0| { assert s0[i].op.Alu?; } else { assert s1[i - |s0|].op.Alu?; }
    }
    OperatesMore(s0 + s1, BinaryCode(op, r0, r1, reg), e, e);
  }
}
