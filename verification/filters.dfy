/**
 * What compiled filters accept, in Dafny's own comparisons and in binary digits: the tests on the
 * packet length and on a byte of the frame.
 */
module Filters {
  import opened Words
  import opened Bits
  import opened Bpf
  import opened Arithmetic
  import opened Gencode
  import opened Opcodes
  import opened Compile

  /** The program returns the snapshot length for the packets of `wanted`, and 0 for all others. */
  ghost predicate Selects(prog: seq<Insn>, snaplen: u32, wanted: Env -> bool) {
    Valid(prog) && forall env, st :: Run(prog, env, 0, st) == Return(if wanted(env) then snaplen else 0)
  }

  /** A comparison of the wire length with a number. */
  function LengthTest(cmp: Cmp, n: u32, reversed: bool): Expr { Relation(cmp, WireLength, Number(n), reversed) }

  lemma LengthTruth(cmp: Cmp, n: u32, reversed: bool, env: Env)
    ensures Truth(LengthTest(cmp, n, reversed), env) == Some(Compare(cmp, env.wirelen, n) != reversed)
    ensures Accepted(LengthTest(cmp, n, reversed), MEMWORDS)
  {
  }

  /** `len = n`, `len > n`, `len >= n`, and with `reversed` `len != n`, `len <= n`, `len < n`. */
  method CompileLengthTest(cmp: Cmp, n: u32, reversed: bool, snaplen: u32) returns (prog: seq<Insn>)
    requires snaplen != 0
    ensures cmp == Jeq && !reversed ==> Selects(prog, snaplen, (env: Env) => env.wirelen == n)
    ensures cmp == Jeq && reversed ==> Selects(prog, snaplen, (env: Env) => env.wirelen != n)
    ensures cmp == Jgt && !reversed ==> Selects(prog, snaplen, (env: Env) => env.wirelen > n)
    ensures cmp == Jgt && reversed ==> Selects(prog, snaplen, (env: Env) => env.wirelen <= n)
    ensures cmp == Jge && !reversed ==> Selects(prog, snaplen, (env: Env) => env.wirelen >= n)
    ensures cmp == Jge && reversed ==> Selects(prog, snaplen, (env: Env) => env.wirelen < n)
  {
    hide Run, Valid, Truth, Accepted, BitAnd, Emitted;
    LengthTruth(cmp, n, reversed, Env([], 0));
    forall env { LengthTruth(cmp, n, reversed, env); }
    var compiled := PcapCompile(LengthTest(cmp, n, reversed), snaplen);
    prog := compiled.value;
  }

  /** `ether[i] op n`, for an operator that `n` does not make the generator refuse. */
  function ByteOp(op: AluOp, i: u32, n: u32): Arith { Binary(op, Packet(Number(i), B), Number(n)) }

  lemma ByteFacts(i: u32)
    ensures var byte := Packet(Number(i), B); Compilable(byte) && Need(byte) == 2 && CodeLength(byte) == 5
  {
    var index := Number(i);
    assert Compilable(index) && Need(index) == 1 && CodeLength(index) == 2;
    var byte := Packet(index, B);
    assert CodeLength(byte) == CodeLength(index) + 3;
  }

  lemma ByteOpFacts(op: AluOp, i: u32, n: u32)
    requires !Refused(op, Number(n))
    ensures forall env :: Eval(ByteOp(op, i, n), env) == if i < |env.pkt| then AluX(op, env.pkt[i], n) else None
    ensures Compilable(ByteOp(op, i, n)) && Need(ByteOp(op, i, n)) == 2 && CodeLength(ByteOp(op, i, n)) == 11
  {
    hide AluX;
    var byte := Packet(Number(i), B);
    assert forall env :: Eval(byte, env) == Load(env.pkt, i, B);
    ByteFacts(i);
    assert CodeLength(Number(n)) == 2 && Need(Number(n)) == 1;
  }

  /** `ether[i] & m != 0` */
  function MaskTest(i: u32, m: u32): Expr {
    Relation(Jeq, ByteOp(And, i, m), Number(0), true)
  }

  lemma MaskTruth(i: u32, m: u32, env: Env)
    ensures Truth(MaskTest(i, m), env) == if i < |env.pkt| then Some(ShareBit(env.pkt[i], m)) else None
    ensures Accepted(MaskTest(i, m), MEMWORDS) && Bulk(MaskTest(i, m)) == 19
  {
    hide BitAnd, ShareBit, ByteOp;
    ByteOpFacts(And, i, m);
    if i < |env.pkt| {
      MaskShares(env.pkt[i], m);
    }
  }

  /** `ether[i] >> n = v` */
  function ShiftTest(i: u32, n: u32, v: u32): Expr {
    Relation(Jeq, ByteOp(Rsh, i, n), Number(v), false)
  }

  lemma ShiftTruth(i: u32, n: u32, v: u32, env: Env)
    requires n < 32
    ensures Truth(ShiftTest(i, n, v), env) == if i < |env.pkt| then Some(env.pkt[i] / Pow2(n) == v) else None
    ensures Accepted(ShiftTest(i, n, v), MEMWORDS) && Bulk(ShiftTest(i, n, v)) == 19
  {
    hide ShiftRight, ByteOp;
    ByteOpFacts(Rsh, i, n);
    if i < |env.pkt| {
      ShiftRightDivides(env.pkt[i], n);
    }
  }

  /** The frames with a digit in common between byte `i` and `m` pass; shorter frames are rejected. */
  method CompileMaskTest(i: u32, m: u32, snaplen: u32) returns (prog: seq<Insn>)
    requires snaplen != 0
    ensures Valid(prog) && forall env, st ::
              Run(prog, env, 0, st) ==
              if i >= |env.pkt| then Reject else Return(if ShareBit(env.pkt[i], m) then snaplen else 0)
  {
    hide Run, Valid, Truth, Accepted, ShareBit, Emitted;
    MaskTruth(i, m, Env([], 0));
    forall env { MaskTruth(i, m, env); }
    var compiled := PcapCompile(MaskTest(i, m), snaplen);
    prog := compiled.value;
  }

  method CompileShiftTest(i: u32, n: u32, v: u32, snaplen: u32) returns (prog: seq<Insn>)
    requires snaplen != 0 && n < 32
    ensures Valid(prog) && forall env, st ::
              Run(prog, env, 0, st) ==
              if i >= |env.pkt| then Reject else Return(if env.pkt[i] / Pow2(n) == v then snaplen else 0)
  {
    hide Run, Valid, Truth, Accepted, Emitted;
    ShiftTruth(i, n, v, Env([], 0));
    forall env { ShiftTruth(i, n, v, env); }
    var compiled := PcapCompile(ShiftTest(i, n, v), snaplen);
    prog := compiled.value;
  }

  lemma ByteFieldTruth(off: u32, cmp: Cmp, reverse: bool, v: u32, env: Env)
    ensures var t := Truth(FieldTest(off, B, ALL_ONES, cmp, reverse, v), env);
            if off >= |env.pkt| then t == None
            else
              var x := env.pkt[off];
              t == Some(match cmp
                        case Jeq => x == v
                        case Jgt => if reverse then x <= v else x > v
                        case Jge => if reverse then x < v else x >= v
                        case Jset => ShareBit(x, v))
  {
    hide BitAnd, ShareBit;
    if off < |env.pkt| {
      MaskShares(env.pkt[off], v);
    }
  }

  /** A test of byte `off`: the sense of an equation or of a common digit is never reversed. */
  method CompileByteTest(off: u32, cmp: Cmp, reverse: bool, v: u32, snaplen: u32) returns (prog: seq<Insn>)
    requires snaplen != 0
    ensures Valid(prog)
    ensures forall env: Env, st: State :: off >= |env.pkt| ==> Run(prog, env, 0, st) == Reject
    ensures cmp == Jeq ==>
              forall env: Env, st: State :: off < |env.pkt| ==>
                Run(prog, env, 0, st) == Return(if env.pkt[off] == v then snaplen else 0)
    ensures cmp == Jgt ==>
              forall env: Env, st: State :: off < |env.pkt| ==>
                Run(prog, env, 0, st) == Return(if reverse == (env.pkt[off] <= v) then snaplen else 0)
    ensures cmp == Jge ==>
              forall env: Env, st: State :: off < |env.pkt| ==>
                Run(prog, env, 0, st) == Return(if reverse == (env.pkt[off] < v) then snaplen else 0)
    ensures cmp == Jset ==>
              forall env: Env, st: State :: off < |env.pkt| ==>
                Run(prog, env, 0, st) == Return(if ShareBit(env.pkt[off], v) then snaplen else 0)
  {
    hide Run, Valid, Truth, ShareBit, Emitted;
    forall env { ByteFieldTruth(off, cmp, reverse, v, env); }
    var compiled := PcapCompile(FieldTest(off, B, ALL_ONES, cmp, reverse, v), snaplen);
    prog := compiled.value;
  }
}
