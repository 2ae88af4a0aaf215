/**
 * The interpreter's switch opcode by opcode: what one iteration does at each number of pcap/bpf.h,
 * in terms of packet bytes, A, X, scratch memory and arithmetic.
 */
module Opcodes {
  import opened Words
  import opened Bits
  import opened Bpf

  /** The next instruction, with a new A. */
  function PutA(pc: int, st: State, a: u32): Config { At(pc + 1, State(a, st.x, st.mem)) }

  /** The next instruction, with a new X. */
  function PutX(pc: int, st: State, x: u32): Config { At(pc + 1, State(st.a, x, st.mem)) }

  lemma LoadCodes()
    ensures Decode(0x20) == Some(LdAbs(W)) && Decode(0x28) == Some(LdAbs(H)) && Decode(0x30) == Some(LdAbs(B))
    ensures Decode(0x40) == Some(LdInd(W)) && Decode(0x48) == Some(LdInd(H)) && Decode(0x50) == Some(LdInd(B))
  {
  }

  /** Byte `n` of the packet, as a number to reckon with. */
  function Byte(p: Packet, n: nat): int
    requires n < |p|
  {
    p[n]
  }

  /** Packet loads: big-endian, rejecting the packet unless the whole field was captured. */
  lemma LoadOpcodes(prog: seq<Insn>, env: Env, pc: nat, st: State)
    requires pc < |prog|
    ensures var i, p, next := prog[pc], env.pkt, Step(prog, env, pc, st);
            && (i.code in {0x20, 0x40} ==> var n := i.k + (if i.code == 0x20 then 0 else st.x);
                if n + 4 > |p| then next == Halt(Reject) else next == PutA(pc, st,
                  0x100_0000 * Byte(p, n) + 0x1_0000 * Byte(p, n + 1) + 0x100 * Byte(p, n + 2) + Byte(p, n + 3)))
            && (i.code in {0x28, 0x48} ==> var n := i.k + (if i.code == 0x28 then 0 else st.x);
                if n + 2 > |p| then next == Halt(Reject)
                else next == PutA(pc, st, 0x100 * Byte(p, n) + Byte(p, n + 1)))
            && (i.code in {0x30, 0x50} ==> var n := i.k + (if i.code == 0x30 then 0 else st.x);
                if n + 1 > |p| then next == Halt(Reject) else next == PutA(pc, st, Byte(p, n)))
  {
    hide Decode;
    LoadCodes();
  }

  lemma RegisterCodes()
    ensures Decode(0x80) == Some(LdLen) && Decode(0x81) == Some(LdxLen) && Decode(0xb1) == Some(LdxMsh)
    ensures Decode(0x00) == Some(LdImm) && Decode(0x01) == Some(LdxImm)
    ensures Decode(0x60) == Some(LdMem) && Decode(0x61) == Some(LdxMem)
    ensures Decode(0x02) == Some(St) && Decode(0x03) == Some(Stx)
    ensures Decode(0x07) == Some(Tax) && Decode(0x87) == Some(Txa) && Decode(0x84) == Some(Neg)
    ensures Decode(0x05) == Some(Ja) && Decode(0x06) == Some(RetK) && Decode(0x16) == Some(RetA)
  {
  }

  /** Constants, lengths, scratch memory and moves between the registers. */
  lemma RegisterOpcodes(prog: seq<Insn>, env: Env, pc: nat, st: State)
    requires pc < |prog|
    ensures var i, next := prog[pc], Step(prog, env, pc, st);
            && (i.code == 0x00 ==> next == PutA(pc, st, i.k))
            && (i.code == 0x01 ==> next == PutX(pc, st, i.k))
            && (i.code == 0x80 ==> next == PutA(pc, st, env.wirelen))
            && (i.code == 0x81 ==> next == PutX(pc, st, env.wirelen))
            && (i.code == 0xb1 ==>
                if i.k >= |env.pkt| then next == Halt(Reject) else next == PutX(pc, st, 4 * (Byte(env.pkt, i.k) % 16)))
            && (i.code == 0x07 ==> next == PutX(pc, st, st.a))
            && (i.code == 0x87 ==> next == PutA(pc, st, st.x))
            && (i.code == 0x84 ==> next == PutA(pc, st, if st.a == 0 then 0 else TWO32 - st.a))
    ensures var i, next := prog[pc], Step(prog, env, pc, st);
            i.k < 16 ==>
            && (i.code == 0x60 ==> next == PutA(pc, st, st.mem[i.k]))
            && (i.code == 0x61 ==> next == PutX(pc, st, st.mem[i.k]))
            && (i.code == 0x02 ==> next == At(pc + 1, State(st.a, st.x, st.mem[i.k := st.a])))
            && (i.code == 0x03 ==> next == At(pc + 1, State(st.a, st.x, st.mem[i.k := st.x])))
    ensures prog[pc].code in {0x60, 0x61, 0x02, 0x03} && prog[pc].k >= 16 ==> Step(prog, env, pc, st) == Halt(Stuck)
  {
    hide Decode;
    RegisterCodes();
  }

  /** Unconditional jumps, with a signed offset, and returns. */
  lemma ReturnOpcodes(prog: seq<Insn>, env: Env, pc: nat, st: State)
    requires pc < |prog|
    ensures var i, next := prog[pc], Step(prog, env, pc, st);
            && (i.code == 0x05 ==> next == At(pc + 1 + i.k - (if i.k < 0x8000_0000 then 0 else TWO32), st))
            && (i.code == 0x06 ==> next == Halt(Return(i.k)))
            && (i.code == 0x16 ==> next == Halt(Return(st.a)))
  {
    hide Decode;
    RegisterCodes();
  }

  lemma ArithmeticCodes(s: Src)
    ensures var x := if s == X then 8 else 0;
            && Decode(0x04 + x) == Some(Alu(Add, s)) && Decode(0x14 + x) == Some(Alu(Sub, s))
            && Decode(0x24 + x) == Some(Alu(Mul, s)) && Decode(0x34 + x) == Some(Alu(Div, s))
            && Decode(0x94 + x) == Some(Alu(Mod, s))
  {
  }

  lemma BitCodes(s: Src)
    ensures var x := if s == X then 8 else 0;
            && Decode(0x44 + x) == Some(Alu(Or, s)) && Decode(0x54 + x) == Some(Alu(And, s))
            && Decode(0xa4 + x) == Some(Alu(Xor, s))
            && Decode(0x64 + x) == Some(Alu(Lsh, s)) && Decode(0x74 + x) == Some(Alu(Rsh, s))
  {
  }

  /** The right operand of an instruction whose opcode is `code` or, with X, `code + 8`. */
  function RightOperand(i: Insn, code: nat, st: State): u32 { if i.code == code then i.k else st.x }

  /** Sums, differences and products modulo 2^32. */
  lemma SumOpcodes(prog: seq<Insn>, env: Env, pc: nat, st: State)
    requires pc < |prog|
    ensures var i, next := prog[pc], Step(prog, env, pc, st);
            && (i.code in {0x04, 0x0c} ==> next == PutA(pc, st, (st.a + RightOperand(i, 0x04, st)) % TWO32))
            && (i.code in {0x14, 0x1c} ==> next == PutA(pc, st, (st.a - RightOperand(i, 0x14, st)) % TWO32))
            && (i.code in {0x24, 0x2c} ==> next == PutA(pc, st, (st.a * RightOperand(i, 0x24, st)) % TWO32))
  {
    hide Decode;
    ArithmeticCodes(K);
    ArithmeticCodes(X);
  }

  /**
   * Quotients and remainders: a zero X rejects the packet, and a zero constant, which the validator
   * refuses, has no defined effect.
   */
  lemma DivisionOpcodes(prog: seq<Insn>, env: Env, pc: nat, st: State)
    requires pc < |prog|
    ensures var i, next := prog[pc], Step(prog, env, pc, st);
            && (i.code in {0x34, 0x94} && i.k == 0 ==> next == Halt(Stuck))
            && (i.code in {0x3c, 0x9c} && st.x == 0 ==> next == Halt(Reject))
    ensures var i, next := prog[pc], Step(prog, env, pc, st);
            && (i.code in {0x34, 0x3c} ==> var b := RightOperand(i, 0x34, st);
                b != 0 ==> 0 <= st.a / b < TWO32 && next == PutA(pc, st, st.a / b))
            && (i.code in {0x94, 0x9c} ==> var b := RightOperand(i, 0x94, st);
                b != 0 ==> next == PutA(pc, st, st.a % b))
  {
    hide Decode;
    ArithmeticCodes(K);
    ArithmeticCodes(X);
    var i := prog[pc];
    if i.k != 0 {
      QuotientBound(st.a, i.k);
    }
    if st.x != 0 {
      QuotientBound(st.a, st.x);
    }
  }

  /**
   * Shifts as multiplication and division by powers of 2: by X, a count over 31 gives 0; by such a
   * constant C leaves the effect undefined.
   */
  lemma ShiftOpcodes(prog: seq<Insn>, env: Env, pc: nat, st: State)
    requires pc < |prog|
    ensures var i, next := prog[pc], Step(prog, env, pc, st);
            && (i.code in {0x64, 0x74} && i.k >= 32 ==> next == Halt(Stuck))
            && (i.code in {0x6c, 0x7c} && st.x >= 32 ==> next == PutA(pc, st, 0))
    ensures var i, next := prog[pc], Step(prog, env, pc, st);
            && (i.code in {0x64, 0x6c} ==> var b := RightOperand(i, 0x64, st);
                b < 32 ==> next == PutA(pc, st, st.a * Pow2(b) % TWO32))
            && (i.code in {0x74, 0x7c} ==> var b := RightOperand(i, 0x74, st);
                b < 32 ==> 0 <= st.a / Pow2(b) < TWO32 && next == PutA(pc, st, st.a / Pow2(b)))
  {
    hide Decode, ShiftLeft, ShiftRight;
    BitCodes(K);
    BitCodes(X);
    var i := prog[pc];
    if i.code in {0x64, 0x6c} {
      var b := RightOperand(i, 0x64, st);
      if b < 32 {
        ShiftLeftMultiplies(st.a, b);
      }
    } else if i.code in {0x74, 0x7c} {
      var b := RightOperand(i, 0x74, st);
      if b < 32 {
        ShiftRightDivides(st.a, b);
      }
    }
  }

  /** Or, and, exclusive or, by the binary digits of the new A. */
  lemma BitOpcodes(prog: seq<Insn>, env: Env, pc: nat, st: State, n: nat)
    requires pc < |prog| && prog[pc].code in {0x44, 0x4c, 0x54, 0x5c, 0xa4, 0xac}
    ensures var i, next := prog[pc], Step(prog, env, pc, st);
            && next.At? && next == PutA(pc, st, next.st.a)
            && (i.code in {0x44, 0x4c} ==>
                (Bit(next.st.a, n) <==> Bit(st.a, n) || Bit(RightOperand(i, 0x44, st), n)))
            && (i.code in {0x54, 0x5c} ==>
                (Bit(next.st.a, n) <==> Bit(st.a, n) && Bit(RightOperand(i, 0x54, st), n)))
            && (i.code in {0xa4, 0xac} ==>
                (Bit(next.st.a, n) <==> Bit(st.a, n) != Bit(RightOperand(i, 0xa4, st), n)))
  {
    hide Decode, BitAnd, BitOr, BitXor, Bit;
    BitCodes(K);
    BitCodes(X);
    OpsBits(st.a, prog[pc].k, n);
    OpsBits(st.a, st.x, n);
  }

  lemma JumpCodes(s: Src)
    ensures var x := if s == X then 8 else 0;
            && Decode(0x15 + x) == Some(Jcc(Jeq, s)) && Decode(0x25 + x) == Some(Jcc(Jgt, s))
            && Decode(0x35 + x) == Some(Jcc(Jge, s)) && Decode(0x45 + x) == Some(Jcc(Jset, s))
  {
  }

  /** Two numbers have a 1 in the same place. */
  ghost predicate ShareBit(a: nat, b: nat) { exists n: nat :: n < 32 && Bit(a, n) && Bit(b, n) }

  /** `jset` tests for a common digit. */
  lemma MaskShares(a: u32, b: u32)
    ensures BitAnd(a, b) != 0 <==> ShareBit(a, b)
  {
    hide BitAnd, Bit;
    if BitAnd(a, b) != 0 {
      var n := NoBits(BitAnd(a, b));
      OpsBits(a, b, n);
      assert Bit(a, n) && Bit(b, n);
    } else if ShareBit(a, b) {
      var n: nat :| n < 32 && Bit(a, n) && Bit(b, n);
      OpsBits(a, b, n);
      ZeroBits(n);
    }
  }

  lemma ZeroBits(n: nat)
    ensures !Bit(0, n)
  {
    QuotientIs(0, Pow2(n), 0, 0);
  }

  /** Conditional jumps: unsigned comparisons, and the test for a common digit. */
  lemma JumpOpcodes(prog: seq<Insn>, env: Env, pc: nat, st: State)
    requires pc < |prog|
    ensures var i, next := prog[pc], Step(prog, env, pc, st);
            var yes, no := At(pc + 1 + i.jt, st), At(pc + 1 + i.jf, st);
            && (i.code in {0x15, 0x1d} ==> next == if st.a == RightOperand(i, 0x15, st) then yes else no)
            && (i.code in {0x25, 0x2d} ==> next == if st.a > RightOperand(i, 0x25, st) then yes else no)
            && (i.code in {0x35, 0x3d} ==> next == if st.a >= RightOperand(i, 0x35, st) then yes else no)
            && (i.code in {0x45, 0x4d} ==> next == if ShareBit(st.a, RightOperand(i, 0x45, st)) then yes else no)
  {
    hide Decode, BitAnd, ShareBit;
    JumpCodes(K);
    JumpCodes(X);
    MaskShares(st.a, prog[pc].k);
    MaskShares(st.a, st.x);
  }

  /** The opcodes with a case in the switch. */
  predicate Known(code: nat) {
    || code in {0x00, 0x01, 0x02, 0x03, 0x05, 0x06, 0x07, 0x16, 0x60, 0x61, 0x80, 0x81, 0x84, 0x87, 0xb1}
    || code in {0x20, 0x28, 0x30, 0x40, 0x48, 0x50}
    || code in {0x04, 0x0c, 0x14, 0x1c, 0x24, 0x2c, 0x34, 0x3c, 0x94, 0x9c}
    || code in {0x44, 0x4c, 0x54, 0x5c, 0xa4, 0xac, 0x64, 0x6c, 0x74, 0x7c}
    || code in {0x15, 0x1d, 0x25, 0x2d, 0x35, 0x3d, 0x45, 0x4d}
  }

  /** On every other number the interpreter aborts. */
  lemma OtherOpcodes(prog: seq<Insn>, env: Env, pc: nat, st: State)
    requires pc < |prog| && !Known(prog[pc].code)
    ensures Step(prog, env, pc, st) == Halt(Stuck)
  {
    hide Exec, Test;
    var code := prog[pc].code;
    if code < 256 {
      assert code == 16 * (code / 16) + 8 * (code / 8 % 2) + code % 8;
    }
  }

  /** What the validator asks of each instruction the interpreter knows. */
  lemma KnownAccepted(f: seq<Insn>, i: nat)
    requires i < |f| && Known(f[i].code)
    ensures var code, k := f[i].code, f[i].k;
            InsnAccepted(f, i) <==>
            && (code in {0x02, 0x03, 0x60, 0x61} ==> k < 16)
            && (code in {0x34, 0x94} ==> k != 0)
            && (code == 0x05 ==> (i + 1 + k) % TWO32 < |f|)
            && (code in {0x15, 0x1d, 0x25, 0x2d, 0x35, 0x3d, 0x45, 0x4d} ==>
                i + 1 + f[i].jt < |f| && i + 1 + f[i].jf < |f|)
  {
  }

  /** And which of the byte-sized numbers without a case in the switch it lets through. */
  lemma UnknownAccepted(f: seq<Insn>, i: nat)
    requires i < |f| && f[i].code < 256 && !Known(f[i].code)
    ensures var code, k := f[i].code, f[i].k;
            InsnAccepted(f, i) <==>
            || (code % 8 < 2 && (code < 0x60 || 0x80 <= code < 0xc0 || (code < 0x80 && k < 16)))
            || (2 <= code % 8 < 4 && k < 16)
            || code == 0x8c
            || (code == 0x0d && (i + 1 + k) % TWO32 < |f|)
            || code % 8 >= 6
  {
  }
}
