/**
 * The classic BPF machine: instruction encoding, the interpreter and the
 * program validator (bpf_filter.c, pcap/bpf.h).
 */
module Bpf {
  import opened Words

  const MEMWORDS: int := 16

  datatype Size = W | H | B

  datatype AluOp = Add | Sub | Mul | Div | Or | And | Lsh | Rsh | Mod | Xor

  datatype Src = K | X

  datatype Cmp = Jeq | Jgt | Jge | Jset

  /** Decoded opcodes. `Nop` exists only in the intermediate representation. */
  datatype Op =
    | LdAbs(size: Size)
    | LdInd(size: Size)
    | LdLen
    | LdxLen
    | LdxMsh
    | LdImm
    | LdxImm
    | LdMem
    | LdxMem
    | St
    | Stx
    | Alu(alu: AluOp, src: Src)
    | Neg
    | Tax
    | Txa
    | Ja
    | Jcc(cmp: Cmp, src: Src)
    | RetK
    | RetA
    | Nop

  /** `struct bpf_insn`. */
  datatype Insn = Insn(code: nat, jt: u8, jf: u8, k: u32)

  // ---------------------------------------------------------------------
  // Encoding
  // ---------------------------------------------------------------------

  function SizeBits(s: Size): nat { match s case W => 0x00 case H => 0x08 case B => 0x10 }

  function SrcBits(s: Src): nat { match s case K => 0x00 case X => 0x08 }

  function AluBits(op: AluOp): nat {
    match op
    case Add => 0x00 case Sub => 0x10 case Mul => 0x20 case Div => 0x30 case Or => 0x40
    case And => 0x50 case Lsh => 0x60 case Rsh => 0x70 case Mod => 0x90 case Xor => 0xa0
  }

  function CmpBits(c: Cmp): nat {
    match c case Jeq => 0x10 case Jgt => 0x20 case Jge => 0x30 case Jset => 0x40
  }

  /** The 16-bit opcode of an operation that may appear in a program. */
  function Encode(op: Op): nat
    requires op != Nop
  {
    match op
    case LdAbs(s) => 0x20 + SizeBits(s)
    case LdInd(s) => 0x40 + SizeBits(s)
    case LdLen => 0x80
    case LdxLen => 0x81
    case LdxMsh => 0xb1
    case LdImm => 0x00
    case LdxImm => 0x01
    case LdMem => 0x60
    case LdxMem => 0x61
    case St => 0x02
    case Stx => 0x03
    case Alu(o, s) => 0x04 + AluBits(o) + SrcBits(s)
    case Neg => 0x84
    case Tax => 0x07
    case Txa => 0x87
    case Ja => 0x05
    case Jcc(c, s) => 0x05 + CmpBits(c) + SrcBits(s)
    case RetK => 0x06
    case RetA => 0x16
  }

  function DecodeSrc(code: nat): Src { if SourceOf(code) == 0x08 then X else K }

  function DecodeAlu(code: nat): Option<AluOp> {
    var o := OperationOf(code);
    if o == 0x00 then Some(Add) else if o == 0x10 then Some(Sub) else if o == 0x20 then Some(Mul)
    else if o == 0x30 then Some(Div) else if o == 0x40 then Some(Or) else if o == 0x50 then Some(And)
    else if o == 0x60 then Some(Lsh) else if o == 0x70 then Some(Rsh) else if o == 0x90 then Some(Mod)
    else if o == 0xa0 then Some(Xor) else None
  }

  function DecodeCmp(code: nat): Option<Cmp> {
    var o := OperationOf(code);
    if o == 0x10 then Some(Jeq) else if o == 0x20 then Some(Jgt) else if o == 0x30 then Some(Jge)
    else if o == 0x40 then Some(Jset) else None
  }

  /** The cases of the interpreter's switch; `None` is its default, which aborts. */
  function Decode(code: nat): Option<Op> {
    if code >= 256 then None
    else if code == 0x20 then Some(LdAbs(W)) else if code == 0x28 then Some(LdAbs(H))
    else if code == 0x30 then Some(LdAbs(B)) else if code == 0x40 then Some(LdInd(W))
    else if code == 0x48 then Some(LdInd(H)) else if code == 0x50 then Some(LdInd(B))
    else if code == 0x80 then Some(LdLen) else if code == 0x81 then Some(LdxLen)
    else if code == 0xb1 then Some(LdxMsh) else if code == 0x00 then Some(LdImm)
    else if code == 0x01 then Some(LdxImm) else if code == 0x60 then Some(LdMem)
    else if code == 0x61 then Some(LdxMem) else if code == 0x02 then Some(St)
    else if code == 0x03 then Some(Stx) else if code == 0x07 then Some(Tax)
    else if code == 0x87 then Some(Txa) else if code == 0x05 then Some(Ja)
    else if code == 0x06 then Some(RetK) else if code == 0x16 then Some(RetA)
    else if code == 0x84 then Some(Neg)
    else if ClassOf(code) == 0x04 then
      match DecodeAlu(code) case Some(o) => Some(Alu(o, DecodeSrc(code))) case None => None
    else if ClassOf(code) == 0x05 then
      match DecodeCmp(code) case Some(c) => Some(Jcc(c, DecodeSrc(code))) case None => None
    else None
  }

  // BPF_CLASS, BPF_MODE, BPF_OP and BPF_SRC: the masks 0x07, 0xe0, 0xf0 and 0x08.
  function ClassOf(code: nat): nat { code % 8 }

  function ModeOf(code: nat): nat { code / 32 % 8 * 32 }

  function OperationOf(code: nat): nat { code / 16 % 16 * 16 }

  function SourceOf(code: nat): nat { code / 8 % 2 * 8 }

  lemma DecodeEncodeAlu(o: AluOp, s: Src)
    ensures Decode(Encode(Alu(o, s))) == Some(Alu(o, s))
  {
    match o { case Add => case Sub => case Mul => case Div => case Or =>
              case And => case Lsh => case Rsh => case Mod => case Xor => }
  }

  lemma DecodeEncodeJcc(c: Cmp, s: Src)
    ensures Decode(Encode(Jcc(c, s))) == Some(Jcc(c, s))
  {
    match c { case Jeq => case Jgt => case Jge => case Jset => }
  }

  lemma DecodeEncode(op: Op)
    requires op != Nop
    ensures Decode(Encode(op)) == Some(op)
  {
    match op
    case Alu(o, s) => DecodeEncodeAlu(o, s);
    case Jcc(c, s) => DecodeEncodeJcc(c, s);
    case _ =>
  }

  // ---------------------------------------------------------------------
  // Straight-line semantics
  // ---------------------------------------------------------------------

  type Mem = m: seq<u32> | |m| == MEMWORDS witness seq(16, _ => 0)

  datatype State = State(a: u32, x: u32, mem: Mem)

  type Packet = p: seq<u8> | |p| < TWO32

  datatype Env = Env(pkt: Packet, wirelen: u32)

  /** What a statement does: go on, return 0 at once, or behaviour C leaves undefined. */
  datatype Effect = Next(st: State) | Rejected | Undefined

  function Width(s: Size): nat { match s case W => 4 case H => 2 case B => 1 }

  /** Big-endian field of the packet, if all of it was captured. */
  function Load(p: Packet, off: nat, s: Size): Option<u32> {
    if off + Width(s) > |p| then None
    else match s
      case W => Some(Shift8(Shift8(Shift8(p[off], p[off + 1]), p[off + 2]), p[off + 3]))
      case H => Some(Shift8(p[off], p[off + 1]))
      case B => Some(p[off])
  }

  /** A binary operator with X as right operand; `None` when a zero divisor rejects. */
  function AluX(op: AluOp, a: u32, b: u32): Option<u32> {
    match op
    case Add => Some(Plus(a, b))
    case Sub => Some(Minus(a, b))
    case Mul => Some(Times(a, b))
    case Div => if b == 0 then None else Some(Quotient(a, b))
    case Mod => if b == 0 then None else Some(Remainder(a, b))
    case And => Some(BitAnd(a, b))
    case Or => Some(BitOr(a, b))
    case Xor => Some(BitXor(a, b))
    case Lsh => Some(if b < 32 then ShiftLeft(a, b) else 0)
    case Rsh => Some(if b < 32 then ShiftRight(a, b) else 0)
  }

  /** Constant operands for which C defines the operation. */
  predicate GoodConstant(op: AluOp, k: u32) {
    && (op == Div || op == Mod ==> k != 0)
    && (op == Lsh || op == Rsh ==> k < 32)
  }

  function LoadA(st: State, v: Option<u32>): Effect {
    match v case Some(a) => Next(st.(a := a)) case None => Rejected
  }

  /** One statement that is neither a jump nor a return. */
  function Exec(op: Op, k: u32, env: Env, st: State): Effect {
    match op
    case LdAbs(s) => LoadA(st, Load(env.pkt, k, s))
    case LdInd(s) => LoadA(st, Load(env.pkt, st.x + k, s))
    case LdLen => Next(st.(a := env.wirelen))
    case LdxLen => Next(st.(x := env.wirelen))
    case LdxMsh => if k >= |env.pkt| then Rejected else Next(st.(x := env.pkt[k] % 16 * 4))
    case LdImm => Next(st.(a := k))
    case LdxImm => Next(st.(x := k))
    case LdMem => if k < MEMWORDS then Next(st.(a := st.mem[k])) else Undefined
    case LdxMem => if k < MEMWORDS then Next(st.(x := st.mem[k])) else Undefined
    case St => if k < MEMWORDS then Next(st.(mem := st.mem[k := st.a])) else Undefined
    case Stx => if k < MEMWORDS then Next(st.(mem := st.mem[k := st.x])) else Undefined
    case Alu(o, X) => LoadA(st, AluX(o, st.a, st.x))
    case Alu(o, K) => if GoodConstant(o, k) then LoadA(st, AluX(o, st.a, k)) else Undefined
    case Neg => Next(st.(a := Minus(0, st.a)))
    case Tax => Next(st.(x := st.a))
    case Txa => Next(st.(a := st.x))
    case Nop => Next(st)
    case _ => Undefined
  }

  predicate Compare(c: Cmp, a: u32, b: u32) {
    match c
    case Jeq => a == b
    case Jgt => a > b
    case Jge => a >= b
    case Jset => BitAnd(a, b) != 0
  }

  /** The outcome of a conditional jump's test. */
  predicate Test(c: Cmp, src: Src, k: u32, st: State) {
    Compare(c, st.a, if src == X then st.x else k)
  }

  // ---------------------------------------------------------------------
  // The interpreter
  // ---------------------------------------------------------------------

  datatype Outcome = Return(v: u32) | Reject | Stuck

  datatype Config = At(pc: int, st: State) | Halt(out: Outcome)

  /** The value `pcap_filter` hands back: a rejected packet is reported as 0. */
  function Verdict(o: Outcome): u32
    requires !o.Stuck?
  {
    if o.Return? then o.v else 0
  }

  /** One iteration of the interpreter loop. */
  function Step(prog: seq<Insn>, env: Env, pc: int, st: State): Config {
    if !(0 <= pc < |prog|) then Halt(Stuck)
    else
      var i := prog[pc];
      match Decode(i.code)
      case None => Halt(Stuck)
      case Some(RetK) => Halt(Return(i.k))
      case Some(RetA) => Halt(Return(st.a))
      case Some(Ja) => At(pc + 1 + Signed(i.k), st)
      case Some(Jcc(c, s)) => At(pc + 1 + (if Test(c, s, i.k, st) then i.jt else i.jf), st)
      case Some(op) =>
        match Exec(op, i.k, env, st)
        case Next(st') => At(pc + 1, st')
        case Rejected => Halt(Reject)
        case Undefined => Halt(Stuck)
  }

  /** The configuration after at most `n` iterations. */
  function Steps(prog: seq<Insn>, env: Env, c: Config, n: nat): Config
    decreases n
  {
    if n == 0 || c.Halt? then c else Steps(prog, env, Step(prog, env, c.pc, c.st), n - 1)
  }

  /** A run in which every jump goes forward; a backward jump counts as being stuck. */
  function Run(prog: seq<Insn>, env: Env, pc: nat, st: State): Outcome
    decreases |prog| - pc
  {
    match Step(prog, env, pc, st)
    case Halt(o) => o
    case At(pc', st') => if pc < pc' <= |prog| then Run(prog, env, pc', st') else Stuck
  }

  /** The forward run is what the iterated loop computes, in at most |prog| - pc iterations. */
  lemma {:induction false} RunIsSteps(prog: seq<Insn>, env: Env, pc: nat, st: State, n: nat)
    requires !Run(prog, env, pc, st).Stuck?
    requires |prog| - pc <= n
    ensures Steps(prog, env, At(pc, st), n) == Halt(Run(prog, env, pc, st))
    decreases |prog| - pc
  {
    hide Decode, Exec, Compare;
    var c := Step(prog, env, pc, st);
    assert Steps(prog, env, At(pc, st), n) == Steps(prog, env, c, n - 1);
    if c.At? {
      RunIsSteps(prog, env, c.pc, c.st, n - 1);
    }
  }

  /** Absolute loads with the C guards; `None` stands for the early `return 0`. */
  method FetchAbs(p: Packet, k: u32, size: Size) returns (v: Option<u32>)
    ensures v == Load(p, k, size)
  {
    var buflen := |p|;
    match size {
      case W =>
        if k > buflen || 4 > buflen - k { return None; }
        v := Some(Shift8(Shift8(Shift8(p[k], p[k + 1]), p[k + 2]), p[k + 3]));
      case H =>
        if k > buflen || 2 > buflen - k { return None; }
        v := Some(Shift8(p[k], p[k + 1]));
      case B =>
        if k >= buflen { return None; }
        v := Some(p[k]);
    }
  }

  /** Indexed loads: the index wraps at 32 bits, and the guards make that unobservable. */
  method FetchInd(p: Packet, x: u32, k: u32, size: Size) returns (v: Option<u32>)
    ensures v == Load(p, x + k, size)
  {
    var buflen := |p|;
    var i := Plus(x, k);
    match size {
      case W =>
        if k > buflen || x > buflen - k { return None; }
        IndexExact(buflen, x, k);
        if 4 > Minus(buflen, i) { return None; }
        v := Some(Shift8(Shift8(Shift8(p[i], p[i + 1]), p[i + 2]), p[i + 3]));
      case H =>
        if x > buflen || k > buflen - x { return None; }
        IndexExact(buflen, x, k);
        if 2 > Minus(buflen, i) { return None; }
        v := Some(Shift8(p[i], p[i + 1]));
      case B =>
        if k >= buflen || x >= buflen - k { return None; }
        IndexExact(buflen, x, k);
        v := Some(p[i]);
    }
  }

  lemma IndexExact(buflen: u32, x: u32, k: u32)
    requires x + k <= buflen
    ensures Plus(x, k) == x + k && Minus(buflen, Plus(x, k)) == buflen - (x + k)
  {
    NoWrap(x, k);
    NoWrap(buflen, x + k);
  }

  /** The straight-line cases of the interpreter's switch; `ok` is false on an early `return 0`. */
  method ExecInsn(op: Op, k: u32, pkt: Packet, wirelen: u32, A0: u32, X0: u32, mem0: Mem)
    returns (ok: bool, A: u32, X: u32, mem: Mem)
    requires !Exec(op, k, Env(pkt, wirelen), State(A0, X0, mem0)).Undefined?
    ensures Exec(op, k, Env(pkt, wirelen), State(A0, X0, mem0))
         == if ok then Next(State(A, X, mem)) else Rejected
  {
    ok, A, X, mem := true, A0, X0, mem0;
    match op {
      case LdAbs(size) =>
        var v := FetchAbs(pkt, k, size);
        if v == None { ok := false; } else { A := v.value; }
      case LdInd(size) =>
        var v := FetchInd(pkt, X, k, size);
        if v == None { ok := false; } else { A := v.value; }
      case LdLen => A := wirelen;
      case LdxLen => X := wirelen;
      case LdxMsh => if k >= |pkt| { ok := false; } else { X := pkt[k] % 16 * 4; }
      case LdImm => A := k;
      case LdxImm => X := k;
      case LdMem => A := mem[k];
      case LdxMem => X := mem[k];
      case St => mem := mem[k := A];
      case Stx => mem := mem[k := X];
      case Alu(o, src) =>
        var v := AluX(o, A, if src == Src.X then X else k);
        if v == None { ok := false; } else { A := v.value; }
      case Neg => A := Minus(0, A);
      case Tax => X := A;
      case Txa => A := X;
      case Nop =>
    }
  }

  /**
   * `pcap_filter` itself on an accepted program, for at most `limit` iterations of its loop; `None`
   * means that it is still running. `mem` is the uninitialised scratch array; program, packet and
   * scratch memory are indexed directly, so verifying this method is verifying that no access
   * leaves its bounds. A trapping instruction ends the run as stuck.
   */
  method PcapFilter(prog: seq<Insn>, pkt: Packet, wirelen: u32, mem0: Mem, limit: nat) returns (r: Option<Outcome>)
    requires Valid(prog)
    ensures match Steps(prog, Env(pkt, wirelen), At(0, State(0, 0, mem0)), limit)
            case Halt(o) => r == Some(o)
            case At(_, _) => r == None
  {
    hide Decode, Exec, Compare, InsnAccepted, Traps;
    var A: u32, X: u32, mem := 0, 0, mem0;
    var pc := 0;
    ghost var env := Env(pkt, wirelen);
    ghost var end := Steps(prog, env, At(0, State(0, 0, mem0)), limit);
    var n := 0;
    while n < limit
      invariant 0 <= n <= limit && 0 <= pc < |prog|
      invariant end == Steps(prog, env, At(pc, State(A, X, mem)), limit - n)
    {
      var i := prog[pc];
      StepSafe(prog, env, pc, State(A, X, mem));
      if Traps(i) { return Some(Stuck); }
      TrapsOrDecodes(i);
      var op := Decode(i.code).value;
      match op {
        case RetK => return Some(Return(i.k));
        case RetA => return Some(Return(A));
        case Ja => pc := pc + Signed(i.k);
        case Jcc(c, src) =>
          pc := pc + (if Compare(c, A, if src == Src.X then X else i.k) then i.jt else i.jf);
        case _ =>
          var ok;
          ok, A, X, mem := ExecInsn(op, i.k, pkt, wirelen, A, X, mem);
          if !ok { return Some(Reject); }
      }
      pc := pc + 1;
      n := n + 1;
    }
    return None;
  }

  lemma TrapsOrDecodes(i: Insn)
    requires !Traps(i)
    ensures Decode(i.code).Some?
  {
    hide Decode;
  }

  // ---------------------------------------------------------------------
  // The validator
  // ---------------------------------------------------------------------

  /** The checks `pcap_validate_filter` makes on instruction `i`. */
  predicate InsnAccepted(f: seq<Insn>, i: nat)
    requires i < |f|
  {
    var p := f[i];
    var cls := ClassOf(p.code);
    if cls == 0x00 || cls == 0x01 then
      var mode := ModeOf(p.code);
      mode in {0x00, 0x20, 0x40, 0xa0, 0x80} || (mode == 0x60 && p.k < MEMWORDS)
    else if cls == 0x02 || cls == 0x03 then p.k < MEMWORDS
    else if cls == 0x04 then
      var o := OperationOf(p.code);
      || o in {0x00, 0x10, 0x20, 0x40, 0x50, 0xa0, 0x60, 0x70, 0x80}
      || (o in {0x30, 0x90} && !(SourceOf(p.code) == 0x00 && p.k == 0))
    else if cls == 0x05 then
      var o := OperationOf(p.code);
      || (o == 0x00 && Wrap(i + 1 + p.k) < |f|)
      || (o in {0x10, 0x20, 0x30, 0x40} && i + 1 + p.jt < |f| && i + 1 + p.jf < |f|)
    else true
  }

  /** Programs whose length fits the validator's `int len` and that it accepts. */
  predicate Valid(f: seq<Insn>) {
    && 1 <= |f| < 0x8000_0000
    && (forall i :: 0 <= i < |f| ==> InsnAccepted(f, i))
    && ClassOf(f[|f| - 1].code) == 0x06
  }

  method ValidateFilter(f: seq<Insn>) returns (ok: bool)
    requires |f| < 0x8000_0000
    ensures ok <==> Valid(f)
  {
    if |f| < 1 { return false; }
    var i := 0;
    while i < |f|
      invariant i <= |f|
      invariant forall j :: 0 <= j < i ==> InsnAccepted(f, j)
    {
      if !InsnAccepted(f, i) { return false; }
      i := i + 1;
    }
    return ClassOf(f[|f| - 1].code) == 0x06;
  }

  /** What the validator lets through although the interpreter has no defined behaviour for it. */
  predicate Traps(i: Insn) {
    match Decode(i.code)
    case None => true
    case Some(Alu(o, K)) => (o == Lsh || o == Rsh) && i.k >= 32
    case Some(_) => false
  }

  /** No unconditional jump has a negative offset. */
  predicate Forward(f: seq<Insn>) {
    forall i :: 0 <= i < |f| && f[i].code == 0x05 ==> Signed(f[i].k) >= 0
  }

  /**
   * One step of an accepted program: it is stuck exactly on a trapping instruction,
   * and a step that goes on stays inside the program. For `ja` this says that the
   * unsigned wrap-around test agrees with the signed jump.
   */
  lemma StepSafe(prog: seq<Insn>, env: Env, pc: nat, st: State)
    requires Valid(prog) && pc < |prog|
    ensures Step(prog, env, pc, st) == Halt(Stuck) <==> Traps(prog[pc])
    ensures Step(prog, env, pc, st).At? ==> 0 <= Step(prog, env, pc, st).pc < |prog|
    ensures Step(prog, env, pc, st).At? && Forward(prog) ==> pc < Step(prog, env, pc, st).pc
  {
    hide AluX, Load, Compare;
    var i := prog[pc];
    assert InsnAccepted(prog, pc);
    match Decode(i.code)
    case None =>
    case Some(Alu(o, s)) => AluAccepted(prog, pc, o, s);
    case Some(Jcc(c, s)) => JccAccepted(prog, pc, c, s);
    case Some(_) =>
  }

  lemma AluAccepted(prog: seq<Insn>, pc: nat, o: AluOp, s: Src)
    requires pc < |prog| && InsnAccepted(prog, pc) && Decode(prog[pc].code) == Some(Alu(o, s))
    ensures s == K && (o == Div || o == Mod) ==> prog[pc].k != 0
  {
  }

  lemma JccAccepted(prog: seq<Insn>, pc: nat, c: Cmp, s: Src)
    requires pc < |prog| && InsnAccepted(prog, pc) && Decode(prog[pc].code) == Some(Jcc(c, s))
    ensures pc + 1 + prog[pc].jt < |prog| && pc + 1 + prog[pc].jf < |prog|
  {
  }

  /** Safety of whole runs: the program counter never leaves an accepted program. */
  lemma {:induction false} RunsStayInside(prog: seq<Insn>, env: Env, pc: nat, st: State, n: nat)
    requires Valid(prog) && pc < |prog|
    ensures var c := Steps(prog, env, At(pc, st), n);
            && (c.At? ==> 0 <= c.pc < |prog|)
            && (c == Halt(Stuck) ==> exists i :: 0 <= i < |prog| && Traps(prog[i]))
    decreases n
  {
    hide Step;
    if n > 0 {
      StepSafe(prog, env, pc, st);
      var c := Step(prog, env, pc, st);
      if c.At? {
        RunsStayInside(prog, env, c.pc, c.st, n - 1);
      }
    }
  }

  /** With no negative `ja` every run of an accepted program is over after |prog| steps. */
  lemma {:induction false} ForwardRunsEnd(prog: seq<Insn>, env: Env, pc: nat, st: State, n: nat)
    requires Valid(prog) && Forward(prog) && pc < |prog| <= pc + n
    ensures Steps(prog, env, At(pc, st), n).Halt?
    decreases n
  {
    hide Step;
    StepSafe(prog, env, pc, st);
    var c := Step(prog, env, pc, st);
    if c.At? {
      ForwardRunsEnd(prog, env, c.pc, c.st, n - 1);
    }
  }

  /** The validator admits a jump to itself, so acceptance alone does not give termination. */
  lemma {:induction false} AcceptedLoop(env: Env, st: State, n: nat)
    ensures var prog := [Insn(0x05, 0, 0, 0xffff_ffff), Insn(0x06, 0, 0, 0)];
            Valid(prog) && Steps(prog, env, At(0, st), n) == At(0, st)
  {
    var prog := [Insn(0x05, 0, 0, 0xffff_ffff), Insn(0x06, 0, 0, 0)];
    if n > 0 {
      assert Step(prog, env, 0, st) == At(0, st);
      AcceptedLoop(env, st, n - 1);
    }
  }

  /** It also admits `ret x`, on which the interpreter aborts, and an oversized constant shift. */
  lemma AcceptedTraps(env: Env, st: State)
    ensures Valid([Insn(0x0e, 0, 0, 0)]) && Step([Insn(0x0e, 0, 0, 0)], env, 0, st) == Halt(Stuck)
    ensures var shift := [Insn(0x64, 0, 0, 32), Insn(0x06, 0, 0, 0)];
            Valid(shift) && Step(shift, env, 0, st) == Halt(Stuck)
  {
    var shift := [Insn(0x64, 0, 0, 32), Insn(0x06, 0, 0, 0)];
    assert Decode(0x64) == Some(Alu(Lsh, K));
  }
}
