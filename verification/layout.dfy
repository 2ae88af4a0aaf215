/**
 * Turning the block graph into the instruction array: count_stmts,
 * convert_code_r and icode_to_fcode of optimize.c.
 */
module Layout {
  import opened Words
  import opened Bpf
  import opened Cfg

  const ZERO_INSN := Insn(0, 0, 0, 0)

  // ---------------------------------------------------------------------
  // The code of one block
  // ---------------------------------------------------------------------

  function Length(b: Block): nat { |Live(b.stmts)| }

  /** Instructions a block needs, with its extra long jumps. */
  function SizeOf(b: Block, ljt: nat, ljf: nat): nat { Length(b) + 1 + ljt + ljf }

  function Codes(ss: seq<Stmt>): (r: seq<Insn>)
    requires forall i :: 0 <= i < |ss| ==> ss[i].op != Nop
    ensures |r| == |ss|
  {
    seq(|ss|, i requires 0 <= i < |ss| => Insn(Encode(ss[i].op), 0, 0, ss[i].k))
  }

  /** Distance from the terminator of a block at `start` to a target offset. */
  function Gap(b: Block, start: nat, target: nat): int {
    if b.Leaf? then 0 else target - (start + Length(b)) - 1
  }

  /** The branch instruction; a distance over 255 is routed to an inserted jump. */
  function BranchInsn(b: Block, dt: nat, df: nat): Insn
    requires b.Branch?
  {
    Insn(Encode(Jcc(b.cmp, b.src)),
         if dt >= 256 then 0 else dt,
         if df >= 256 then (if dt >= 256 then 1 else 0) else df,
         b.k)
  }

  function JumpInsn(d: nat): Insn
    requires d < 0x8000_0000
  {
    Insn(Encode(Ja), 0, 0, d)
  }

  /** The inserted long jumps, in the order convert_code_r writes them. */
  function LongJumps(dt: nat, df: nat): (r: seq<Insn>)
    requires dt < 0x8000_0000 && df < 0x8000_0000
    ensures |r| == (if dt >= 256 then 1 else 0) + (if df >= 256 then 1 else 0)
  {
    var first := if dt >= 256 then [JumpInsn(dt - 1)] else [];
    first + if df >= 256 then [JumpInsn(df - |first| - 1)] else []
  }

  /** The distances of a branch block placed at `start` are usable with the long jumps it has. */
  ghost predicate Fits(b: Block, start: nat, t: nat, f: nat, ljt: nat, ljf: nat) {
    if b.Leaf? then ljt == ljf == 0
    else
      var end := start + SizeOf(b, ljt, ljf);
      var dt, df := Gap(b, start, t), Gap(b, start, f);
      && end <= t < 0x8000_0000 && end <= f < 0x8000_0000
      && ljt <= 1 && ljf <= 1 && (dt >= 256 ==> ljt == 1) && (df >= 256 ==> ljf == 1)
  }

  /** What convert_code_r writes for a block, unused long-jump slots staying zero. */
  ghost function BlockCode(b: Block, start: nat, t: nat, f: nat, ljt: nat, ljf: nat): (r: seq<Insn>)
    requires Fits(b, start, t, f, ljt, ljf)
    ensures |r| == SizeOf(b, ljt, ljf)
  {
    var dt, df := Gap(b, start, t), Gap(b, start, f);
    var jumps := LongJumps(dt, df);
    Codes(Live(b.stmts)) + ([Terminator(b, dt, df)] + jumps + seq(ljt + ljf - |jumps|, _ => ZERO_INSN))
  }

  function Terminator(b: Block, dt: nat, df: nat): Insn {
    if b.Leaf? then Insn(Encode(RetK), 0, 0, b.k) else BranchInsn(b, dt, df)
  }

  /** The offset a side of a block must jump to. */
  ghost function Target(b: Block, off: seq<nat>, side: bool): nat
    requires b.Branch? ==> b.jt < |off| && b.jf < |off|
  {
    if b.Leaf? then 0 else off[Successor(b, side)]
  }

  /** Block `b` stands at its offset in `prog`, before its successors, with usable distances. */
  ghost predicate Placed(g: Graph, prog: seq<Insn>, off: seq<nat>, ljt: seq<nat>, ljf: seq<nat>, b: nat)
    requires b < |g| == |off| == |ljt| == |ljf|
  {
    && (g[b].Branch? ==> g[b].jt < |g| && g[b].jf < |g|)
    && var t, f := Target(g[b], off, true), Target(g[b], off, false);
       && t < |prog| && f < |prog|
       && Fits(g[b], off[b], t, f, ljt[b], ljf[b])
       && off[b] + SizeOf(g[b], ljt[b], ljf[b]) <= |prog|
       && prog[off[b]..off[b] + SizeOf(g[b], ljt[b], ljf[b])]
          == BlockCode(g[b], off[b], t, f, ljt[b], ljf[b])
  }

  // ---------------------------------------------------------------------
  // Refinement
  // ---------------------------------------------------------------------

  lemma {:induction false} RunCodes(prog: seq<Insn>, env: Env, pc: nat, ss: seq<Stmt>, st: State)
    requires forall i :: 0 <= i < |ss| ==> ss[i].op != Nop && GoodStmt(ss[i])
    requires pc + |ss| <= |prog| && prog[pc..pc + |ss|] == Codes(ss)
    ensures Run(prog, env, pc, st) == match ExecList(ss, env, st)
                                      case Next(st') => Run(prog, env, pc + |ss|, st')
                                      case Rejected => Reject
                                      case Undefined => Stuck
    decreases |ss|
  {
    hide Decode, Exec, Compare, Encode;
    if ss != [] {
      assert prog[pc] == Codes(ss)[0];
      DecodeEncode(ss[0].op);
      StepStmt(prog, env, pc, st, ss[0]);
      var e := Exec(ss[0].op, ss[0].k, env, st);
      if e.Next? {
        assert prog[pc + 1..pc + 1 + |ss[1..]|] == prog[pc..pc + |ss|][1..] == Codes(ss[1..]);
        RunCodes(prog, env, pc + 1, ss[1..], e.st);
      }
    }
  }

  lemma StepStmt(prog: seq<Insn>, env: Env, pc: nat, st: State, s: Stmt)
    requires pc < |prog| && GoodStmt(s) && Decode(prog[pc].code) == Some(s.op) && prog[pc].k == s.k
    ensures Step(prog, env, pc, st) == match Exec(s.op, s.k, env, st)
                                       case Next(st') => At(pc + 1, st')
                                       case Rejected => Halt(Reject)
                                       case Undefined => Halt(Stuck)
  {
    hide Decode, Exec;
  }

  lemma StepBranch(prog: seq<Insn>, env: Env, pc: nat, st: State, c: Cmp, src: Src)
    requires pc < |prog| && prog[pc].code == Encode(Jcc(c, src))
    ensures Step(prog, env, pc, st)
         == At(pc + 1 + (if Test(c, src, prog[pc].k, st) then prog[pc].jt else prog[pc].jf), st)
  {
    hide Decode, Encode, Exec, Compare;
    DecodeEncode(Jcc(c, src));
  }

  lemma StepJump(prog: seq<Insn>, env: Env, pc: nat, st: State, d: nat)
    requires pc < |prog| && d < 0x8000_0000 && prog[pc] == JumpInsn(d)
    ensures Step(prog, env, pc, st) == At(pc + 1 + d, st)
  {
    hide Decode, Encode, Exec, Compare;
    DecodeEncode(Ja);
  }

  /** A branch reaches its target directly or through one inserted jump. */
  lemma RunBranch(prog: seq<Insn>, b: Block, dt: nat, df: nat, pc: nat, env: Env, st: State)
    requires b.Branch? && dt < 0x8000_0000 && df < 0x8000_0000
    requires pc + 1 + |LongJumps(dt, df)| <= |prog| && prog[pc] == BranchInsn(b, dt, df)
    requires prog[pc + 1..pc + 1 + |LongJumps(dt, df)|] == LongJumps(dt, df)
    requires pc + 1 + dt < |prog| && pc + 1 + df < |prog|
    ensures Run(prog, env, pc, st) == Run(prog, env, pc + 1 + (if Taken(b, st) then dt else df), st)
  {
    hide Step, Encode, Compare;
    StepBranch(prog, env, pc, st, b.cmp, b.src);
    var side := Taken(b, st);
    var d := if side then dt else df;
    if d >= 256 {
      var j := if side || dt < 256 then 0 else 1;
      assert prog[pc + 1 + j] == LongJumps(dt, df)[j];
      StepJump(prog, env, pc + 1 + j, st, d - j - 1);
    }
  }

  lemma SubSlice(prog: seq<Insn>, start: nat, code: seq<Insn>, i: nat, j: nat)
    requires start + |code| <= |prog| && prog[start..start + |code|] == code && i <= j <= |code|
    ensures prog[start + i..start + j] == code[i..j]
    ensures i < j ==> prog[start + i] == code[i]
  {
    assert forall k :: start <= k < start + |code| ==> prog[k] == prog[start..start + |code|][k - start];
  }

  /** From a block's offset the array runs the block and goes on at the successor's offset. */
  lemma RunBlock(g: Graph, prog: seq<Insn>, off: seq<nat>, ljt: seq<nat>, ljf: seq<nat>,
                 b: nat, env: Env, st: State)
    requires b < |g| == |off| == |ljt| == |ljf| && GoodList(g[b].stmts)
    requires g[b].Branch? ==> g[b].jt < |g| && g[b].jf < |g|
    requires Placed(g, prog, off, ljt, ljf, b)
    ensures Run(prog, env, off[b], st) == match ExecList(g[b].stmts, env, st)
                                          case Rejected => Reject
                                          case Undefined => Stuck
                                          case Next(st') =>
                                            if g[b].Leaf? then Return(g[b].k)
                                            else Run(prog, env, off[Successor(g[b], Taken(g[b], st'))], st')
  {
    hide Run, Exec, Compare, BranchInsn, LongJumps, ExecList, Encode, GoodStmt, Codes, Live, BlockCode;
    var ss := Live(g[b].stmts);
    var pc := off[b] + |ss|;
    CodeParts(prog, g[b], off[b], Target(g[b], off, true), Target(g[b], off, false), ljt[b], ljf[b]);
    RunCodes(prog, env, off[b], ss, st);
    LiveExec(g[b].stmts, env, st);
    var e := ExecList(g[b].stmts, env, st);
    if e.Next? {
      if g[b].Leaf? {
        RunReturn(prog, env, pc, e.st, g[b].k);
      } else {
        RunBranch(prog, g[b], Gap(g[b], off[b], off[g[b].jt]), Gap(g[b], off[b], off[g[b].jf]), pc, env, e.st);
      }
    }
  }

  /** Statements, terminator and long jumps inside the code of a block. */
  lemma CodeParts(prog: seq<Insn>, b: Block, start: nat, t: nat, f: nat, ljt: nat, ljf: nat)
    requires Fits(b, start, t, f, ljt, ljf) && start + SizeOf(b, ljt, ljf) <= |prog|
    requires prog[start..start + SizeOf(b, ljt, ljf)] == BlockCode(b, start, t, f, ljt, ljf)
    ensures var pc := start + Length(b);
            var dt, df := Gap(b, start, t), Gap(b, start, f);
            && prog[start..pc] == Codes(Live(b.stmts))
            && prog[pc] == Terminator(b, dt, df)
            && pc + 1 + |LongJumps(dt, df)| <= |prog|
            && prog[pc + 1..pc + 1 + |LongJumps(dt, df)|] == LongJumps(dt, df)
  {
    hide Terminator, LongJumps, Codes, Live, BlockCode;
    var n := Length(b);
    var dt, df := Gap(b, start, t), Gap(b, start, f);
    var code, lj := BlockCode(b, start, t, f, ljt, ljf), LongJumps(dt, df);
    BlockCodeParts(b, start, t, f, ljt, ljf);
    SubSlice(prog, start, code, 0, n);
    SubSlice(prog, start, code, n, n + 1);
    SubSlice(prog, start, code, n + 1, n + 1 + |lj|);
  }

  lemma BlockCodeParts(b: Block, start: nat, t: nat, f: nat, ljt: nat, ljf: nat)
    requires Fits(b, start, t, f, ljt, ljf)
    ensures var code, n := BlockCode(b, start, t, f, ljt, ljf), Length(b);
            var dt, df := Gap(b, start, t), Gap(b, start, f);
            && code[..n] == Codes(Live(b.stmts)) && code[n] == Terminator(b, dt, df)
            && n + 1 + |LongJumps(dt, df)| <= |code| && code[n + 1..n + 1 + |LongJumps(dt, df)|] == LongJumps(dt, df)
  {
    hide Terminator, LongJumps, Codes, Live;
    var dt, df := Gap(b, start, t), Gap(b, start, f);
    var lj := LongJumps(dt, df);
    FourParts(Codes(Live(b.stmts)), Terminator(b, dt, df), lj, seq(ljt + ljf - |lj|, _ => ZERO_INSN));
  }

  lemma FourParts<T>(c: seq<T>, x: T, l: seq<T>, z: seq<T>)
    ensures var s := c + ([x] + l + z);
            s[..|c|] == c && s[|c|] == x && s[|c| + 1..|c| + 1 + |l|] == l
  {
  }

  lemma RunReturn(prog: seq<Insn>, env: Env, pc: nat, st: State, k: u32)
    requires pc < |prog| && prog[pc] == Insn(Encode(RetK), 0, 0, k)
    ensures Run(prog, env, pc, st) == Return(k)
  {
    DecodeEncode(RetK);
  }

  /** The array started at a block's offset does what walking the graph from that block does. */
  lemma {:induction false} LayoutRefines(
      g: Graph, rank: seq<nat>, prog: seq<Insn>, off: seq<nat>, ljt: seq<nat>, ljf: seq<nat>,
      placed: set<nat>, b: nat, env: Env, st: State)
    requires Ranked(g, rank) && GoodGraph(g) && |g| == |off| == |ljt| == |ljf|
    requires Closed(g, placed) && b in placed
    requires forall c :: c in placed ==> Placed(g, prog, off, ljt, ljf, c)
    ensures Run(prog, env, off[b], st) == Walk(g, rank, b, env, st)
    decreases rank[b]
  {
    hide Run, Placed, ExecList, Compare;
    ClosedHas(g, placed, b);
    RunBlock(g, prog, off, ljt, ljf, b, env, st);
    var e := ExecList(g[b].stmts, env, st);
    if e.Next? && g[b].Branch? {
      LayoutRefines(g, rank, prog, off, ljt, ljf, placed, Successor(g[b], Taken(g[b], e.st)), env, e.st);
    }
  }

  // ---------------------------------------------------------------------
  // Bookkeeping of the array under construction
  // ---------------------------------------------------------------------

  /** Instructions needed by the blocks of `s` with index below `m`. */
  ghost function Total(g: Graph, ljt: seq<nat>, ljf: seq<nat>, s: set<nat>, m: nat): nat
    requires m <= |g| == |ljt| == |ljf|
  {
    if m == 0 then 0
    else Total(g, ljt, ljf, s, m - 1) + if m - 1 in s then SizeOf(g[m - 1], ljt[m - 1], ljf[m - 1]) else 0
  }

  lemma {:induction false} TotalAdd(g: Graph, ljt: seq<nat>, ljf: seq<nat>, s: set<nat>, p: nat, m: nat)
    requires m <= |g| == |ljt| == |ljf| && p < |g| && p !in s
    ensures Total(g, ljt, ljf, s + {p}, m)
         == Total(g, ljt, ljf, s, m) + if p < m then SizeOf(g[p], ljt[p], ljf[p]) else 0
  {
    if m > 0 {
      TotalAdd(g, ljt, ljf, s, p, m - 1);
    }
  }

  lemma {:induction false} TotalMono(g: Graph, ljt: seq<nat>, ljf: seq<nat>, s: set<nat>, t: set<nat>, m: nat)
    requires m <= |g| == |ljt| == |ljf| && s <= t
    ensures Total(g, ljt, ljf, s, m) <= Total(g, ljt, ljf, t, m)
  {
    if m > 0 {
      TotalMono(g, ljt, ljf, s, t, m - 1);
    }
  }

  /** An upper bound on the size of any layout: every block with both long jumps. */
  ghost function Capacity(g: Graph, m: nat): nat
    requires m <= |g|
  {
    if m == 0 then 0 else Capacity(g, m - 1) + SizeOf(g[m - 1], 1, 1)
  }

  lemma {:induction false} TotalCapacity(g: Graph, ljt: seq<nat>, ljf: seq<nat>, s: set<nat>, m: nat)
    requires m <= |g| == |ljt| == |ljf|
    requires forall b :: 0 <= b < |g| ==> ljt[b] <= 1 && ljf[b] <= 1
    ensures Total(g, ljt, ljf, s, m) <= Capacity(g, m)
  {
    if m > 0 {
      TotalCapacity(g, ljt, ljf, s, m - 1);
    }
  }

  /** An instruction the validator accepts at position `i` of `n`, that never traps nor jumps back. */
  predicate FineInsn(x: Insn, i: nat, n: nat) {
    match Decode(x.code)
    case None => false
    case Some(RetK) => true
    case Some(Ja) => x.k < 0x8000_0000 && i + 1 + x.k < n
    case Some(Jcc(_, _)) => i + 1 + x.jt < n && i + 1 + x.jf < n
    case Some(op) => GoodStmt(Stmt(op, x.k))
  }

  lemma FineIsAccepted(prog: seq<Insn>, i: nat)
    requires i < |prog| < 0x8000_0000 && FineInsn(prog[i], i, |prog|)
    ensures InsnAccepted(prog, i) && !Traps(prog[i])
    ensures prog[i].code == 0x05 ==> Signed(prog[i].k) >= 0
  {
  }

  /** `placed` is the set of finished blocks; they fill the array from `ftail` up. */
  ghost predicate LaidOut(g: Graph, prog: seq<Insn>, off: seq<nat>, ljt: seq<nat>, ljf: seq<nat>,
                          placed: set<nat>, ftail: nat)
  {
    && |g| == |off| == |ljt| == |ljf|
    && Closed(g, placed)
    && ftail <= |prog| < 0x8000_0000
    && (forall b :: b in placed ==> ftail <= off[b] && Placed(g, prog, off, ljt, ljf, b))
    && (forall b, c :: b in placed && c in placed && b != c ==>
          || off[b] + SizeOf(g[b], ljt[b], ljf[b]) <= off[c]
          || off[c] + SizeOf(g[c], ljt[c], ljf[c]) <= off[b])
    && Total(g, ljt, ljf, placed, |g|) == |prog| - ftail
    && (forall i :: ftail <= i < |prog| ==> FineInsn(prog[i], i, |prog|))
    && (forall i :: 0 <= i < ftail ==> prog[i] == ZERO_INSN)
    && (placed != {} ==> ftail < |prog| && prog[|prog| - 1].code == Encode(RetK))
  }

  /** The finished array is a program the validator accepts and the interpreter runs safely. */
  lemma LaidOutIsValid(g: Graph, prog: seq<Insn>, off: seq<nat>, ljt: seq<nat>, ljf: seq<nat>, placed: set<nat>)
    requires LaidOut(g, prog, off, ljt, ljf, placed, 0) && placed != {}
    ensures Valid(prog) && Forward(prog) && forall i :: 0 <= i < |prog| ==> !Traps(prog[i])
  {
    hide FineInsn, InsnAccepted, Traps, Placed;
    forall i | 0 <= i < |prog|
      ensures InsnAccepted(prog, i) && !Traps(prog[i])
      ensures prog[i].code == 0x05 ==> Signed(prog[i].k) >= 0
    {
      FineIsAccepted(prog, i);
    }
  }

  /** `after` is `before` with `code` written at `start`. */
  ghost predicate Written(before: seq<Insn>, after: seq<Insn>, start: nat, code: seq<Insn>) {
    && |before| == |after| && start + |code| <= |before|
    && forall i {:trigger after[i]} :: 0 <= i < |before| ==>
         after[i] == if start <= i < start + |code| then code[i - start] else before[i]
  }

  lemma PlacedAgain(g: Graph, prog: seq<Insn>, prog': seq<Insn>, off: seq<nat>, off': seq<nat>,
                    ljt: seq<nat>, ljf: seq<nat>, ftail: nat, b: nat)
    requires b < |g| == |off| == |off'| == |ljt| == |ljf|
    requires g[b].Branch? ==> g[b].jt < |g| && g[b].jf < |g|
                              && off'[g[b].jt] == off[g[b].jt] && off'[g[b].jf] == off[g[b].jf]
    requires |prog| == |prog'| && ftail <= |prog| && prog[ftail..] == prog'[ftail..]
    requires ftail <= off[b] == off'[b] && Placed(g, prog, off, ljt, ljf, b)
    ensures Placed(g, prog', off', ljt, ljf, b)
  {
    hide BlockCode, Fits, Live;
    var end := off[b] + SizeOf(g[b], ljt[b], ljf[b]);
    SameSlice(prog, prog', ftail, off[b], end);
  }

  lemma SameSlice(s: seq<Insn>, s': seq<Insn>, from: nat, a: nat, b: nat)
    requires |s| == |s'| && from <= a <= b <= |s| && s[from..] == s'[from..]
    ensures s[a..b] == s'[a..b]
  {
    forall i | 0 <= i < b - a
      ensures s[a..b][i] == s'[a..b][i]
    {
      assert s[from..][a + i - from] == s'[from..][a + i - from];
    }
  }

  lemma PlacedNew(g: Graph, prog: seq<Insn>, off: seq<nat>, off': seq<nat>, ljt: seq<nat>, ljf: seq<nat>,
                  p: nat, start: nat)
    requires p < |g| == |off| == |ljt| == |ljf| && off' == off[p := start]
    requires g[p].Branch? ==> g[p].jt < |g| && g[p].jf < |g| && g[p].jt != p && g[p].jf != p
                              && off[g[p].jt] < |prog| && off[g[p].jf] < |prog|
    requires var t, f := Target(g[p], off, true), Target(g[p], off, false);
             && Fits(g[p], start, t, f, ljt[p], ljf[p])
             && start + SizeOf(g[p], ljt[p], ljf[p]) <= |prog|
             && prog[start..start + SizeOf(g[p], ljt[p], ljf[p])] == BlockCode(g[p], start, t, f, ljt[p], ljf[p])
    ensures Placed(g, prog, off', ljt, ljf, p)
  {
    hide BlockCode, Fits;
    assert Target(g[p], off', true) == Target(g[p], off, true);
    assert Target(g[p], off', false) == Target(g[p], off, false);
  }

  lemma FineStmts(ss: seq<Stmt>, i: nat, at: nat, n: nat)
    requires i < |ss| && forall j :: 0 <= j < |ss| ==> ss[j].op != Nop && GoodStmt(ss[j])
    ensures FineInsn(Codes(ss)[i], at, n)
  {
    hide Encode, Decode;
    DecodeEncode(ss[i].op);
  }

  lemma FineJump(d: nat, at: nat, n: nat)
    requires d < 0x8000_0000 && at + 1 + d < n
    ensures FineInsn(JumpInsn(d), at, n)
  {
    DecodeEncode(Ja);
  }

  lemma FineBranch(b: Block, dt: nat, df: nat, at: nat, n: nat)
    requires b.Branch? && at + 1 + dt < n && at + 1 + df < n
    ensures FineInsn(BranchInsn(b, dt, df), at, n)
  {
    hide Encode, Decode;
    DecodeEncode(Jcc(b.cmp, b.src));
  }

  lemma FineCode(b: Block, start: nat, t: nat, f: nat, ljt: nat, ljf: nat, i: nat, n: nat)
    requires GoodList(b.stmts) && Fits(b, start, t, f, ljt, ljf) && t < n && f < n
    requires i < SizeOf(b, ljt, ljf)
    ensures FineInsn(BlockCode(b, start, t, f, ljt, ljf)[i], start + i, n)
  {
    hide Encode, Codes, FineInsn, BranchInsn, JumpInsn, GoodStmt, Live;
    var m := Length(b);
    var dt, df := Gap(b, start, t), Gap(b, start, f);
    var code, lj := BlockCode(b, start, t, f, ljt, ljf), LongJumps(dt, df);
    if i < m {
      FineStmts(Live(b.stmts), i, start + i, n);
    } else if i == m {
      if b.Leaf? {
        FineReturn(b.k, start + i, n);
      } else {
        FineBranch(b, dt, df, start + i, n);
      }
    } else if i <= m + |lj| {
      assert code[i] == lj[i - m - 1];
      FineJump(if i == m + 1 && dt >= 256 then dt - 1 else df - (i - m - 1) - 1, start + i, n);
    } else {
      assert code[i] == ZERO_INSN;
      FineZero(start + i, n);
    }
  }

  lemma FineReturn(k: u32, at: nat, n: nat)
    ensures FineInsn(Insn(Encode(RetK), 0, 0, k), at, n)
  {
  }

  lemma FineZero(at: nat, n: nat)
    ensures FineInsn(ZERO_INSN, at, n)
  {
  }

  /** Writing block `p` below its finished successors extends the finished part of the array. */
  lemma PlaceBlock(g: Graph, prog: seq<Insn>, off: seq<nat>, ljt: seq<nat>, ljf: seq<nat>,
                   placed: set<nat>, ftail: nat, p: nat, start: nat, prog': seq<Insn>, off': seq<nat>)
    requires LaidOut(g, prog, off, ljt, ljf, placed, ftail) && p < |g| && p !in placed
    requires GoodList(g[p].stmts)
    requires g[p].Branch? ==> g[p].jt in placed && g[p].jf in placed
    requires start + SizeOf(g[p], ljt[p], ljf[p]) == ftail && off' == off[p := start]
    requires Fits(g[p], start, Target(g[p], off, true), Target(g[p], off, false), ljt[p], ljf[p])
    requires Written(prog, prog', start,
               BlockCode(g[p], start, Target(g[p], off, true), Target(g[p], off, false), ljt[p], ljf[p]))
    ensures LaidOut(g, prog', off', ljt, ljf, placed + {p}, start)
  {
    hide Placed, FineInsn, Encode, BlockCode, Fits, Total, Live, ClosedAt;
    var t, f := Target(g[p], off, true), Target(g[p], off, false);
    var code := BlockCode(g[p], start, t, f, ljt[p], ljf[p]);
    assert prog'[start..ftail] == code && prog'[ftail..] == prog[ftail..];
    ClosedAdd(g, placed, p);
    forall b | b in placed
      ensures Placed(g, prog', off', ljt, ljf, b)
    {
      ClosedHas(g, placed, b);
      PlacedAgain(g, prog, prog', off, off', ljt, ljf, ftail, b);
    }
    forall b | b in placed
      ensures off[b] < |prog|
    {
      PlacedInside(g, prog, off, ljt, ljf, b);
    }
    PlacedNew(g, prog', off, off', ljt, ljf, p, start);
    FineExtended(g[p], prog, prog', start, t, f, ljt[p], ljf[p]);
    TotalAdd(g, ljt, ljf, placed, p, |g|);
    if placed == {} {
      LeafIsLast(g[p], start, t, f, ljt[p], ljf[p]);
      TotalEmpty(g, ljt, ljf, |g|);
    }
  }

  lemma FineExtended(b: Block, prog: seq<Insn>, prog': seq<Insn>, start: nat, t: nat, f: nat, ljt: nat, ljf: nat)
    requires GoodList(b.stmts) && Fits(b, start, t, f, ljt, ljf) && t < |prog| && f < |prog|
    requires Written(prog, prog', start, BlockCode(b, start, t, f, ljt, ljf))
    requires forall i :: start + SizeOf(b, ljt, ljf) <= i < |prog| ==> FineInsn(prog[i], i, |prog|)
    ensures forall i :: start <= i < |prog'| ==> FineInsn(prog'[i], i, |prog'|)
  {
    hide FineInsn, Encode, BlockCode, Fits, GoodStmt, Live;
    var code := BlockCode(b, start, t, f, ljt, ljf);
    forall i | start <= i < |prog'|
      ensures FineInsn(prog'[i], i, |prog'|)
    {
      if i < start + |code| {
        assert prog'[i] == code[i - start];
        FineCode(b, start, t, f, ljt, ljf, i - start, |prog|);
      }
    }
  }

  lemma PlacedInside(g: Graph, prog: seq<Insn>, off: seq<nat>, ljt: seq<nat>, ljf: seq<nat>, b: nat)
    requires b < |g| == |off| == |ljt| == |ljf|
    requires Placed(g, prog, off, ljt, ljf, b)
    ensures off[b] < |prog|
  {
  }

  lemma LeafIsLast(b: Block, start: nat, t: nat, f: nat, ljt: nat, ljf: nat)
    requires b.Leaf? && Fits(b, start, t, f, ljt, ljf)
    ensures var code := BlockCode(b, start, t, f, ljt, ljf); code[|code| - 1].code == Encode(RetK)
  {
  }

  lemma {:induction false} TotalEmpty(g: Graph, ljt: seq<nat>, ljf: seq<nat>, m: nat)
    requires m <= |g| == |ljt| == |ljf|
    ensures Total(g, ljt, ljf, {}, m) == 0
  {
    if m > 0 {
      TotalEmpty(g, ljt, ljf, m - 1);
    }
  }

  // ---------------------------------------------------------------------
  // The conversion itself
  // ---------------------------------------------------------------------

  lemma NothingWritten(prog: seq<Insn>, start: nat)
    requires start <= |prog|
    ensures Live([]) == [] && Written(prog, prog, start, Codes([]))
  {
  }

  /** Writing the code of one more statement. */
  lemma WriteNext(before: seq<Insn>, prog: seq<Insn>, start: nat, ss: seq<Stmt>, s: Stmt)
    requires (forall i :: 0 <= i < |ss| ==> ss[i].op != Nop) && s.op != Nop
    requires Written(before, prog, start, Codes(ss)) && start + |ss| < |prog|
    ensures Written(before, prog[start + |ss| := Insn(Encode(s.op), 0, 0, s.k)], start, Codes(ss + [s]))
  {
    hide Encode;
    assert Codes(ss + [s]) == Codes(ss) + [Insn(Encode(s.op), 0, 0, s.k)];
  }

  lemma {:induction false} LiveSnoc(ss: seq<Stmt>, i: nat)
    requires i < |ss|
    ensures Live(ss[..i + 1]) == Live(ss[..i]) + if ss[i].op == Nop then [] else [ss[i]]
    decreases i
  {
    if i > 0 {
      LiveSnoc(ss[1..], i - 1);
      assert ss[..i + 1][1..] == ss[1..][..i] && ss[..i][1..] == ss[1..][..i - 1];
    }
  }

  lemma {:induction false} LivePrefix(ss: seq<Stmt>, i: nat)
    requires i <= |ss|
    ensures |Live(ss[..i])| <= |Live(ss)|
    decreases |ss|
  {
    if i > 0 {
      LivePrefix(ss[1..], i - 1);
      assert ss[..i][1..] == ss[1..][..i - 1];
    }
  }

  /** Sum of the long-jump flags; a failed conversion raises it and nothing lowers it. */
  ghost function Sum(s: seq<nat>): nat { if s == [] then 0 else s[0] + Sum(s[1..]) }

  lemma {:induction false} SumUpdate(s: seq<nat>, i: nat, v: nat)
    requires i < |s|
    ensures Sum(s[i := v]) == Sum(s) - s[i] + v
  {
    if i > 0 {
      assert s[i := v][1..] == s[1..][i - 1 := v];
      SumUpdate(s[1..], i - 1, v);
    }
  }

  lemma {:induction false} SumBound(s: seq<nat>)
    requires forall i :: 0 <= i < |s| ==> s[i] <= 1
    ensures Sum(s) <= |s|
  {
    if s != [] {
      SumBound(s[1..]);
    }
  }

  /** The order in which convert_code_r finishes blocks: the false side, the true side, the block itself. */
  ghost function Visit(g: Graph, rank: seq<nat>, p: nat, done: seq<nat>): seq<nat>
    requires Ranked(g, rank) && p < |g|
    decreases rank[p]
  {
    if p in done then done
    else if g[p].Leaf? then done + [p]
    else Visit(g, rank, g[p].jt, Visit(g, rank, g[p].jf, done)) + [p]
  }

  /** The end of the block `i` places after the first of `order`: the start of the one before it, or `n`. */
  ghost predicate EndsAt(g: Graph, off: seq<nat>, ljt: seq<nat>, ljf: seq<nat>, order: seq<nat>, n: nat, i: nat)
    requires i < |order|
  {
    && order[i] < |g| == |off| == |ljt| == |ljf|
    && var end := off[order[i]] + SizeOf(g[order[i]], ljt[order[i]], ljf[order[i]]);
       if i == 0 then end == n else order[i - 1] < |g| && end == off[order[i - 1]]
  }

  /** Each block of `order` ends where the one before it begins, the first at `n`, and the last begins at `ftail`. */
  ghost predicate Stacked(g: Graph, off: seq<nat>, ljt: seq<nat>, ljf: seq<nat>, order: seq<nat>, n: nat, ftail: nat) {
    && |g| == |off| == |ljt| == |ljf|
    && (forall i :: 0 <= i < |order| ==> EndsAt(g, off, ljt, ljf, order, n, i))
    && ftail == if order == [] then n else if order[|order| - 1] < |g| then off[order[|order| - 1]] else 0
  }

  lemma NothingStacked(g: Graph, off: seq<nat>, ljt: seq<nat>, ljf: seq<nat>, n: nat)
    requires |g| == |off| == |ljt| == |ljf|
    ensures Stacked(g, off, ljt, ljf, [], n, n)
  {
  }

  lemma StackedNext(g: Graph, off: seq<nat>, ljt: seq<nat>, ljf: seq<nat>, order: seq<nat>, n: nat, ftail: nat, p: nat)
    requires Stacked(g, off, ljt, ljf, order, n, ftail) && p < |g| && p !in order
    requires SizeOf(g[p], ljt[p], ljf[p]) <= ftail
    ensures var start := ftail - SizeOf(g[p], ljt[p], ljf[p]);
            Stacked(g, off[p := start], ljt, ljf, order + [p], n, start)
  {
    hide SizeOf;
    var start := ftail - SizeOf(g[p], ljt[p], ljf[p]);
    var next, off' := order + [p], off[p := start];
    forall i | 0 <= i < |next|
      ensures EndsAt(g, off', ljt, ljf, next, n, i)
    {
      if i < |order| {
        assert EndsAt(g, off, ljt, ljf, order, n, i);
      } else if i > 0 {
        assert EndsAt(g, off, ljt, ljf, order, n, i - 1);
      }
    }
  }

  /**
   * The array is the blocks reachable from `root`, placed from its end down in the order of the
   * traversal, each with its code; up to 256 instructions no long jump is ever inserted.
   */
  ghost predicate Arranged(g: Graph, rank: seq<nat>, root: nat, prog: seq<Insn>,
                           off: seq<nat>, ljt: seq<nat>, ljf: seq<nat>)
    requires Ranked(g, rank) && root < |g|
  {
    var order := Visit(g, rank, root, []);
    && Stacked(g, off, ljt, ljf, order, |prog|, 0)
    && (forall b :: b in order ==> b < |g| && Placed(g, prog, off, ljt, ljf, b))
    && (Capacity(g, |g|) <= 256 ==> NoLongJumps(g, ljt, ljf))
  }

  ghost predicate NoLongJumps(g: Graph, ljt: seq<nat>, ljf: seq<nat>) {
    |g| == |ljt| == |ljf| && forall b :: 0 <= b < |g| ==> ljt[b] == 0 && ljf[b] == 0
  }

  ghost predicate Flattened(g: Graph, rank: seq<nat>, root: nat, prog: seq<Insn>)
    requires Ranked(g, rank) && root < |g|
  {
    exists off, ljt, ljf :: Arranged(g, rank, root, prog, off, ljt, ljf)
  }

  /** `conv_state_t` together with the per-block fields the conversion uses. */
  class Converter {
    const g: Graph
    ghost const rank: seq<nat>
    var ljt: seq<nat>
    var ljf: seq<nat>
    var mark: seq<bool>
    var off: seq<nat>
    var fp: seq<Insn>
    var ftail: nat
    /** Blocks whose traversal is complete. */
    ghost var finished: set<nat>
    /** The same blocks in the order in which they were placed. */
    ghost var order: seq<nat>

    constructor (g: Graph, ghost rank: seq<nat>)
      requires Ranked(g, rank) && GoodGraph(g)
      ensures Shape() && this.g == g && this.rank == rank
      ensures NoLongJumps(g, ljt, ljf)
    {
      this.g, this.rank := g, rank;
      ljt, ljf := seq(|g|, _ => 0), seq(|g|, _ => 0);
      mark, off := seq(|g|, _ => false), seq(|g|, _ => 0);
      fp := [];
      ftail, finished, order := 0, {}, [];
    }

    ghost predicate Shape()
      reads this
    {
      && Ranked(g, rank) && GoodGraph(g)
      && |ljt| == |ljf| == |mark| == |off| == |g|
      && forall b :: 0 <= b < |g| ==> ljt[b] <= 1 && ljf[b] <= 1 && (g[b].Leaf? ==> ljt[b] == ljf[b] == 0)
    }

    /** Marked blocks are finished, except those whose visit is still in progress above `p`. */
    ghost predicate MarksAbove(p: nat)
      requires Shape() && p < |g|
      reads this
    {
      && (forall b :: b in finished ==> b < |g| && mark[b])
      && (forall b :: 0 <= b < |g| && mark[b] && b !in finished ==> rank[p] < rank[b])
    }

    ghost predicate MarksAre(old_mark: seq<bool>)
      requires |old_mark| == |mark|
      reads this
    {
      forall b :: 0 <= b < |mark| ==> (mark[b] <==> old_mark[b] || b in finished)
    }

    /** count_stmts: visits exactly the blocks reachable from `p` and not yet finished. */
    method CountStmts(p: nat) returns (n: nat)
      requires Shape() && p < |g| && Closed(g, finished) && MarksAbove(p)
      modifies this`mark, this`finished
      ensures Shape() && Closed(g, finished) && old(finished) + {p} <= finished
      ensures MarksAre(old(mark)) && MarksAbove(p)
      ensures forall b :: b in finished && b !in old(finished) ==> rank[b] <= rank[p]
      ensures n == Total(g, ljt, ljf, finished, |g|) - Total(g, ljt, ljf, old(finished), |g|)
      ensures forall s :: Closed(g, s) && old(finished) + {p} <= s ==> finished <= s
      decreases rank[p]
    {
      hide Total, Closed;
      if mark[p] { return 0; }
      mark := mark[p := true];
      ClosedMembers(g, finished);
      forall s | Closed(g, s) && p in s
        ensures BlockSuccessors(g[p]) <= s
      {
        ClosedHas(g, s, p);
      }
      n := 0;
      if g[p].Branch? {
        var n1 := CountStmts(g[p].jt);
        var n2 := CountStmts(g[p].jf);
        n := n1 + n2;
      }
      TotalAdd(g, ljt, ljf, finished, p, |g|);
      ClosedAdd(g, finished, p);
      finished := finished + {p};
      n := Length(g[p]) + n + 1 + ljt[p] + ljf[p];
    }

    /** Copies the statements that are not deleted. */
    method EmitStmts(ss: seq<Stmt>, start: nat)
      requires start + |Live(ss)| <= |fp|
      modifies this`fp
      ensures Written(old(fp), fp, start, Codes(Live(ss)))
    {
      hide Encode, Codes, Live, Written;
      var dst := start;
      ghost var before := fp;
      var i := 0;
      NothingWritten(fp, start);
      assert ss[..0] == [];
      while i < |ss|
        invariant 0 <= i <= |ss| && |fp| == |before|
        invariant |Live(ss[..i])| <= |Live(ss)|
        invariant dst == start + |Live(ss[..i])|
        invariant Written(before, fp, start, Codes(Live(ss[..i])))
      {
        LiveSnoc(ss, i);
        LivePrefix(ss, i + 1);
        assert Live(ss[..i]) + [] == Live(ss[..i]);
        if ss[i].op != Nop {
          WriteNext(before, fp, start, Live(ss[..i]), ss[i]);
          fp := fp[dst := Insn(Encode(ss[i].op), 0, 0, ss[i].k)];
          dst := dst + 1;
        }
        i := i + 1;
      }
      assert ss[..i] == ss;
    }

    /** Writes the branch of block `p` at `dst` with its long jumps; false asks for a retry. */
    method EmitBranch(p: nat, dst: nat) returns (ok: bool)
      requires Shape() && p < |g| && g[p].Branch?
      requires |fp| < 0x8000_0000 && dst + 1 + ljt[p] + ljf[p] <= |fp|
      requires dst + 1 + ljt[p] + ljf[p] <= off[g[p].jt] < |fp|
      requires dst + 1 + ljt[p] + ljf[p] <= off[g[p].jf] < |fp|
      modifies this`ljt, this`ljf, this`fp
      ensures Shape()
      ensures ok ==>
                var dt, df := off[g[p].jt] - dst - 1, off[g[p].jf] - dst - 1;
                && ljt == old(ljt) && ljf == old(ljf)
                && (dt >= 256 ==> ljt[p] == 1) && (df >= 256 ==> ljf[p] == 1)
                && Written(old(fp), fp, dst, [BranchInsn(g[p], dt, df)] + LongJumps(dt, df))
      ensures !ok ==> Sum(ljt) + Sum(ljf) == Sum(old(ljt)) + Sum(old(ljf)) + 1 && |old(fp)| > 256
    {
      hide Encode;
      var b := g[p];
      var insn := Insn(Encode(Jcc(b.cmp, b.src)), 0, 0, b.k);
      var extra := 0;
      var d := off[b.jt] - dst - 1;
      if d >= 256 {
        if ljt[p] == 0 {
          SumUpdate(ljt, p, 1);
          ljt := ljt[p := 1];
          return false;
        }
        insn := insn.(jt := extra);
        extra := extra + 1;
        fp := fp[dst + extra := JumpInsn(d - extra)];
      } else {
        insn := insn.(jt := d);
      }
      d := off[b.jf] - dst - 1;
      if d >= 256 {
        if ljf[p] == 0 {
          SumUpdate(ljf, p, 1);
          ljf := ljf[p := 1];
          return false;
        }
        insn := insn.(jf := extra);
        extra := extra + 1;
        fp := fp[dst + extra := JumpInsn(d - extra)];
      } else {
        insn := insn.(jf := d);
      }
      fp := fp[dst := insn];
      ok := true;
    }

    /** The part of convert_code_r that writes block `p` at its offset. */
    method EmitBlock(p: nat) returns (ok: bool)
      requires Shape() && p < |g|
      requires var end := off[p] + SizeOf(g[p], ljt[p], ljf[p]);
               && end <= |fp| < 0x8000_0000
               && (forall i :: 0 <= i < end ==> fp[i] == ZERO_INSN)
               && (g[p].Branch? ==> end <= off[g[p].jt] < |fp| && end <= off[g[p].jf] < |fp|)
      modifies this`ljt, this`ljf, this`fp
      ensures Shape()
      ensures ok ==>
                var t, f := Target(g[p], off, true), Target(g[p], off, false);
                && ljt == old(ljt) && ljf == old(ljf)
                && Fits(g[p], off[p], t, f, ljt[p], ljf[p])
                && Written(old(fp), fp, off[p], BlockCode(g[p], off[p], t, f, ljt[p], ljf[p]))
      ensures !ok ==> Sum(ljt) + Sum(ljf) == Sum(old(ljt)) + Sum(old(ljf)) + 1 && |old(fp)| > 256
    {
      hide Encode, Codes, LongJumps, BranchInsn, Live;
      var b, start := g[p], off[p];
      var dst := start + Length(b);
      ghost var before := fp;
      EmitStmts(b.stmts, start);
      if b.Leaf? {
        fp := fp[dst := Insn(Encode(RetK), 0, 0, b.k)];
      } else {
        ok := EmitBranch(p, dst);
        if !ok { return; }
      }
      ok := true;
      ghost var dt, df := Gap(b, start, Target(b, off, true)), Gap(b, start, Target(b, off, false));
    }

    /** The finished blocks fill the array from `ftail` up, and belong to the counted set. */
    ghost predicate Converting(counted: set<nat>)
      reads this
    {
      && Shape() && LaidOut(g, fp, off, ljt, ljf, finished, ftail)
      && Closed(g, counted) && finished <= counted
      && Total(g, ljt, ljf, counted, |g|) == |fp|
      && Stacked(g, off, ljt, ljf, order, |fp|, ftail) && forall b :: b in finished <==> b in order
    }

    /** Room is left for block `p`; write it there. */
    method Place(p: nat, ghost counted: set<nat>) returns (ok: bool)
      requires Converting(counted) && p in counted && p < |g| && p !in finished
      requires g[p].Branch? ==> g[p].jt in finished && g[p].jf in finished
      modifies this`finished, this`order, this`off, this`ftail, this`fp, this`ljt, this`ljf
      ensures Shape()
      ensures ok ==>
                && Converting(counted) && finished == old(finished) + {p} && off[p] == ftail
                && order == old(order) + [p]
                && ljt == old(ljt) && ljf == old(ljf) && |fp| == |old(fp)|
      ensures !ok ==> Sum(ljt) + Sum(ljf) == Sum(old(ljt)) + Sum(old(ljf)) + 1 && |old(fp)| > 256
    {
      hide LaidOut, Total, Sum, Stacked, Closed, Ranked, GoodStmt, BlockCode, Fits, Live;
      LaidOutFacts(g, fp, off, ljt, ljf, finished, ftail);
      TotalAdd(g, ljt, ljf, finished, p, |g|);
      TotalMono(g, ljt, ljf, finished + {p}, counted, |g|);
      ghost var old_tail, old_off, old_fp := ftail, off, fp;
      ftail := ftail - (Length(g[p]) + 1 + ljt[p] + ljf[p]);
      off := off[p := ftail];
      ok := EmitBlock(p);
      if ok {
        PlaceBlock(g, old_fp, old_off, ljt, ljf, finished, old_tail, p, ftail, fp, off);
        StackedNext(g, old_off, ljt, ljf, order, |fp|, old_tail, p);
        finished, order := finished + {p}, order + [p];
      }
    }

    /** convert_code_r: on success block `p` and everything below it is in the array. */
    method ConvertCodeR(p: nat, ghost counted: set<nat>) returns (ok: bool)
      requires Converting(counted) && p in counted && p < |g| && MarksAbove(p)
      modifies this`mark, this`finished, this`order, this`off, this`ftail, this`fp, this`ljt, this`ljf
      ensures Shape()
      ensures ok ==>
                && Converting(counted) && MarksAbove(p) && MarksAre(old(mark))
                && old(finished) + {p} <= finished
                && (forall b :: b in finished && b !in old(finished) ==> rank[b] <= rank[p])
                && (p !in old(finished) ==> off[p] == ftail) && order == Visit(g, rank, p, old(order))
                && ljt == old(ljt) && ljf == old(ljf) && |fp| == |old(fp)|
      ensures !ok ==> Sum(ljt) + Sum(ljf) == Sum(old(ljt)) + Sum(old(ljf)) + 1 && |old(fp)| > 256
      decreases rank[p]
    {
      hide LaidOut, Total, Sum, Stacked;
      ClosedHas(g, counted, p);
      if mark[p] { return true; }
      mark := mark[p := true];
      if g[p].Branch? {
        ok := ConvertCodeR(g[p].jf, counted);
        if !ok { return; }
        ok := ConvertCodeR(g[p].jt, counted);
        if !ok { return; }
      }
      ok := Place(p, counted);
    }

    /** Count the instructions, allocate the array and unmark all blocks. */
    method Allocate(root: nat) returns (ghost counted: set<nat>)
      requires Shape() && root < |g| && Capacity(g, |g|) < 0x8000_0000
      modifies this`mark, this`finished, this`order, this`fp, this`ftail
      ensures Converting(counted) && finished == {} && order == [] && |fp| <= Capacity(g, |g|)
      ensures mark == seq(|g|, _ => false) && root in counted
      ensures forall s :: Closed(g, s) && root in s ==> counted <= s
    {
      hide LaidOut, Total, Sum, Capacity, Closed, Ranked, GoodGraph, Stacked;
      mark, finished := seq(|g|, _ => false), {};
      NothingIsClosed(g);
      var n := CountStmts(root);
      TotalEmpty(g, ljt, ljf, |g|);
      counted := finished;
      TotalCapacity(g, ljt, ljf, counted, |g|);
      fp, ftail := seq(n, _ => ZERO_INSN), n;
      mark, finished, order := seq(|g|, _ => false), {}, [];
      LaidOutEmpty(g, fp, off, ljt, ljf);
      NothingStacked(g, off, ljt, ljf, n);
    }

    /** One round of icode_to_fcode. */
    method Attempt(root: nat) returns (ok: bool)
      requires Shape() && root < |g| && Capacity(g, |g|) < 0x8000_0000
      modifies this
      ensures Shape()
      ensures ok ==>
                && ljt == old(ljt) && ljf == old(ljf) && root in finished && off[root] == ftail == 0
                && Converting(finished) && order == Visit(g, rank, root, [])
                && (forall s :: Closed(g, s) && root in s ==> finished <= s)
      ensures !ok ==> Sum(ljt) + Sum(ljf) == Sum(old(ljt)) + Sum(old(ljf)) + 1 && Capacity(g, |g|) > 256
    {
      hide LaidOut, Total, Sum, Capacity, Closed, Ranked, GoodGraph, Visit, Stacked;
      ghost var counted := Allocate(root);
      ok := ConvertCodeR(root, counted);
      if ok {
        LaidOutFacts(g, fp, off, ljt, ljf, finished, ftail);
        assert finished == counted;
      }
    }

    /** icode_to_fcode: convert, and start over with one more long jump while that fails. */
    method IcodeToFcode(root: nat) returns (prog: seq<Insn>, ghost blocks: set<nat>)
      requires Shape() && root < |g| && Capacity(g, |g|) < 0x8000_0000 && NoLongJumps(g, ljt, ljf)
      modifies this
      ensures prog == fp && Shape() && root in blocks && off[root] == 0
      ensures |prog| == Total(g, ljt, ljf, blocks, |g|)
      ensures LaidOut(g, prog, off, ljt, ljf, blocks, 0) && Arranged(g, rank, root, prog, off, ljt, ljf)
      ensures forall s :: Closed(g, s) && root in s ==> blocks <= s
    {
      hide LaidOut, Total, Sum, Capacity, Closed, Ranked, GoodGraph, Visit, Arranged, Stacked;
      while true
        invariant Shape() && (Capacity(g, |g|) <= 256 ==> NoLongJumps(g, ljt, ljf))
        decreases 2 * |g| - Sum(ljt) - Sum(ljf)
      {
        var ok := Attempt(root);
        SumBound(ljt);
        SumBound(ljf);
        if ok {
          ArrangedAll(g, rank, root, fp, off, ljt, ljf, finished, order);
          return fp, finished;
        }
      }
    }
  }

  lemma NothingIsClosed(g: Graph)
    ensures Closed(g, {})
  {
  }

  lemma LaidOutEmpty(g: Graph, prog: seq<Insn>, off: seq<nat>, ljt: seq<nat>, ljf: seq<nat>)
    requires |g| == |off| == |ljt| == |ljf| && |prog| < 0x8000_0000
    requires forall i :: 0 <= i < |prog| ==> prog[i] == ZERO_INSN
    ensures LaidOut(g, prog, off, ljt, ljf, {}, |prog|)
  {
    TotalEmpty(g, ljt, ljf, |g|);
  }

  lemma ArrangedAll(g: Graph, rank: seq<nat>, root: nat, prog: seq<Insn>, off: seq<nat>, ljt: seq<nat>, ljf: seq<nat>,
                    placed: set<nat>, order: seq<nat>)
    requires Ranked(g, rank) && root < |g| && LaidOut(g, prog, off, ljt, ljf, placed, 0)
    requires order == Visit(g, rank, root, []) && Stacked(g, off, ljt, ljf, order, |prog|, 0)
    requires forall b :: b in placed <==> b in order
    requires Capacity(g, |g|) <= 256 ==> NoLongJumps(g, ljt, ljf)
    ensures Arranged(g, rank, root, prog, off, ljt, ljf)
  {
    hide Placed, ClosedAt, FineInsn, Total, Visit, Stacked, NoLongJumps;
    ClosedMembers(g, placed);
  }

  lemma LaidOutFacts(g: Graph, prog: seq<Insn>, off: seq<nat>, ljt: seq<nat>, ljf: seq<nat>,
                     placed: set<nat>, ftail: nat)
    requires LaidOut(g, prog, off, ljt, ljf, placed, ftail)
    ensures |g| == |off| == |ljt| == |ljf| && Closed(g, placed)
    ensures ftail <= |prog| < 0x8000_0000
    ensures Total(g, ljt, ljf, placed, |g|) == |prog| - ftail
    ensures forall i :: 0 <= i < ftail ==> prog[i] == ZERO_INSN
    ensures forall b :: b in placed ==> b < |g| && ftail <= off[b] < |prog|
  {
    hide Placed, ClosedAt, FineInsn, Total;
    forall b | b in placed
      ensures b < |g| && ftail <= off[b] < |prog|
    {
      PlacedInside(g, prog, off, ljt, ljf, b);
    }
  }

  /**
   * The whole conversion of an acyclic graph: the array is accepted by the validator, cannot
   * trap or loop, and on every packet and initial state does what walking the graph does.
   */
  method FlattenGraph(g: Graph, ghost rank: seq<nat>, root: nat) returns (prog: seq<Insn>)
    requires Ranked(g, rank) && GoodGraph(g) && root < |g| && Capacity(g, |g|) < 0x8000_0000
    ensures Valid(prog) && Forward(prog) && forall i :: 0 <= i < |prog| ==> !Traps(prog[i])
    ensures forall env, st :: Run(prog, env, 0, st) == Walk(g, rank, root, env, st)
    ensures Flattened(g, rank, root, prog)
  {
    hide Run, Walk, Valid, Traps, Placed, Arranged;
    var c := new Converter(g, rank);
    ghost var blocks;
    prog, blocks := c.IcodeToFcode(root);
    LaidOutIsValid(g, prog, c.off, c.ljt, c.ljf, blocks);
    forall env, st
      ensures Run(prog, env, 0, st) == Walk(g, rank, root, env, st)
    {
      LayoutRefines(g, rank, prog, c.off, c.ljt, c.ljf, blocks, root, env, st);
    }
  }
}
