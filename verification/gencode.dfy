/**
 * The code generator's state and operations: register allocation, arithmetic,
 * comparisons and boolean connectives (gencode.c).
 */
module Gencode {
  import opened Words
  import opened Bpf
  import opened Cfg
  import opened Backpatch
  import opened Arithmetic
  import opened Liveness

  /** A filter expression over an Ethernet packet. */
  datatype Expr =
    | FieldTest(off: u32, size: Size, mask: u32, cmp: Cmp, reverse: bool, v: u32)
    | BytesTest(off: u32, bytes: seq<u8>)
    | Relation(cmp: Cmp, left: Arith, right: Arith, reversed: bool)
    | Conj(first: Expr, second: Expr)
    | Disj(first: Expr, second: Expr)
    | Inverted(arg: Expr)

  const ALL_ONES: u32 := 0xffff_ffff

  /** Left-to-right short-circuit truth; `None` when evaluation hits a rejecting operation. */
  function Truth(e: Expr, env: Env): Option<bool> {
    match e
    case FieldTest(off, size, mask, cmp, reverse, v) =>
      (match Load(env.pkt, off, size)
       case None => None
       case Some(x) =>
         var y := if mask == ALL_ONES then x else BitAnd(x, mask);
         Some(Compare(cmp, y, v) != (reverse && (cmp == Jgt || cmp == Jge))))
    case BytesTest(off, bytes) =>
      if off + |bytes| > |env.pkt| then None else Some(env.pkt[off..off + |bytes|] == bytes)
    case Relation(cmp, l, r, reversed) =>
      (match (Eval(l, env), Eval(r, env))
       case (Some(x), Some(y)) => Some(Compare(cmp, x, y) != reversed)
       case _ => None)
    case Conj(l, r) => if Truth(l, env) == Some(true) then Truth(r, env) else Truth(l, env)
    case Disj(l, r) => if Truth(l, env) == Some(false) then Truth(r, env) else Truth(l, env)
    case Inverted(a) => (match Truth(a, env) case None => None case Some(b) => Some(!b))
  }

  /** Expressions the generator accepts with `free` scratch registers. */
  predicate Accepted(e: Expr, free: nat) {
    match e
    case FieldTest(_, _, _, _, _, _) => true
    case BytesTest(_, _) => true
    case Relation(_, l, r, _) => Compilable(l) && Compilable(r) && Max(Need(l), Need(r) + 1) <= free
    case Conj(l, r) => Accepted(l, free) && Accepted(r, free)
    case Disj(l, r) => Accepted(l, free) && Accepted(r, free)
    case Inverted(a) => Accepted(a, free)
  }

  /** Byte comparisons have something to compare, inside the 32-bit offset range. */
  predicate Sized(e: Expr) {
    match e
    case FieldTest(_, _, _, _, _, _) => true
    case BytesTest(off, bytes) => 0 < |bytes| && off + |bytes| < TWO32
    case Relation(_, _, _, _) => true
    case Conj(l, r) => Sized(l) && Sized(r)
    case Disj(l, r) => Sized(l) && Sized(r)
    case Inverted(a) => Sized(a)
  }

  /** Room the expression's blocks may take in the array, each with two long jumps. */
  function Bulk(e: Expr): nat {
    match e
    case FieldTest(_, _, _, _, _, _) => 5
    case BytesTest(_, bytes) => 5 * |bytes|
    case Relation(_, l, r, _) => CodeLength(l) + CodeLength(r) + 6
    case Conj(l, r) => Bulk(l) + Bulk(r)
    case Disj(l, r) => Bulk(l) + Bulk(r)
    case Inverted(a) => Bulk(a)
  }

  function Weight(bs: Arena): nat {
    if bs == [] then 0
    else Weight(bs[..|bs| - 1]) + (if bs[|bs| - 1].Test? then |bs[|bs| - 1].stmts| else 0) + 3
  }

  ghost predicate SameStmts(bs: Arena, bs': Arena) {
    |bs| == |bs'| && forall p :: 0 <= p < |bs| ==> bs[p].Test? && bs'[p].Test? && bs[p].stmts == bs'[p].stmts
  }

  lemma {:induction false} SameWeight(bs: Arena, bs': Arena)
    requires SameStmts(bs, bs')
    ensures Weight(bs) == Weight(bs')
    decreases |bs|
  {
    if bs != [] {
      SameWeight(bs[..|bs| - 1], bs'[..|bs| - 1]);
    }
  }

  // ---------------------------------------------------------------------
  // Meaning of a fragment
  // ---------------------------------------------------------------------

  ghost predicate Reports(o: FragmentOutcome, v: Option<bool>) {
    match o
    case Exit(b, _) => v == Some(b)
    case Refused => v == None
    case Broken => false
  }

  /** From any state, the fragment leaves through the exit that tells the expression's truth. */
  ghost predicate Means(bs: Arena, f: Fragment, e: Expr)
    requires Wellformed(bs, f)
  {
    forall env, st :: Reports(RunFrag(bs, f, bs[f.rep].head, env, st), Truth(e, env))
  }

  lemma AndMeans(bs: Arena, f: Fragment, g: Fragment, d: Expr, e: Expr)
    requires Wellformed(bs, f) && Wellformed(bs, g) && f.rank.Keys !! g.rank.Keys
    requires Means(bs, f, d) && Means(bs, g, e)
    ensures Wellformed(AndArena(bs, f, g), AndFragment(f, g))
    ensures Means(AndArena(bs, f, g), AndFragment(f, g), Conj(d, e))
  {
    hide Wellformed, AndArena, RunFrag, JoinRanks, Load, Compare, Eval, BitAnd;
    AndJoins(bs, f, g);
    AndHead(bs, f, g);
    WellformedRep(bs, f);
    WellformedRep(bs, g);
    var bs', r := AndArena(bs, f, g), AndFragment(f, g);
    forall env, st
      ensures Reports(RunFrag(bs', r, bs'[r.rep].head, env, st), Truth(Conj(d, e), env))
    {
      RunFirst(bs, f, g, bs', r, bs[f.rep].head, env, st);
      var o := RunFrag(bs, f, bs[f.rep].head, env, st);
      assert Reports(o, Truth(d, env));
      if o.Exit? {
        assert Reports(RunFrag(bs, g, bs[g.rep].head, env, o.st), Truth(e, env));
      }
    }
  }

  lemma OrMeans(bs: Arena, f: Fragment, g: Fragment, d: Expr, e: Expr)
    requires Wellformed(bs, f) && Wellformed(bs, g) && f.rank.Keys !! g.rank.Keys
    requires Means(bs, f, d) && Means(bs, g, e)
    ensures Wellformed(OrArena(bs, f, g), OrFragment(f, g))
    ensures Means(OrArena(bs, f, g), OrFragment(f, g), Disj(d, e))
  {
    hide Wellformed, OrArena, RunFrag, OrFragment, Load, Compare, Eval, BitAnd;
    WellformedRep(bs, f);
    WellformedRep(bs, g);
    var bs', r := OrArena(bs, f, g), OrFragment(f, g);
    OrWellformed(bs, f, g);
    WellformedRep(bs', r);
    forall env, st
      ensures Reports(RunFrag(bs', r, bs'[r.rep].head, env, st), Truth(Disj(d, e), env))
    {
      OrRuns(bs, f, g, env, st);
      var o := RunFrag(bs, f, bs[f.rep].head, env, st);
      assert Reports(o, Truth(d, env));
      if o.Exit? {
        assert Reports(RunFrag(bs, g, bs[g.rep].head, env, o.st), Truth(e, env));
      }
    }
  }

  lemma NotMeans(bs: Arena, f: Fragment, e: Expr)
    requires Wellformed(bs, f) && Means(bs, f, e)
    ensures Wellformed(FlipAt(bs, f.rep), NotFragment(f))
    ensures Means(FlipAt(bs, f.rep), NotFragment(f), Inverted(e))
  {
    hide Wellformed, RunFrag, Load, Compare, Eval, BitAnd;
    WellformedRep(bs, f);
    NotWellformed(bs, f);
    var bs', r := FlipAt(bs, f.rep), NotFragment(f);
    forall env, st
      ensures Reports(RunFrag(bs', r, bs'[r.rep].head, env, st), Truth(Inverted(e), env))
    {
      NotRuns(bs, f, bs[f.rep].head, env, st);
      assert Reports(RunFrag(bs, f, bs[f.rep].head, env, st), Truth(e, env));
    }
  }

  lemma FrameMeans(bs: Arena, bs': Arena, f: Fragment, e: Expr)
    requires Wellformed(bs, f) && Means(bs, f, e) && Agree(bs, bs', f.rank.Keys)
    ensures Wellformed(bs', f) && Means(bs', f, e)
  {
    hide Wellformed, RunFrag;
    WellformedRep(bs, f);
    FrameWellformed(bs, bs', f);
    forall env, st
      ensures Reports(RunFrag(bs', f, bs'[f.rep].head, env, st), Truth(e, env))
    {
      FrameRuns(bs, bs', f, bs[f.rep].head, env, st);
      assert Reports(RunFrag(bs, f, bs[f.rep].head, env, st), Truth(e, env));
    }
  }

  /** A fresh block is a fragment with both its exits open. */
  ghost function SingleFragment(p: nat): Fragment { Fragment(p, [p], [p], map[p := 0], 1) }

  function FreshBlock(p: nat, stmts: seq<Stmt>, cmp: Cmp, src: Src, k: u32): GenBlock {
    GenBlock.Test(stmts, cmp, src, k, None, None, false, p)
  }

  lemma SingleWellformed(bs: Arena, p: nat)
    requires p < |bs| && bs[p].Test? && bs[p] == FreshBlock(p, bs[p].stmts, bs[p].cmp, bs[p].src, bs[p].k)
    ensures Wellformed(bs, SingleFragment(p))
  {
    var f := SingleFragment(p);
    assert LinkedAt(bs, f.trues, 0) && LinkedAt(FlipAt(bs, p), f.falses, 0);
  }

  /** What the tested block computes decides the meaning of its fragment. */
  lemma SingleMeans(bs: Arena, p: nat, e: Expr)
    requires p < |bs| && bs[p].Test? && bs[p] == FreshBlock(p, bs[p].stmts, bs[p].cmp, bs[p].src, bs[p].k)
    requires forall env, st ::
               var x := ExecList(bs[p].stmts, env, st);
               && !x.Undefined?
               && (x.Next? ==> Truth(e, env) == Some(Bpf.Test(bs[p].cmp, bs[p].src, bs[p].k, x.st)))
               && (x.Rejected? ==> Truth(e, env) == None)
    ensures Wellformed(bs, SingleFragment(p)) && Means(bs, SingleFragment(p), e)
  {
    hide ExecList, Truth, Bpf.Test, Chain;
    SingleWellformed(bs, p);
    var f := SingleFragment(p);
    forall env, st
      ensures Reports(RunFrag(bs, f, bs[f.rep].head, env, st), Truth(e, env))
    {
      var x := ExecList(bs[p].stmts, env, st);
    }
  }

  lemma EquivalentMeans(bs: Arena, f: Fragment, d: Expr, e: Expr)
    requires Wellformed(bs, f) && Means(bs, f, d) && forall env :: Truth(d, env) == Truth(e, env)
    ensures Means(bs, f, e)
  {
    hide Wellformed, RunFrag, Truth;
    WellformedRep(bs, f);
    forall env, st
      ensures Reports(RunFrag(bs, f, bs[f.rep].head, env, st), Truth(e, env))
    {
      assert Reports(RunFrag(bs, f, bs[f.rep].head, env, st), Truth(d, env));
    }
  }

  /** The statements gen_ncmp puts before the comparison. */
  function FieldCode(off: u32, size: Size, mask: u32): seq<Stmt> {
    if mask == ALL_ONES then [Stmt(LdAbs(size), off)] else [Stmt(LdAbs(size), off), Stmt(Alu(And, K), mask)]
  }

  lemma FieldRuns(off: u32, size: Size, mask: u32, cmp: Cmp, v: u32, env: Env, st: State)
    ensures var x := ExecList(FieldCode(off, size, mask), env, st);
            var t := Truth(FieldTest(off, size, mask, cmp, false, v), env);
            && !x.Undefined?
            && (x.Next? ==> t == Some(Bpf.Test(cmp, K, v, x.st)))
            && (x.Rejected? ==> t == None)
  {
    hide Load, Compare, BitAnd, ExecList;
    if mask == ALL_ONES {
      ExecCons(Stmt(LdAbs(size), off), [], env, st);
      assert [Stmt(LdAbs(size), off)] + [] == FieldCode(off, size, mask);
      ExecNil(env, if Load(env.pkt, off, size).Some? then st.(a := Load(env.pkt, off, size).value) else st);
    } else {
      Exec2(Stmt(LdAbs(size), off), Stmt(Alu(And, K), mask), env, st);
    }
  }

  lemma ExecNil(env: Env, st: State)
    ensures ExecList([], env, st) == Next(st)
  {
  }

  /** Big-endian value of the last `Width(size)` bytes before position `end`. */
  function FieldValue(v: seq<u8>, end: nat, size: Size): u32
    requires Width(size) <= end <= |v|
  {
    match size
    case W => Shift8(Shift8(Shift8(v[end - 4], v[end - 3]), v[end - 2]), v[end - 1])
    case H => Shift8(v[end - 2], v[end - 1])
    case B => v[end - 1]
  }

  ghost function Suffix(off: u32, v: seq<u8>, from: nat): Expr
    requires from <= |v| && off + |v| < TWO32
  {
    BytesTest(off + from, v[from..])
  }

  function FieldEquals(off: u32, v: seq<u8>, end: nat, size: Size): Expr
    requires Width(size) <= end <= |v| && off + |v| < TWO32
  {
    FieldTest(off + end - Width(size), size, ALL_ONES, Jeq, false, FieldValue(v, end, size))
  }

  /** Comparing one more field extends the compared suffix. */
  lemma SuffixStep(off: u32, v: seq<u8>, end: nat, size: Size, env: Env)
    requires Width(size) <= end <= |v| && off + |v| < TWO32
    ensures var longer := Truth(Suffix(off, v, end - Width(size)), env);
            && (end < |v| ==> Truth(Conj(Suffix(off, v, end), FieldEquals(off, v, end, size)), env) == longer)
            && (end == |v| ==> Truth(FieldEquals(off, v, end, size), env) == longer)
  {
    hide FieldEquals, Suffix, Load, Compare, BitAnd, Truth;
    var p, w := env.pkt, end - Width(size);
    ConjTruth(Suffix(off, v, end), FieldEquals(off, v, end, size), env);
    FieldEqualsTruth(off, v, end, size, env);
    SuffixTruth(off, v, end, env);
    SuffixTruth(off, v, w, env);
    if off + |v| <= |p| {
      var a, b := p[off + w..off + end], p[off + end..off + |v|];
      assert p[off + w..off + |v|] == a + b && v[w..] == v[w..end] + v[end..];
      ConcatEqual(a, b, v[w..end], v[end..]);
    }
  }

  lemma ConjTruth(d: Expr, e: Expr, env: Env)
    ensures Truth(Conj(d, e), env) == if Truth(d, env) == Some(true) then Truth(e, env) else Truth(d, env)
  {
  }

  lemma SuffixTruth(off: u32, v: seq<u8>, from: nat, env: Env)
    requires from <= |v| && off + |v| < TWO32
    ensures Truth(Suffix(off, v, from), env) ==
            if off + |v| > |env.pkt| then None else Some(env.pkt[off + from..off + |v|] == v[from..])
  {
  }

  lemma FieldEqualsTruth(off: u32, v: seq<u8>, end: nat, size: Size, env: Env)
    requires Width(size) <= end <= |v| && off + |v| < TWO32
    ensures Truth(FieldEquals(off, v, end, size), env) ==
            if off + end > |env.pkt| then None
            else Some(env.pkt[off + end - Width(size)..off + end] == v[end - Width(size)..end])
  {
    hide FieldValue, Load;
    var p, w := env.pkt, end - Width(size);
    LoadField(p, off + w, size);
    if off + end <= |p| {
      BytesAgree(p[off + w..off + end], v[w..end], size);
      FieldValueSlice(v, end, size);
    }
  }

  lemma ConcatEqual(a: seq<u8>, b: seq<u8>, c: seq<u8>, d: seq<u8>)
    requires |a| == |c|
    ensures a + b == c + d <==> a == c && b == d
  {
    if a + b == c + d {
      assert a == (a + b)[..|a|] && b == (a + b)[|a|..];
      assert c == (c + d)[..|c|] && d == (c + d)[|c|..];
    }
  }

  lemma LoadField(p: Packet, off: nat, size: Size)
    ensures Load(p, off, size) == if off + Width(size) > |p| then None
                                  else Some(FieldValue(p[off..off + Width(size)], Width(size), size))
  {
  }

  lemma FieldValueSlice(v: seq<u8>, end: nat, size: Size)
    requires Width(size) <= end <= |v|
    ensures FieldValue(v[end - Width(size)..end], Width(size), size) == FieldValue(v, end, size)
  {
  }

  lemma BytesAgree(x: seq<u8>, y: seq<u8>, size: Size)
    requires |x| == |y| == Width(size)
    ensures FieldValue(x, Width(size), size) == FieldValue(y, Width(size), size) <==> x == y
  {
    hide Shift8;
    match size
    case W =>
      var a2, b2 := Shift8(x[0], x[1]), Shift8(y[0], y[1]);
      ShiftAgree(x[0], x[1], y[0], y[1]);
      ShiftAgree(a2, x[2], b2, y[2]);
      ShiftAgree(Shift8(a2, x[2]), x[3], Shift8(b2, y[2]), y[3]);
      assert x == [x[0], x[1], x[2], x[3]] && y == [y[0], y[1], y[2], y[3]];
    case H =>
      ShiftAgree(x[0], x[1], y[0], y[1]);
      assert x == [x[0], x[1]] && y == [y[0], y[1]];
    case B =>
      assert x == [x[0]] && y == [y[0]];
  }

  lemma ShiftAgree(a: int, x: u8, b: int, y: u8)
    ensures Shift8(a, x) == Shift8(b, y) <==> a == b && x == y
  {
  }

  lemma RelationRuns(cmp: Cmp, s0: seq<Stmt>, r0: u32, e0: Arith, s1: seq<Stmt>, r1: u32, e1: Arith,
                     keep: set<nat>, env: Env, st: State)
    requires Computes(s0, r0, e0, keep) && Computes(s1, r1, e1, keep + {r0})
    ensures var x := ExecList(s0 + s1 + RelationCode(cmp, r0, r1), env, st);
            var t := Truth(Relation(cmp, e0, e1, false), env);
            && !x.Undefined?
            && (x.Next? ==> t == Some(Bpf.Test(cmp, if cmp == Jeq then K else X, 0, x.st)))
            && (x.Rejected? ==> t == None)
  {
    hide ExecList, Eval, Computes, BitAnd;
    OperandsLoaded(s0, r0, e0, s1, r1, e1, keep, env, st);
    var ops := s0 + s1 + OperandsCode(r0, r1);
    if cmp == Jeq {
      assert s0 + s1 + RelationCode(cmp, r0, r1) == ops + [Stmt(Alu(Sub, X), 0)];
      ExecConcat(ops, [Stmt(Alu(Sub, X), 0)], env, st);
      var x := ExecList(ops, env, st);
      if x.Next? {
        ExecCons(Stmt(Alu(Sub, X), 0), [], env, x.st);
        assert [Stmt(Alu(Sub, X), 0)] + [] == [Stmt(Alu(Sub, X), 0)];
        ExecNil(env, x.st.(a := Minus(x.st.a, x.st.x)));
        MinusZero(x.st.a, x.st.x);
      }
    } else {
      assert s0 + s1 + RelationCode(cmp, r0, r1) == ops;
    }
  }

  lemma MinusZero(a: u32, b: u32)
    ensures Minus(a, b) == 0 <==> a == b
  {
  }

  /** The list for a relation is all that new_block needs for its test. */
  lemma RelationReady(cmp: Cmp, s0: seq<Stmt>, r0: u32, e0: Arith, s1: seq<Stmt>, r1: u32, e1: Arith, keep: set<nat>)
    requires Computes(s0, r0, e0, keep) && Computes(s1, r1, e1, keep + {r0})
    ensures var stmts, src, e := s0 + s1 + RelationCode(cmp, r0, r1), if cmp == Jeq then K else X, Relation(cmp, e0, e1, false);
            && Contained(stmts, src) && |stmts| + 3 <= Bulk(e) && Originates([FreshBlock(0, stmts, cmp, src, 0)], 0, e)
            && forall env, st ::
                 var x := ExecList(stmts, env, st);
                 && !x.Undefined?
                 && (x.Next? ==> Truth(e, env) == Some(Bpf.Test(cmp, src, 0, x.st)))
                 && (x.Rejected? ==> Truth(e, env) == None)
  {
    hide ExecList, Truth, Bpf.Test, Contained, Originates, Supplies, ComputesOn;
    RelationContained(cmp, s0, r0, e0, s1, r1, e1, keep);
    RelationOriginates(cmp, s0, r0, e0, s1, r1, e1);
    forall env, st {
      RelationRuns(cmp, s0, r0, e0, s1, r1, e1, keep, env, st);
    }
  }

  /** What gen_relation appends: the operands, and for equality their difference. */
  function RelationCode(cmp: Cmp, r0: u32, r1: u32): seq<Stmt> {
    OperandsCode(r0, r1) + if cmp == Jeq then [Stmt(Alu(Sub, X), 0)] else []
  }

  /** Fragment `f` occupies exactly the blocks from `lo` on, and means `e`. */
  ghost predicate Fragmented(bs: Arena, f: Fragment, e: Expr, lo: nat) {
    && Wellformed(bs, f) && Means(bs, f, e)
    && forall p :: p in f.rank <==> lo <= p < |bs|
  }

  /** The statements define all that they, and a test with operand `src` after them, read. */
  ghost predicate Contained(stmts: seq<Stmt>, src: Src) {
    && GoodList(stmts) && (forall i :: 0 <= i < |stmts| ==> stmts[i].op != LdxLen)
    && LiveIn(stmts, TestUses(src)) == {}
  }

  function TestUses(src: Src): set<nat> { if src == X then {A_ATOM, X_ATOM} else {A_ATOM} }

  ghost predicate GoodArena(bs: Arena) {
    forall p :: 0 <= p < |bs| ==> bs[p].Test? && Contained(bs[p].stmts, bs[p].src)
  }

  // ---------------------------------------------------------------------
  // Which tests the blocks make
  // ---------------------------------------------------------------------

  /** A test of a packet field. */
  predicate FieldLike(b: GenBlock) {
    && b.Test? && b.src == K && 1 <= |b.stmts| <= 2 && b.stmts[0].op.LdAbs?
    && (|b.stmts| == 2 ==> b.stmts[1].op == Alu(And, K))
  }

  /** gen_relation's block for a comparison of `l` and `r`. */
  ghost predicate Relates(b: GenBlock, cmp: Cmp, l: Arith, r: Arith) {
    && b.Test? && b.cmp == cmp && b.k == 0 && b.src == (if cmp == Jeq then K else X)
    && exists s0, s1, r0, r1 ::
         b.stmts == s0 + s1 + RelationCode(cmp, r0, r1) && Operates(s0, l) && Operates(s1, r)
  }

  /** The block makes one of the tests of the expression. */
  ghost predicate Stems(b: GenBlock, e: Expr) {
    match e
    case FieldTest(off, size, mask, cmp, _, v) =>
      b.Test? && b.stmts == FieldCode(off, size, mask) && b.cmp == cmp && b.src == K && b.k == v
    case BytesTest(_, _) => FieldLike(b) && |b.stmts| == 1
    case Relation(cmp, l, r, _) => Relates(b, cmp, l, r)
    case Conj(d, f) => Stems(b, d) || Stems(b, f)
    case Disj(d, f) => Stems(b, d) || Stems(b, f)
    case Inverted(a) => Stems(b, a)
  }

  /** Number of comparisons of arithmetic expressions. */
  function Relations(e: Expr): nat {
    match e
    case FieldTest(_, _, _, _, _, _) => 0
    case BytesTest(_, _) => 0
    case Relation(_, _, _, _) => 1
    case Conj(d, f) => Relations(d) + Relations(f)
    case Disj(d, f) => Relations(d) + Relations(f)
    case Inverted(a) => Relations(a)
  }

  /** Number of comparisons gen_bcmp makes for `n` bytes: words, then at most one half-word and one byte. */
  function Pieces(n: nat): nat { if n >= 4 then 1 + Pieces(n - 4) else if n >= 2 then 1 + Pieces(n - 2) else n }

  /** Number of blocks of an expression. */
  function Tests(e: Expr): nat {
    match e
    case FieldTest(_, _, _, _, _, _) => 1
    case BytesTest(_, bytes) => Pieces(|bytes|)
    case Relation(_, _, _, _) => 1
    case Conj(d, f) => Tests(d) + Tests(f)
    case Disj(d, f) => Tests(d) + Tests(f)
    case Inverted(a) => Tests(a)
  }

  /** The blocks from `lo` on make the tests of the expression, as many relations as it has if that is one or none. */
  ghost predicate Originates(bs: Arena, lo: nat, e: Expr) {
    && |bs| == lo + Tests(e)
    && (forall p :: lo <= p < |bs| ==> Stems(bs[p], e))
    && (Relations(e) == 0 ==> forall p :: lo <= p < |bs| ==> FieldLike(bs[p]))
    && (Relations(e) <= 1 ==> forall p, q :: lo <= p < q < |bs| ==> FieldLike(bs[p]) || FieldLike(bs[q]))
  }

  lemma {:induction e} SameStems(b: GenBlock, b': GenBlock, e: Expr)
    requires SameTest(b, b')
    ensures Stems(b, e) == Stems(b', e) && FieldLike(b) == FieldLike(b')
  {
    hide Relates, FieldCode;
    assert forall cmp, l, r :: Relates(b, cmp, l, r) == Relates(b', cmp, l, r) by {
      forall cmp, l, r
        ensures Relates(b, cmp, l, r) == Relates(b', cmp, l, r)
      {
        SameRelates(b, b', cmp, l, r);
      }
    }
  }

  lemma SameRelates(b: GenBlock, b': GenBlock, cmp: Cmp, l: Arith, r: Arith)
    requires SameTest(b, b')
    ensures Relates(b, cmp, l, r) == Relates(b', cmp, l, r)
  {
  }

  lemma SameOriginates(bs: Arena, bs': Arena, lo: nat, e: Expr)
    requires |bs'| == |bs| && Originates(bs, lo, e) && forall p :: lo <= p < |bs| ==> SameTest(bs[p], bs'[p])
    ensures Originates(bs', lo, e)
  {
    hide Stems, FieldLike;
    forall p | lo <= p < |bs|
      ensures Stems(bs'[p], e) == Stems(bs[p], e) && FieldLike(bs'[p]) == FieldLike(bs[p])
    {
      SameStems(bs[p], bs'[p], e);
    }
  }

  /** Expressions with the same tests. */
  ghost predicate SameTests(d: Expr, e: Expr) {
    Relations(d) == Relations(e) && Tests(d) == Tests(e) && forall b :: Stems(b, d) ==> Stems(b, e)
  }

  lemma StillOriginates(bs: Arena, lo: nat, d: Expr, e: Expr)
    requires Originates(bs, lo, d) && SameTests(d, e)
    ensures Originates(bs, lo, e)
  {
    hide Stems, FieldLike;
  }

  lemma InvertedSame(e: Expr)
    ensures SameTests(e, Inverted(e))
  {
    hide Relates, FieldLike, FieldCode;
  }

  lemma FieldSame(off: u32, size: Size, mask: u32, cmp: Cmp, reverse: bool, v: u32)
    ensures var d, e := FieldTest(off, size, mask, cmp, false, v), FieldTest(off, size, mask, cmp, reverse, v);
            SameTests(d, e) && SameTests(Inverted(d), e)
  {
    hide FieldCode;
    var d, e := FieldTest(off, size, mask, cmp, false, v), FieldTest(off, size, mask, cmp, reverse, v);
    assert forall b :: Stems(b, Inverted(d)) == Stems(b, d);
  }

  lemma SuffixSame(off: u32, v: seq<u8>, end: nat, size: Size)
    requires Width(size) <= end <= |v| && off + |v| < TWO32 && InTurn(size, |v| - end)
    ensures var e, longer := FieldEquals(off, v, end, size), Suffix(off, v, end - Width(size));
            (end == |v| ==> SameTests(e, longer)) && SameTests(Conj(Suffix(off, v, end), e), longer)
  {
    hide FieldValue, Pieces, InTurn;
    OnePiece(size, |v| - end);
    var d, e, longer := Suffix(off, v, end), FieldEquals(off, v, end, size), Suffix(off, v, end - Width(size));
    assert forall b :: Stems(b, e) ==> Stems(b, longer);
    assert forall b :: Stems(b, Conj(d, e)) == (Stems(b, d) || Stems(b, e));
    assert forall b :: Stems(b, d) == Stems(b, longer);
    assert Relations(Conj(d, e)) == Relations(d) + Relations(e) == Relations(longer);
    assert Tests(Conj(d, e)) == Tests(d) + Tests(e) == Pieces(|v| - end) + 1;
    assert Tests(longer) == Pieces(|v| - end + Width(size));
  }

  /** Whole words. */
  predicate Fours(n: nat) { n == 0 || (n >= 4 && Fours(n - 4)) }

  /** Words are compared first, then a half-word, then a byte. */
  predicate InTurn(size: Size, done: nat) {
    match size
    case W => Fours(done)
    case H => Fours(done)
    case B => Fours(done) || (done >= 2 && Fours(done - 2))
  }

  lemma {:induction false} AfterWords(done: nat)
    requires Fours(done)
    ensures Pieces(done + 2) == Pieces(done) + 1 == Pieces(done + 1) && Pieces(done + 3) == Pieces(done) + 2
  {
    if done > 0 {
      AfterWords(done - 4);
    }
  }

  lemma OnePiece(size: Size, done: nat)
    requires InTurn(size, done)
    ensures Pieces(done + Width(size)) == Pieces(done) + 1 && Pieces(0) == 0
  {
    AfterWords(if Fours(done) then done else done - 2);
  }

  lemma RelationSame(cmp: Cmp, l: Arith, r: Arith, reversed: bool)
    ensures var d, e := Relation(cmp, l, r, false), Relation(cmp, l, r, reversed);
            SameTests(d, e) && SameTests(Inverted(d), e)
  {
    hide Relates;
    var d, e := Relation(cmp, l, r, false), Relation(cmp, l, r, reversed);
    assert forall b :: Stems(b, Inverted(d)) == Stems(b, d);
  }

  lemma RelationOriginates(cmp: Cmp, s0: seq<Stmt>, r0: u32, e0: Arith, s1: seq<Stmt>, r1: u32, e1: Arith)
    requires Operates(s0, e0) && Operates(s1, e1)
    ensures Originates([FreshBlock(0, s0 + s1 + RelationCode(cmp, r0, r1), cmp, if cmp == Jeq then K else X, 0)], 0,
                       Relation(cmp, e0, e1, false))
  {
    var b := FreshBlock(0, s0 + s1 + RelationCode(cmp, r0, r1), cmp, if cmp == Jeq then K else X, 0);
    assert Relates(b, cmp, e0, e1);
    assert Stems([b][0], Relation(cmp, e0, e1, false));
  }

  lemma FieldOriginates(off: u32, size: Size, mask: u32, cmp: Cmp, v: u32)
    ensures Originates([FreshBlock(0, FieldCode(off, size, mask), cmp, K, v)], 0, FieldTest(off, size, mask, cmp, false, v))
  {
    var b := FreshBlock(0, FieldCode(off, size, mask), cmp, K, v);
    assert Stems([b][0], FieldTest(off, size, mask, cmp, false, v)) && FieldLike([b][0]);
  }

  lemma SingleOriginates(bs: Arena, b: GenBlock, e: Expr)
    requires |bs| > 0 && SameTest(b, bs[|bs| - 1]) && Originates([b], 0, e)
    ensures Originates(bs, |bs| - 1, e)
  {
    hide Stems, FieldLike;
    assert [b][0] == b;
    SameStems(b, bs[|bs| - 1], e);
  }

  lemma JoinOriginates(before: Arena, bs: Arena, lo: nat, d: Expr, e: Expr)
    requires before <= bs && lo <= |before| && Originates(before, lo, d) && Originates(bs, |before|, e)
    ensures Originates(bs, lo, Conj(d, e)) && Originates(bs, lo, Disj(d, e))
  {
    hide FieldLike;
    forall p | lo <= p < |bs|
      ensures Stems(bs[p], Conj(d, e)) && Stems(bs[p], Disj(d, e))
      ensures Relations(d) + Relations(e) == 0 ==> FieldLike(bs[p])
    {
      assert p < |before| ==> bs[p] == before[p];
    }
    forall p, q | lo <= p < q < |bs| && Relations(d) + Relations(e) <= 1
      ensures FieldLike(bs[p]) || FieldLike(bs[q])
    {
      assert p < |before| ==> bs[p] == before[p];
      assert q < |before| ==> bs[q] == before[q];
    }
  }

  lemma FieldContained(off: u32, size: Size, mask: u32)
    ensures Contained(FieldCode(off, size, mask), K)
  {
    var ss, out := FieldCode(off, size, mask), TestUses(K);
    assert LiveIn([], out) == out;
    if mask == ALL_ONES {
      assert ss[1..] == [];
    } else {
      LiveIn2(ss[0], ss[1], out);
    }
  }

  lemma RelationContained(cmp: Cmp, s0: seq<Stmt>, r0: u32, e0: Arith, s1: seq<Stmt>, r1: u32, e1: Arith, keep: set<nat>)
    requires Computes(s0, r0, e0, keep) && Computes(s1, r1, e1, keep + {r0})
    ensures Contained(s0 + s1 + RelationCode(cmp, r0, r1), if cmp == Jeq then K else X)
  {
    hide LiveIn;
    var a, b, sub := Stmt(LdxMem, r1), Stmt(LdMem, r0), Stmt(Alu(Sub, X), 0);
    var tail, out := RelationCode(cmp, r0, r1), TestUses(if cmp == Jeq then K else X);
    BothSupply(s0, r0, s1, r1, tail, out);
    if cmp == Jeq {
      assert tail == [a, b, sub];
      LiveIn3(a, b, sub, out);
    } else {
      assert tail == [a, b];
      LiveIn2(a, b, out);
    }
  }

  lemma AndFragmented(bs: Arena, f: Fragment, g: Fragment, d: Expr, e: Expr, lo: nat, mid: nat)
    requires Wellformed(bs, f) && Means(bs, f, d) && (forall p :: p in f.rank <==> lo <= p < mid)
    requires Fragmented(bs, g, e, mid) && GoodArena(bs) && lo <= mid <= |bs|
    ensures f.rank.Keys !! g.rank.Keys
    ensures var bs' := AndArena(bs, f, g);
            |bs'| == |bs| && bs[..lo] == bs'[..lo] && GoodArena(bs') && Weight(bs') == Weight(bs)
            && Fragmented(bs', AndFragment(f, g), Conj(d, e), lo)
            && forall p :: 0 <= p < |bs| ==> SameTest(bs[p], bs'[p])
  {
    hide Wellformed, AndArena, Means;
    AndMeans(bs, f, g, d, e);
    AndHead(bs, f, g);
    var bs' := AndArena(bs, f, g);
    forall p | 0 <= p < |bs|
      ensures SameTest(bs[p], bs'[p])
      ensures p < lo ==> bs'[p] == bs[p]
    {
      AndTouches(bs, f, g, p);
    }
    SameWeight(bs, bs');
  }

  lemma AndTouches(bs: Arena, f: Fragment, g: Fragment, p: nat)
    requires Wellformed(bs, f) && Wellformed(bs, g) && f.rank.Keys !! g.rank.Keys && p < |bs| && bs[p].Test?
    ensures var b := AndArena(bs, f, g)[p];
            && SameTest(bs[p], b)
            && (p !in f.rank && p !in g.rank ==> b == bs[p])
  {
    hide AndArena, ExitOf, Chain;
    AndBlocks(bs, f, g, p);
  }

  lemma OrFragmented(bs: Arena, f: Fragment, g: Fragment, d: Expr, e: Expr, lo: nat, mid: nat)
    requires Wellformed(bs, f) && Means(bs, f, d) && (forall p :: p in f.rank <==> lo <= p < mid)
    requires Fragmented(bs, g, e, mid) && GoodArena(bs) && lo <= mid <= |bs|
    ensures f.rank.Keys !! g.rank.Keys
    ensures var bs' := OrArena(bs, f, g);
            |bs'| == |bs| && bs[..lo] == bs'[..lo] && GoodArena(bs') && Weight(bs') == Weight(bs)
            && Fragmented(bs', OrFragment(f, g), Disj(d, e), lo)
            && forall p :: 0 <= p < |bs| ==> SameTest(bs[p], bs'[p])
  {
    hide Wellformed, OrArena, Means;
    OrMeans(bs, f, g, d, e);
    OrWellformed(bs, f, g);
    var bs' := OrArena(bs, f, g);
    forall p | 0 <= p < |bs|
      ensures SameTest(bs[p], bs'[p])
      ensures p < lo ==> bs'[p] == bs[p]
    {
      OrTouches(bs, f, g, p);
    }
    SameWeight(bs, bs');
  }

  lemma OrTouches(bs: Arena, f: Fragment, g: Fragment, p: nat)
    requires Wellformed(bs, f) && Wellformed(bs, g) && f.rank.Keys !! g.rank.Keys && p < |bs| && bs[p].Test?
    ensures |OrArena(bs, f, g)| == |bs|
    ensures var b := OrArena(bs, f, g)[p];
            && SameTest(bs[p], b)
            && (p !in f.rank && p !in g.rank ==> b == bs[p])
  {
    hide OrArena, ExitOf, Chain;
    OrBlocks(bs, f, g, p);
  }

  // ---------------------------------------------------------------------
  // Register allocation
  // ---------------------------------------------------------------------

  /** Number of free entries of the register table. */
  function FreeCount(used: seq<bool>): nat {
    if used == [] then 0 else (if used[0] then 0 else 1) + FreeCount(used[1..])
  }

  lemma {:induction false} FreeCountUpdate(used: seq<bool>, r: nat, v: bool)
    requires r < |used|
    ensures FreeCount(used[r := v]) == FreeCount(used) + (if used[r] then 1 else 0) - (if v then 1 else 0)
  {
    if r > 0 {
      assert used[r := v][1..] == used[1..][r - 1 := v];
      FreeCountUpdate(used[1..], r - 1, v);
    }
  }

  lemma {:induction false} FreeCountAll(n: nat)
    ensures FreeCount(seq(n, _ => false)) == n
  {
    if n > 0 {
      assert seq(n, _ => false)[1..] == seq(n - 1, _ => false);
      FreeCountAll(n - 1);
    }
  }

  lemma {:induction false} FreeCountZero(used: seq<bool>)
    ensures FreeCount(used) == 0 <==> forall i :: 0 <= i < |used| ==> used[i]
  {
    if used != [] {
      FreeCountZero(used[1..]);
      assert forall i :: 0 < i < |used| ==> used[i] == used[1..][i - 1];
    }
  }

  ghost function Used(used: seq<bool>): set<nat> { set r | 0 <= r < |used| && used[r] }

  /** With `n` probes left, a search begun at `start` has seen register `i`. */
  ghost predicate Probed(start: nat, n: nat, i: nat) {
    start <= i < start + MEMWORDS - n || i < start - n
  }

  /** `struct arth`; the protocol-check block is always absent for link-layer loads. */
  datatype Arth = Arth(s: seq<Stmt>, regno: u32)

  /** `compiler_state_t`. */
  class Compiler {
    var blocks: Arena
    var regused: seq<bool>
    var curreg: nat

    constructor ()
      ensures Ready() && blocks == [] && FreeCount(regused) == MEMWORDS
    {
      blocks, regused, curreg := [], seq(MEMWORDS, _ => false), 0;
      FreeCountAll(MEMWORDS);
    }

    ghost predicate Ready()
      reads this
    {
      |regused| == MEMWORDS && curreg < MEMWORDS
    }

    /** alloc_reg: fails exactly when every register is in use. */
    method AllocReg() returns (r: Option<u32>)
      requires Ready()
      modifies this`regused, this`curreg
      ensures Ready()
      ensures r == None <==> FreeCount(old(regused)) == 0
      ensures r == None ==> regused == old(regused)
      ensures r.Some? ==> r.value < MEMWORDS && !old(regused)[r.value]
                          && regused == old(regused)[r.value := true]
                          && FreeCount(regused) == FreeCount(old(regused)) - 1
    {
      FreeCountZero(regused);
      var n := MEMWORDS;
      ghost var start := curreg;
      while n > 0
        invariant 0 <= n <= MEMWORDS && Ready() && regused == old(regused)
        invariant curreg == start + MEMWORDS - n || curreg == start - n
        invariant forall i :: 0 <= i < MEMWORDS && Probed(start, n, i) ==> regused[i]
      {
        n := n - 1;
        if regused[curreg] {
          curreg := (curreg + 1) % MEMWORDS;
        } else {
          FreeCountUpdate(regused, curreg, true);
          regused := regused[curreg := true];
          return Some(curreg);
        }
      }
      return None;
    }

    method FreeReg(n: u32)
      requires Ready() && n < MEMWORDS && regused[n]
      modifies this`regused
      ensures regused == old(regused)[n := false] && Ready()
      ensures FreeCount(regused) == FreeCount(old(regused)) + 1
    {
      FreeCountUpdate(regused, n, false);
      regused := regused[n := false];
    }

    /** An expression's code: what is in use beforehand stays in use and keeps its contents. */
    ghost predicate Built(a: Arth, e: Arith, before: seq<bool>)
      reads this
    {
      && Ready() && |before| == MEMWORDS && a.regno < MEMWORDS && !before[a.regno]
      && regused == before[a.regno := true] && FreeCount(regused) == FreeCount(before) - 1
      && Computes(a.s, a.regno, e, Used(before))
    }

    method GenLoadi(n: u32) returns (a: Option<Arth>)
      requires Ready()
      modifies this`regused, this`curreg
      ensures a.Some? <==> FreeCount(old(regused)) >= 1
      ensures a.Some? ==> Built(a.value, Number(n), old(regused))
    {
      hide Computes;
      var r := AllocReg();
      if r == None { return None; }
      NumberComputes(n, r.value, Used(old(regused)));
      a := Some(Arth(NumberCode(n, r.value), r.value));
    }

    method GenLoadlen() returns (a: Option<Arth>)
      requires Ready()
      modifies this`regused, this`curreg
      ensures a.Some? <==> FreeCount(old(regused)) >= 1
      ensures a.Some? ==> Built(a.value, WireLength, old(regused))
    {
      hide Computes;
      var r := AllocReg();
      if r == None { return None; }
      LengthComputes(r.value, Used(old(regused)));
      a := Some(Arth(LengthCode(r.value), r.value));
    }

    /** gen_load for the link-layer header: the new register is taken before the old one is freed. */
    method GenLoad(inst: Arth, size: Size, ghost e: Arith, ghost before: seq<bool>) returns (a: Option<Arth>)
      requires Built(inst, e, before)
      modifies this`regused, this`curreg
      ensures a.Some? <==> FreeCount(before) >= 2
      ensures a.Some? ==> Built(a.value, Packet(e, size), before)
    {
      hide Computes;
      var r := AllocReg();
      if r == None { return None; }
      FreeReg(inst.regno);
      LoadComputes(inst.s, inst.regno, e, size, r.value, Used(before));
      a := Some(Arth(inst.s + LoadCode(inst.regno, size, r.value), r.value));
      assert regused == before[r.value := true];
    }

    method GenNeg(a0: Arth, ghost e: Arith, ghost before: seq<bool>) returns (a: Arth)
      requires Built(a0, e, before)
      ensures Built(a, Negated(e), before)
    {
      hide Computes;
      NegComputes(a0.s, a0.regno, e, Used(before));
      a := Arth(a0.s + NegCode(a0.regno), a0.regno);
    }

    /** gen_arth, with its refusals judged on the first statement of the right operand. */
    method GenArth(op: AluOp, a0: Arth, a1: Arth, ghost e0: Arith, ghost e1: Arith,
                   ghost before: seq<bool>, ghost between: seq<bool>) returns (a: Option<Arth>)
      requires |before| == MEMWORDS && a0.regno < MEMWORDS && !before[a0.regno]
      requires between == before[a0.regno := true] && FreeCount(between) == FreeCount(before) - 1
      requires Computes(a0.s, a0.regno, e0, Used(before)) && Built(a1, e1, between)
      modifies this`regused, this`curreg
      ensures a.Some? <==> !Arithmetic.Refused(op, e1)
      ensures a.Some? ==> Built(a.value, Binary(op, e0, e1), before)
    {
      hide Computes, FreeCount;
      assert Used(between) == Used(before) + {a0.regno};
      FirstStatement(a1.s, a1.regno, e1, Used(between));
      var first := a1.s[0];
      if first.op == LdImm
         && (((op == Div || op == Mod) && first.k == 0) || ((op == Lsh || op == Rsh) && first.k > 31)) {
        return None;
      }
      FreeReg(a0.regno);
      FreeReg(a1.regno);
      assert regused == before;
      var r := AllocReg();
      BinaryComputes(op, a0.s, a0.regno, e0, a1.s, a1.regno, e1, r.value, Used(before));
      a := Some(Arth(a0.s + a1.s + BinaryCode(op, a0.regno, a1.regno, r.value), r.value));
    }

    /** The parser's actions on an arithmetic expression, left operand first. */
    method CompileArith(e: Arith) returns (a: Option<Arth>)
      requires Ready()
      modifies this`regused, this`curreg
      ensures a.Some? <==> Compilable(e) && Need(e) <= FreeCount(old(regused))
      ensures a.Some? ==> Built(a.value, e, old(regused))
      decreases e
    {
      hide Computes, FreeCount;
      match e {
        case Number(n) => a := GenLoadi(n);
        case WireLength => a := GenLoadlen();
        case Packet(i, size) =>
          a := CompileArith(i);
          if a == None { return; }
          a := GenLoad(a.value, size, i, old(regused));
        case Negated(x) =>
          a := CompileArith(x);
          if a == None { return; }
          var b := GenNeg(a.value, x, old(regused));
          a := Some(b);
        case Binary(op, l, r) =>
          var a0 := CompileArith(l);
          if a0 == None { return None; }
          ghost var between := regused;
          var a1 := CompileArith(r);
          if a1 == None { return None; }
          a := GenArth(op, a0.value, a1.value, l, r, old(regused), between);
      }
    }

    /** backpatch: every block on the list gets `target` in the field that was its link. */
    method Backpatch(first: nat, target: nat, ghost list: seq<nat>)
      requires |list| > 0 && list[0] == first && Chain(blocks, list)
      modifies this`blocks
      ensures blocks == Patched(old(blocks), list, Some(target))
    {
      var p: Option<nat> := Some(first);
      ghost var i := 0;
      while p != None
        invariant 0 <= i <= |list| && |blocks| == |old(blocks)|
        invariant p == if i < |list| then Some(list[i]) else None
        invariant forall q :: 0 <= q < |blocks| ==>
                    blocks[q] == if q in list[..i] && old(blocks)[q].Test?
                                 then SetLink(old(blocks)[q], Some(target)) else old(blocks)[q]
        decreases |list| - i
      {
        assert LinkedAt(old(blocks), list, i);
        assert list[..i + 1] == list[..i] + [list[i]];
        assert list[i] !in list[..i];
        var next := Link(blocks[p.value]);
        blocks := blocks[p.value := SetLink(blocks[p.value], Some(target))];
        p := next;
        i := i + 1;
      }
      assert list[..i] == list;
    }

    /** merge: the list starting at `first` is continued by the list starting at `second`. */
    method Merge(first: nat, second: nat, ghost list: seq<nat>)
      requires |list| > 0 && list[0] == first && Chain(blocks, list)
      modifies this`blocks
      ensures Last(list) < |old(blocks)| && old(blocks)[Last(list)].Test?
      ensures blocks == LinkAt(old(blocks), Last(list), Some(second))
    {
      var p := first;
      ghost var i := 0;
      assert LinkedAt(blocks, list, 0);
      while Link(blocks[p]) != None
        invariant 0 <= i < |list| && p == list[i] && p < |blocks| && blocks[p].Test?
        invariant blocks == old(blocks)
        decreases |list| - i
      {
        assert LinkedAt(blocks, list, i);
        p := Link(blocks[p]).value;
        i := i + 1;
        assert LinkedAt(blocks, list, i);
      }
      assert LinkedAt(blocks, list, i);
      blocks := blocks[p := SetLink(blocks[p], Some(second))];
    }

    /** gen_not. */
    method GenNot(b: nat)
      requires b < |blocks| && blocks[b].Test?
      modifies this`blocks
      ensures blocks == FlipAt(old(blocks), b)
    {
      blocks := blocks[b := Flip(blocks[b])];
    }

    method GenAnd(b0: nat, b1: nat, ghost f: Fragment, ghost g: Fragment)
      requires Wellformed(blocks, f) && Wellformed(blocks, g) && f.rank.Keys !! g.rank.Keys
      requires b0 == f.rep && b1 == g.rep
      modifies this`blocks
      ensures blocks == AndArena(old(blocks), f, g)
    {
      hide ExitOf;
      Backpatch(b0, blocks[b1].head, f.trues);
      assert b0 in f.trues && b1 !in f.trues;
      GenNot(b0);
      GenNot(b1);
      ChainFrame(FlipAt(old(blocks), b1), blocks, g.falses);
      Merge(b1, b0, g.falses);
      GenNot(b1);
      blocks := blocks[b1 := blocks[b1].(head := blocks[b0].head)];
    }

    method GenOr(b0: nat, b1: nat, ghost f: Fragment, ghost g: Fragment)
      requires Wellformed(blocks, f) && Wellformed(blocks, g) && f.rank.Keys !! g.rank.Keys
      requires b0 == f.rep && b1 == g.rep
      modifies this`blocks
      ensures blocks == OrArena(old(blocks), f, g)
    {
      hide ExitOf;
      GenNot(b0);
      Backpatch(b0, blocks[b1].head, f.falses);
      assert b0 in f.falses && b1 !in f.falses;
      GenNot(b0);
      ChainFrame(old(blocks), blocks, g.trues);
      Merge(b1, b0, g.trues);
      blocks := blocks[b1 := blocks[b1].(head := blocks[b0].head)];
    }

    /** The last compiled expression starts at block index |before| and has representative `b`. */
    ghost predicate Compiled(b: nat, f: Fragment, e: Expr, before: Arena)
      reads this
    {
      && Ready() && GoodArena(blocks) && before <= blocks && Weight(blocks) <= Weight(before) + Bulk(e)
      && b == f.rep && Fragmented(blocks, f, e, |before|) && Originates(blocks, |before|, e)
    }

    /** new_block, filled with a test. */
    method NewTest(stmts: seq<Stmt>, cmp: Cmp, src: Src, k: u32, ghost e: Expr) returns (b: nat, ghost f: Fragment)
      requires Ready() && GoodArena(blocks) && Contained(stmts, src) && |stmts| + 3 <= Bulk(e)
      requires Originates([FreshBlock(0, stmts, cmp, src, k)], 0, e)
      requires forall env, st ::
                 var x := ExecList(stmts, env, st);
                 && !x.Undefined?
                 && (x.Next? ==> Truth(e, env) == Some(Bpf.Test(cmp, src, k, x.st)))
                 && (x.Rejected? ==> Truth(e, env) == None)
      modifies this`blocks
      ensures Compiled(b, f, e, old(blocks))
    {
      hide ExecList, Truth, Bpf.Test, Wellformed, Means, Originates;
      b := |blocks|;
      blocks := blocks + [FreshBlock(b, stmts, cmp, src, k)];
      assert blocks[..|blocks| - 1] == old(blocks);
      f := SingleFragment(b);
      SingleMeans(blocks, b, e);
      SingleOriginates(blocks, FreshBlock(0, stmts, cmp, src, k), e);
    }

    method Inverse(b: nat, ghost f: Fragment, ghost e: Expr, ghost before: Arena) returns (ghost r: Fragment)
      requires Compiled(b, f, e, before)
      modifies this`blocks
      ensures Compiled(b, r, Inverted(e), before)
    {
      hide Wellformed, Means, Originates, SameTests;
      NotMeans(blocks, f, e);
      WellformedRep(blocks, f);
      SameWeight(blocks, FlipAt(blocks, b));
      SameOriginates(blocks, FlipAt(blocks, b), |before|, e);
      GenNot(b);
      r := NotFragment(f);
      InvertedSame(e);
      StillOriginates(blocks, |before|, e, Inverted(e));
    }

    /** gen_ncmp on an absolute offset. */
    method GenNcmp(off: u32, size: Size, mask: u32, cmp: Cmp, reverse: bool, v: u32)
      returns (b: nat, ghost f: Fragment)
      requires Ready() && GoodArena(blocks)
      modifies this`blocks
      ensures Compiled(b, f, FieldTest(off, size, mask, cmp, reverse, v), old(blocks))
    {
      hide Wellformed, Means, Load, BitAnd, Compare, Originates, SameTests;
      ghost var e := FieldTest(off, size, mask, cmp, false, v);
      FieldOriginates(off, size, mask, cmp, v);
      FieldSame(off, size, mask, cmp, reverse, v);
      forall env, st { FieldRuns(off, size, mask, cmp, v, env, st); }
      FieldContained(off, size, mask);
      b, f := NewTest(FieldCode(off, size, mask), cmp, K, v, e);
      ghost var d := e;
      if reverse && (cmp == Jgt || cmp == Jge) {
        f := Inverse(b, f, e, old(blocks));
        d := Inverted(e);
      }
      EquivalentMeans(blocks, f, d, FieldTest(off, size, mask, cmp, reverse, v));
      StillOriginates(blocks, |old(blocks)|, d, FieldTest(off, size, mask, cmp, reverse, v));
    }

    /** gen_and on two expressions compiled one after the other. */
    method Conjoin(b0: nat, b1: nat, ghost f: Fragment, ghost d: Expr, ghost g: Fragment, ghost e: Expr,
                   ghost before: Arena, ghost between: Arena) returns (ghost r: Fragment)
      requires b0 == f.rep && Fragmented(between, f, d, |before|) && Originates(between, |before|, d) && before <= between
      requires Weight(between) <= Weight(before) + Bulk(d)
      requires Compiled(b1, g, e, between)
      modifies this`blocks
      ensures Compiled(b1, r, Conj(d, e), before)
    {
      hide Wellformed, Means, AndArena, JoinRanks, Contained, Originates;
      FrameMeans(between, blocks, f, d);
      JoinOriginates(between, blocks, |before|, d, e);
      AndFragmented(blocks, f, g, d, e, |before|, |between|);
      ghost var was := blocks;
      GenAnd(b0, b1, f, g);
      SameOriginates(was, blocks, |before|, Conj(d, e));
      r := AndFragment(f, g);
    }

    method Disjoin(b0: nat, b1: nat, ghost f: Fragment, ghost d: Expr, ghost g: Fragment, ghost e: Expr,
                   ghost before: Arena, ghost between: Arena) returns (ghost r: Fragment)
      requires b0 == f.rep && Fragmented(between, f, d, |before|) && Originates(between, |before|, d) && before <= between
      requires Weight(between) <= Weight(before) + Bulk(d)
      requires Compiled(b1, g, e, between)
      modifies this`blocks
      ensures Compiled(b1, r, Disj(d, e), before)
    {
      hide Wellformed, Means, OrArena, JoinRanks, Contained, Originates;
      FrameMeans(between, blocks, f, d);
      JoinOriginates(between, blocks, |before|, d, e);
      OrFragmented(blocks, f, g, d, e, |before|, |between|);
      ghost var was := blocks;
      GenOr(b0, b1, f, g);
      SameOriginates(was, blocks, |before|, Disj(d, e));
      r := OrFragment(f, g);
    }

    /** One iteration of gen_bcmp: compare the field that ends at `end`, and-ed after what is there. */
    method CompareField(b0: Option<nat>, off: u32, v: seq<u8>, end: nat, size: Size,
                        ghost f: Fragment, ghost before: Arena) returns (b: nat, ghost r: Fragment)
      requires Width(size) <= end <= |v| && off + |v| < TWO32 && InTurn(size, |v| - end)
      requires Ready() && GoodArena(blocks)
      requires b0 == None ==> blocks == before && end == |v|
      requires b0.Some? ==> Compiled(b0.value, f, Suffix(off, v, end), before) && end < |v|
      modifies this`blocks
      ensures Compiled(b, r, Suffix(off, v, end - Width(size)), before)
    {
      hide Wellformed, Means, Truth, FieldValue, Originates, SameTests;
      SuffixSame(off, v, end, size);
      ghost var between := blocks;
      ghost var g;
      b, g := GenNcmp(off + end - Width(size), size, ALL_ONES, Jeq, false, FieldValue(v, end, size));
      ghost var e := FieldEquals(off, v, end, size);
      forall env { SuffixStep(off, v, end, size, env); }
      if b0 != None {
        r := Conjoin(b0.value, b, f, Suffix(off, v, end), g, e, before, between);
        EquivalentMeans(blocks, r, Conj(Suffix(off, v, end), e), Suffix(off, v, end - Width(size)));
        StillOriginates(blocks, |before|, Conj(Suffix(off, v, end), e), Suffix(off, v, end - Width(size)));
      } else {
        r := g;
        EquivalentMeans(blocks, r, e, Suffix(off, v, end - Width(size)));
        StillOriginates(blocks, |before|, e, Suffix(off, v, end - Width(size)));
      }
    }

    /** gen_bcmp: words from the end, then half-words, then a byte. */
    method GenBcmp(off: u32, v: seq<u8>) returns (b: nat, ghost f: Fragment)
      requires 0 < |v| && off + |v| < TWO32 && Ready() && GoodArena(blocks)
      modifies this`blocks
      ensures Compiled(b, f, BytesTest(off, v), old(blocks))
    {
      hide Wellformed, Means, Truth, Originates, Pieces;
      var size := |v|;
      var last: Option<nat> := None;
      f := SingleFragment(0);
      while size >= 4
        invariant 0 <= size <= |v| && InTurn(W, |v| - size) && Ready() && GoodArena(blocks)
        invariant last == None ==> blocks == old(blocks) && size == |v|
        invariant last.Some? ==> Compiled(last.value, f, Suffix(off, v, size), old(blocks)) && size < |v|
      {
        b, f := CompareField(last, off, v, size, W, f, old(blocks));
        last, size := Some(b), size - 4;
      }
      while size >= 2
        invariant 0 <= size <= |v| && size < 4 && Ready() && GoodArena(blocks)
        invariant InTurn(B, |v| - size) && (size >= 2 ==> InTurn(H, |v| - size))
        invariant last == None ==> blocks == old(blocks) && size == |v|
        invariant last.Some? ==> Compiled(last.value, f, Suffix(off, v, size), old(blocks)) && size < |v|
      {
        b, f := CompareField(last, off, v, size, H, f, old(blocks));
        last, size := Some(b), size - 2;
      }
      if size > 0 {
        b, f := CompareField(last, off, v, size, B, f, old(blocks));
        last := Some(b);
      }
      b := last.value;
      assert v[0..] == v;
    }

    /** gen_relation on two operands built one after the other; both registers are given back. */
    method GenRelation(cmp: Cmp, a0: Arth, a1: Arth, reversed: bool, ghost e0: Arith, ghost e1: Arith,
                       ghost before: seq<bool>) returns (b: nat, ghost f: Fragment)
      requires |before| == MEMWORDS && a0.regno < MEMWORDS && !before[a0.regno] && GoodArena(blocks)
      requires Computes(a0.s, a0.regno, e0, Used(before))
      requires Built(a1, e1, before[a0.regno := true])
      modifies this`blocks, this`regused
      ensures Compiled(b, f, Relation(cmp, e0, e1, reversed), old(blocks))
      ensures regused == before
    {
      hide Wellformed, Means, FreeCount;
      assert Used(before[a0.regno := true]) == Used(before) + {a0.regno};
      var stmts := a0.s + a1.s + RelationCode(cmp, a0.regno, a1.regno);
      ghost var e := Relation(cmp, e0, e1, false);
      RelationReady(cmp, a0.s, a0.regno, e0, a1.s, a1.regno, e1, Used(before));
      RelationSame(cmp, e0, e1, reversed);
      hide Computes, Compare, Eval, Originates, SameTests, Contained, Truth, Bpf.Test, ExecList, RelationCode;
      b, f := NewTest(stmts, cmp, if cmp == Jeq then K else X, 0, e);
      ghost var d := e;
      if reversed {
        f := Inverse(b, f, e, old(blocks));
        d := Inverted(e);
      }
      EquivalentMeans(blocks, f, d, Relation(cmp, e0, e1, reversed));
      StillOriginates(blocks, |old(blocks)|, d, Relation(cmp, e0, e1, reversed));
      FreeReg(a0.regno);
      FreeReg(a1.regno);
    }

    /** The parser's actions on an expression; `None` is a compile-time error. */
    method CompileExpr(e: Expr) returns (b: Option<nat>, ghost f: Fragment)
      requires Ready() && GoodArena(blocks) && Sized(e)
      modifies this
      ensures b.Some? <==> Accepted(e, FreeCount(old(regused)))
      ensures b.Some? ==> Compiled(b.value, f, e, old(blocks)) && regused == old(regused)
      decreases e
    {
      hide Wellformed, Means, Truth, Computes, FreeCount, Compilable, Need, Originates;
      f := SingleFragment(0);
      match e {
        case FieldTest(off, size, mask, cmp, reverse, v) =>
          var n;
          n, f := GenNcmp(off, size, mask, cmp, reverse, v);
          b := Some(n);
        case BytesTest(off, bytes) =>
          var n;
          n, f := GenBcmp(off, bytes);
          b := Some(n);
        case Relation(cmp, l, r, reversed) =>
          var a0 := CompileArith(l);
          if a0 == None { return None, f; }
          var a1 := CompileArith(r);
          if a1 == None { return None, f; }
          var n;
          n, f := GenRelation(cmp, a0.value, a1.value, reversed, l, r, old(regused));
          b := Some(n);
        case Conj(l, r) =>
          var b0, f0 := CompileExpr(l);
          if b0 == None { return None, f; }
          ghost var between := blocks;
          b, f := CompileExpr(r);
          if b == None { return None, f; }
          f := Conjoin(b0.value, b.value, f0, l, f, r, old(blocks), between);
        case Disj(l, r) =>
          var b0, f0 := CompileExpr(l);
          if b0 == None { return None, f; }
          ghost var between := blocks;
          b, f := CompileExpr(r);
          if b == None { return None, f; }
          f := Disjoin(b0.value, b.value, f0, l, f, r, old(blocks), between);
        case Inverted(a) =>
          b, f := CompileExpr(a);
          if b == None { return None, f; }
          f := Inverse(b.value, f, a, old(blocks));
      }
    }

    /** finish_parse: true exits return the snapshot length, false exits return 0. */
    method FinishParse(p: nat, snaplen: u32, ghost f: Fragment) returns (root: nat)
      requires p == f.rep && Wellformed(blocks, f)
      modifies this`blocks
      ensures blocks == ClosedArena(old(blocks), f, snaplen) && root == old(blocks)[p].head
    {
      hide Wellformed, Chain, Patched, FlipAt;
      ListFacts(blocks, f);
      WellformedRep(blocks, f);
      WellformedArena(blocks, f);
      ghost var bs := blocks;
      var accept := |blocks|;
      blocks := blocks + [Ret(snaplen)];
      ChainFrame(bs, blocks, f.trues);
      TruesClosed(bs, f, snaplen);
      Backpatch(p, accept, f.trues);
      GenNot(p);
      var reject := |blocks|;
      blocks := blocks + [Ret(0)];
      Backpatch(p, reject, f.falses);
      root := blocks[p].head;
    }
  }

  // ---------------------------------------------------------------------
  // Closing a fragment
  // ---------------------------------------------------------------------

  ghost function ClosedArena(bs: Arena, f: Fragment, snaplen: u32): Arena
    requires Wellformed(bs, f)
  {
    var b1 := Patched(bs + [Ret(snaplen)], f.trues, Some(|bs|));
    var b2 := FlipAt(b1, f.rep) + [Ret(0)];
    Patched(b2, f.falses, Some(|bs| + 1))
  }

  lemma ListFacts(bs: Arena, f: Fragment)
    requires Wellformed(bs, f)
    ensures |f.trues| > 0 && f.trues[0] == f.rep && |f.falses| > 0 && f.falses[0] == f.rep
    ensures Chain(bs, f.trues)
    ensures forall i :: 0 <= i < |f.trues| ==> f.trues[i] in f.rank
  {
  }

  lemma FalsesAfterTrues(bs: Arena, f: Fragment, bs': Arena, accept: nat)
    requires Wellformed(bs, f) && |bs| <= |bs'|
    requires forall p :: p in f.rank ==>
               bs'[p] == if p == f.rep then Flip(SetLink(bs[p], Some(accept)))
                         else if p in f.trues then SetLink(bs[p], Some(accept)) else bs[p]
    ensures Chain(bs', f.falses)
  {
    forall i | 0 <= i < |f.falses|
      ensures LinkedAt(bs', f.falses, i)
    {
      assert LinkedAt(FlipAt(bs, f.rep), f.falses, i);
      assert i > 0 ==> f.falses[i] !in f.trues && f.falses[i] != f.rep;
    }
  }

  /** Once the true exits lead to a return, the list of false exits is still in place. */
  lemma TruesClosed(bs: Arena, f: Fragment, snaplen: u32)
    requires Wellformed(bs, f)
    ensures var b1 := Patched(bs + [Ret(snaplen)], f.trues, Some(|bs|));
            && f.rep < |bs| && |b1| == |bs| + 1 && b1[f.rep].Test?
            && var b2 := FlipAt(b1, f.rep) + [Ret(0)];
               && |b2| == |bs| + 2 && Chain(b2, f.falses)
               && forall v :: Patched(b2, f.falses, v)[f.rep].Test? && Patched(b2, f.falses, v)[f.rep].head == bs[f.rep].head
  {
    hide Chain;
    var b1 := Patched(bs + [Ret(snaplen)], f.trues, Some(|bs|));
    var b2 := FlipAt(b1, f.rep) + [Ret(0)];
    WellformedArena(bs, f);
    FalsesAfterTrues(bs, f, b2, |bs|);
  }

  /** Exits of the fragment lead to the two returns; resolved edges stay. */
  lemma ClosedSide(bs: Arena, f: Fragment, snaplen: u32, p: nat, side: bool)
    requires Wellformed(bs, f) && p in f.rank
    ensures var b := ClosedArena(bs, f, snaplen)[p];
            && SameTest(bs[p], b)
            && Field(b, side) == match ExitOf(bs, f, p, side)
                                 case Some(true) => Some(|bs|)
                                 case Some(false) => Some(|bs| + 1)
                                 case None => Field(bs[p], side)
  {
    hide Chain;
  }


  lemma FirstStatement(ss: seq<Stmt>, reg: nat, e: Arith, keep: set<nat>)
    requires Computes(ss, reg, e, keep)
    ensures |ss| > 0 && (ss[0].op == LdImm <==> Leading(e).Some?)
    ensures ss[0].op == LdImm ==> Leading(e) == Some(ss[0].k)
  {
  }
}
