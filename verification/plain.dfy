/**
 * What the optimizer's passes need to know about a graph from the code generator, read off the
 * filter expression (gen_ncmp, gen_bcmp and gen_relation of gencode.c).
 */
module PlainFilters {
  import opened Words
  import opened Bpf
  import opened Cfg
  import opened Liveness
  import opened Backpatch
  import opened Arithmetic
  import opened Gencode
  import opened Settling
  import opened Peephole
  import Analysis
  import Compile
  import Threading

  /** No field is masked and then compared with 0 for equality. */
  predicate NonzeroMasks(e: Expr) {
    match e
    case FieldTest(_, _, mask, cmp, _, v) => mask == ALL_ONES || cmp != Jeq || v != 0
    case BytesTest(_, _) => true
    case Relation(_, _, _, _) => true
    case Conj(d, f) => NonzeroMasks(d) && NonzeroMasks(f)
    case Disj(d, f) => NonzeroMasks(d) && NonzeroMasks(f)
    case Inverted(a) => NonzeroMasks(a)
  }

  /** No equation has a difference or a mask in it. */
  predicate PlainEquations(e: Expr) {
    match e
    case FieldTest(_, _, _, _, _, _) => true
    case BytesTest(_, _) => true
    case Relation(cmp, l, r, _) =>
      cmp == Jeq ==> !Mentions(l, Sub) && !Mentions(l, And) && !Mentions(r, Sub) && !Mentions(r, And)
    case Conj(d, f) => PlainEquations(d) && PlainEquations(f)
    case Disj(d, f) => PlainEquations(d) && PlainEquations(f)
    case Inverted(a) => PlainEquations(a)
  }

  /** At most one comparison of arithmetic expressions, and a plain one, beside any number of field tests. */
  predicate Plain(e: Expr) { NonzeroMasks(e) && PlainEquations(e) && Relations(e) <= 1 }

  /** No relation divides or shifts. */
  predicate Total(e: Expr) {
    match e
    case FieldTest(_, _, _, _, _, _) => true
    case BytesTest(_, _) => true
    case Relation(_, l, r, _) => TotalArith(l) && TotalArith(r)
    case Conj(d, f) => Total(d) && Total(f)
    case Disj(d, f) => Total(d) && Total(f)
    case Inverted(a) => Total(a)
  }

  predicate TotalArith(e: Arith) { !Mentions(e, Div) && !Mentions(e, Mod) && !Mentions(e, Lsh) && !Mentions(e, Rsh) }

  // ---------------------------------------------------------------------
  // One block
  // ---------------------------------------------------------------------

  lemma FieldRaw(off: u32, size: Size, mask: u32, b: Block)
    requires b.Branch? && b.stmts == FieldCode(off, size, mask) && b.src == K && (mask == ALL_ONES || b.cmp != Jeq || b.k != 0)
    ensures Raw(b) && Unmasked(b) && Simple(b)
  {
    var last := |b.stmts| - 1;
    assert EndsAt(b.stmts, last) && Defs(b.stmts[last]) == Some(A_ATOM) && !Subtraction(b.stmts[last].op);
    assert SubFree(b.stmts);
  }

  lemma ByteRaw(b: Block)
    requires b.Branch? && |b.stmts| == 1 && b.stmts[0].op.LdAbs?
    ensures Raw(b) && Unmasked(b) && Simple(b)
  {
    assert EndsAt(b.stmts, 0) && Defs(b.stmts[0]) == Some(A_ATOM) && !Subtraction(b.stmts[0].op);
    assert SubFree(b.stmts);
  }

  lemma RelationRaw(cmp: Cmp, s0: seq<Stmt>, l: Arith, s1: seq<Stmt>, r: Arith, r0: u32, r1: u32, b: Block)
    requires b.Branch? && b.cmp == cmp && b.k == 0 && b.src == (if cmp == Jeq then K else X)
    requires b.stmts == s0 + s1 + RelationCode(cmp, r0, r1) && Operates(s0, l) && Operates(s1, r)
    ensures Raw(b) && Unmasked(b)
    ensures PlainEquations(Relation(cmp, l, r, false)) ==> Simple(b)
  {
    var n := |s0 + s1|;
    assert b.stmts[n + 1].op == LdMem && |b.stmts| == if cmp == Jeq then n + 3 else n + 2;
    assert cmp == Jeq ==> b.stmts[n + 2].op == Alu(Sub, X);
    forall i | 0 <= i < |b.stmts| && b.stmts[i].op.Alu?
      ensures b.stmts[i].op.src == X
      ensures Mentions(l, b.stmts[i].op.alu) || Mentions(r, b.stmts[i].op.alu) || (cmp == Jeq && i == n + 2)
    {
      if i < |s0| {
        assert s0[i] == b.stmts[i];
      } else if i < n {
        assert s1[i - |s0|] == b.stmts[i];
      }
    }
    if cmp == Jeq {
      assert EndsAt(b.stmts, n + 2);
      assert Equation(b);
    } else {
      assert EndsAt(b.stmts, n + 1) && Defs(b.stmts[n + 1]) == Some(A_ATOM) && !Subtraction(b.stmts[n + 1].op);
    }
  }

  /** A block that makes a test of the expression. */
  lemma {:induction false} StemsRaw(t: GenBlock, b: Block, e: Expr)
    requires Stems(t, e) && Compile.MakesTest(b, t) && NonzeroMasks(e)
    ensures Raw(b) && Unmasked(b) && (PlainEquations(e) ==> Simple(b))
    decreases e
  {
    hide Raw, Unmasked, Simple, Mentions, FieldCode;
    match e
    case FieldTest(off, size, mask, _, _, _) => FieldRaw(off, size, mask, b);
    case BytesTest(_, _) => ByteRaw(b);
    case Relation(cmp, l, r, _) =>
      var s0, s1, r0, r1 :| t.stmts == s0 + s1 + RelationCode(cmp, r0, r1) && Operates(s0, l) && Operates(s1, r);
      RelationRaw(cmp, s0, l, s1, r, r0, r1, b);
    case Conj(d, f) => if Stems(t, d) { StemsRaw(t, b, d); } else { StemsRaw(t, b, f); }
    case Disj(d, f) => if Stems(t, d) { StemsRaw(t, b, d); } else { StemsRaw(t, b, f); }
    case Inverted(a) => StemsRaw(t, b, a);
  }

  // ---------------------------------------------------------------------
  // The graph
  // ---------------------------------------------------------------------

  lemma LeafRaw(b: Block)
    requires b.Leaf?
    ensures Raw(b) && Unmasked(b) && Simple(b)
  {
  }

  lemma OnlyAccumulator(t: GenBlock, b: Block, a: nat)
    requires FieldLike(t) && Compile.MakesTest(b, t) && Defines(b.stmts, a)
    ensures a == A_ATOM
  {
  }

  lemma GeneratedReturns(g: Graph, bs: Arena, e: Expr, snaplen: u32)
    requires Compile.FromTests(g, bs, e, snaplen)
    ensures Threading.BareReturns(g, Analysis.UpTo(|g|))
  {
    hide Originates;
  }

  /** Every generated graph is raw, unless a mask is compared with 0. */
  lemma GeneratedRaw(g: Graph, bs: Arena, e: Expr, snaplen: u32)
    requires Compile.FromTests(g, bs, e, snaplen) && NonzeroMasks(e)
    ensures AllRaw(g, Analysis.UpTo(|g|))
  {
    hide Raw, Unmasked, Simple, Stems, FieldLike;
    forall b | 0 <= b < |g|
      ensures Raw(g[b]) && Unmasked(g[b])
    {
      if b < |bs| {
        StemsRaw(bs[b], g[b], e);
      } else {
        LeafRaw(g[b]);
      }
    }
  }

  /** ... and for a plain expression also simple. */
  lemma PlainSimple(g: Graph, bs: Arena, e: Expr, snaplen: u32)
    requires Compile.FromTests(g, bs, e, snaplen) && Plain(e)
    ensures AllSimple(g, Analysis.UpTo(|g|))
  {
    hide Raw, Unmasked, Simple, Stems, FieldLike, Defines, Compile.MakesTest;
    forall b | 0 <= b < |g|
      ensures Simple(g[b])
    {
      if b < |bs| {
        StemsRaw(bs[b], g[b], e);
      } else {
        LeafRaw(g[b]);
      }
    }
    forall b, d, a, i | 0 <= b < |g| && 0 <= d < |g| && a != A_ATOM && i != A_ATOM && Defines(g[b].stmts, a) && Defines(g[d].stmts, i)
      ensures b == d
    {
      NoneDefined(a);
      NoneDefined(i);
      assert b < |bs| && d < |bs|;
      if FieldLike(bs[b]) { OnlyAccumulator(bs[b], g[b], a); }
      if FieldLike(bs[d]) { OnlyAccumulator(bs[d], g[d], i); }
    }
  }

  lemma NoneDefined(a: nat)
    ensures !Defines([], a)
  {
  }

  lemma TotalRelation(cmp: Cmp, s0: seq<Stmt>, l: Arith, s1: seq<Stmt>, r: Arith, r0: u32, r1: u32, i: nat)
    requires Operates(s0, l) && Operates(s1, r) && TotalArith(l) && TotalArith(r) && i < |s0 + s1 + RelationCode(cmp, r0, r1)|
    ensures !Partial((s0 + s1 + RelationCode(cmp, r0, r1))[i].op)
  {
    var ss := s0 + s1 + RelationCode(cmp, r0, r1);
    if i < |s0| {
      assert ss[i] == s0[i];
    } else if i < |s0 + s1| {
      assert ss[i] == s1[i - |s0|];
    }
  }

  lemma {:induction false} StemsTotal(t: GenBlock, b: Block, e: Expr, i: nat)
    requires Stems(t, e) && Compile.MakesTest(b, t) && Total(e) && i < |b.stmts|
    ensures !Partial(b.stmts[i].op)
    decreases e
  {
    hide TotalArith;
    match e
    case FieldTest(_, _, _, _, _, _) =>
    case BytesTest(_, _) =>
    case Relation(cmp, l, r, _) =>
      var s0, s1, r0, r1 :| t.stmts == s0 + s1 + RelationCode(cmp, r0, r1) && Operates(s0, l) && Operates(s1, r);
      TotalRelation(cmp, s0, l, s1, r, r0, r1, i);
    case Conj(d, f) => if Stems(t, d) { StemsTotal(t, b, d, i); } else { StemsTotal(t, b, f, i); }
    case Disj(d, f) => if Stems(t, d) { StemsTotal(t, b, d, i); } else { StemsTotal(t, b, f, i); }
    case Inverted(a) => StemsTotal(t, b, a, i);
  }

  lemma TotalGraph(g: Graph, bs: Arena, e: Expr, snaplen: u32)
    requires Compile.FromTests(g, bs, e, snaplen) && Total(e)
    ensures AllTotal(g, Analysis.UpTo(|g|))
  {
    hide Stems, FieldLike, Total, Partial;
    forall b, i | 0 <= b < |g| && 0 <= i < |g[b].stmts|
      ensures !Partial(g[b].stmts[i].op)
    {
      assert b < |bs|;
      StemsTotal(bs[b], g[b], e, i);
    }
  }
}
