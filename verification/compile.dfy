/**
 * pcap_compile with the optimizer off, as every tool of the repository calls it:
 * code generation, closing, layout, and the interpreter run on the result.
 */
module Compile {
  import opened Words
  import opened Bpf
  import opened Cfg
  import opened Backpatch
  import opened Gencode
  import opened Layout
  import opened Liveness
  import Analysis

  /** The graph of a closed arena. */
  function ToBlock(b: GenBlock): Block
    requires b.Test? ==> b.jt.Some? && b.jf.Some?
  {
    if b.Ret? then Leaf([], b.k) else Branch(b.stmts, b.cmp, b.src, b.k, b.jt.value, b.jf.value)
  }

  predicate Resolved(bs: Arena) {
    forall p :: 0 <= p < |bs| && bs[p].Test? ==> bs[p].jt.Some? && bs[p].jf.Some?
  }

  function ToGraph(bs: Arena): (g: Graph)
    requires Resolved(bs)
    ensures |g| == |bs|
  {
    seq(|bs|, p requires 0 <= p < |bs| => ToBlock(bs[p]))
  }

  ghost function ClosedRank(n: nat, f: Fragment): seq<nat> {
    seq(n, p => if p in f.rank then f.rank[p] + 1 else 0)
  }

  /** The arena holds exactly the fragment's blocks. */
  ghost predicate Fills(bs: Arena, f: Fragment) {
    Wellformed(bs, f) && forall p :: p in f.rank <==> 0 <= p < |bs|
  }

  lemma ClosedLength(bs: Arena, f: Fragment, snaplen: u32)
    requires Wellformed(bs, f)
    ensures var c := ClosedArena(bs, f, snaplen);
            |c| == |bs| + 2 && c[|bs|] == Ret(snaplen) && c[|bs| + 1] == Ret(0)
  {
  }

  lemma ContainedGood(bs: Arena)
    requires GoodArena(bs)
    ensures forall p :: 0 <= p < |bs| ==> GoodList(bs[p].stmts)
  {
  }

  /** Closing yields an acyclic graph whose branches and returns are well formed. */
  lemma ClosedIsGraph(bs: Arena, f: Fragment, snaplen: u32)
    requires Fills(bs, f) && GoodArena(bs)
    ensures var c := ClosedArena(bs, f, snaplen);
            Resolved(c) && GoodGraph(ToGraph(c)) && Ranked(ToGraph(c), ClosedRank(|c|, f))
  {
    hide ClosedArena, Chain, ExitOf, Contained;
    ContainedGood(bs);
    var c := ClosedArena(bs, f, snaplen);
    ClosedLength(bs, f, snaplen);
    forall p | 0 <= p < |bs|
      ensures SameTest(bs[p], c[p])
      ensures forall side :: Field(c[p], side).Some? && Field(c[p], side).value < |c|
                && ClosedRank(|c|, f)[Field(c[p], side).value] < ClosedRank(|c|, f)[p]
    {
      ClosedSide(bs, f, snaplen, p, true);
      ClosedSide(bs, f, snaplen, p, false);
    }
    assert forall p :: 0 <= p < |bs| ==> c[p].jt == Field(c[p], true) && c[p].jf == Field(c[p], false);
  }

  /** Walking the closed graph runs the fragment and returns according to its exit. */
  lemma {:induction false} WalkIsRunFrag(bs: Arena, f: Fragment, snaplen: u32, p: nat, env: Env, st: State)
    requires Fills(bs, f) && GoodArena(bs) && p in f.rank
    requires var c := ClosedArena(bs, f, snaplen); Resolved(c) && Ranked(ToGraph(c), ClosedRank(|c|, f))
    requires |ClosedArena(bs, f, snaplen)| == |bs| + 2
    ensures var c := ClosedArena(bs, f, snaplen);
            Walk(ToGraph(c), ClosedRank(|c|, f), p, env, st) ==
            match RunFrag(bs, f, p, env, st)
            case Exit(b, _) => Return(if b then snaplen else 0)
            case Refused => Reject
            case Broken => Stuck
    decreases f.rank[p]
  {
    hide ClosedArena, Chain, ExitOf, ExecList, Compare;
    var c := ClosedArena(bs, f, snaplen);
    ClosedLength(bs, f, snaplen);
    ClosedSide(bs, f, snaplen, p, true);
    ClosedSide(bs, f, snaplen, p, false);
    var e := ExecList(bs[p].stmts, env, st);
    if e.Next? {
      var side := Bpf.Test(bs[p].cmp, bs[p].src, bs[p].k, e.st);
      match ExitOf(bs, f, p, side)
      case None => WalkIsRunFrag(bs, f, snaplen, Field(bs[p], side).value, env, e.st);
      case Some(b) => WalkReturn(c, ClosedRank(|c|, f), if b then |bs| else |bs| + 1, env, e.st);
    }
  }

  lemma WalkReturn(c: Arena, rank: seq<nat>, p: nat, env: Env, st: State)
    requires Resolved(c) && Ranked(ToGraph(c), rank) && p < |c| && c[p].Ret?
    ensures Walk(ToGraph(c), rank, p, env, st) == Return(c[p].k)
  {
  }

  lemma {:induction false} CapacityWeight(bs: Arena, m: nat)
    requires Resolved(bs) && m <= |bs|
    ensures Capacity(ToGraph(bs), m) <= Weight(bs[..m])
    decreases m
  {
    if m > 0 {
      CapacityWeight(bs, m - 1);
      assert bs[..m][..m - 1] == bs[..m - 1];
    }
  }

  lemma ClosedWeight(bs: Arena, f: Fragment, snaplen: u32)
    requires Fills(bs, f) && GoodArena(bs)
    ensures Weight(ClosedArena(bs, f, snaplen)) == Weight(bs) + 6
  {
    hide ClosedArena, Chain, ExitOf;
    var c := ClosedArena(bs, f, snaplen);
    ClosedLength(bs, f, snaplen);
    forall p | 0 <= p < |bs|
      ensures SameTest(bs[p], c[p])
    {
      ClosedSide(bs, f, snaplen, p, true);
    }
    SameWeight(c[..|bs|], bs);
    assert c == c[..|bs|] + [Ret(snaplen)] + [Ret(0)];
    assert (c[..|bs|] + [Ret(snaplen)])[..|bs|] == c[..|bs|];
    assert c[..|bs| + 1] == c[..|bs|] + [Ret(snaplen)];
  }

  /** What the graph of expression `e` returns for a packet. */
  function Result(e: Expr, snaplen: u32, env: Env): Outcome {
    match Truth(e, env)
    case Some(b) => Return(if b then snaplen else 0)
    case None => Reject
  }

  /** The block makes the test of the generated block, wherever it goes. */
  predicate MakesTest(b: Block, t: GenBlock) {
    t.Test? && b.Branch? && b.stmts == t.stmts && b.cmp == t.cmp && b.src == t.src && b.k == t.k
  }

  /** The graph consists of the tests of the expression and a return of the snapshot length and of 0. */
  ghost predicate FromTests(g: Graph, bs: Arena, e: Expr, snaplen: u32) {
    && |g| == |bs| + 2 && Originates(bs, 0, e)
    && (forall p :: 0 <= p < |bs| ==> MakesTest(g[p], bs[p]))
    && g[|bs|] == Leaf([], snaplen) && g[|bs| + 1] == Leaf([], 0)
  }

  /** The closed graph: acyclic, with no edge to its root and no register passed between blocks. */
  ghost predicate Generated(g: Graph, root: nat, rank: seq<nat>, e: Expr, snaplen: u32) {
    && (exists bs :: FromTests(g, bs, e, snaplen))
    && Ranked(g, rank) && GoodGraph(g) && RootOnTop(g, root) && Capacity(g, |g|) < 0x8000_0000
    && AllSelfContained(g, Analysis.UpTo(|g|)) && Closed(g, Analysis.UpTo(|g|))
    && forall env, st :: Walk(g, rank, root, env, st) == Result(e, snaplen, env)
  }

  lemma ContainedIsSelfContained(b: GenBlock, c: Block)
    requires b.Test? && Contained(b.stmts, b.src) && c.Branch? && c.stmts == b.stmts && c.src == b.src
    ensures SelfContained(c)
  {
    hide LiveIn, Reads, Defines;
    forall a: nat | a < N_ATOMS
      ensures !BlockReads(c, a)
    {
      LiveInReads(b.stmts, TestUses(b.src), a);
      assert a !in LiveIn(b.stmts, TestUses(b.src));
      assert BranchUses(c) == TestUses(b.src);
    }
  }

  lemma ReturnIsSelfContained(k: u32)
    ensures SelfContained(Leaf([], k))
  {
  }

  /** Every generated block loads what it uses, and nothing leads back to the first. */
  lemma ClosedIsSelfContained(bs: Arena, f: Fragment, snaplen: u32)
    requires Fills(bs, f) && GoodArena(bs) && Resolved(ClosedArena(bs, f, snaplen))
    requires var c := ClosedArena(bs, f, snaplen); Ranked(ToGraph(c), ClosedRank(|c|, f))
    ensures var g := ToGraph(ClosedArena(bs, f, snaplen));
            && AllSelfContained(g, Analysis.UpTo(|g|)) && Closed(g, Analysis.UpTo(|g|))
            && f.rep < |bs| && bs[f.rep].Test? && RootOnTop(g, bs[f.rep].head)
  {
    hide ClosedArena, Chain, ExitOf, SelfContained, Contained;
    var c := ClosedArena(bs, f, snaplen);
    var g := ToGraph(c);
    ClosedLength(bs, f, snaplen);
    WellformedRep(bs, f);
    forall p | 0 <= p < |g|
      ensures SelfContained(g[p]) && ClosedAt(g, Analysis.UpTo(|g|), p)
    {
      if p < |bs| {
        ClosedSide(bs, f, snaplen, p, true);
        ContainedIsSelfContained(bs[p], g[p]);
      } else {
        ReturnIsSelfContained(c[p].k);
      }
    }
    assert forall p :: 0 <= p < |g| ==> ClosedRank(|c|, f)[p] <= ClosedRank(|c|, f)[bs[f.rep].head];
  }

  lemma ClosedTests(bs: Arena, f: Fragment, e: Expr, snaplen: u32)
    requires Fills(bs, f) && Originates(bs, 0, e) && Resolved(ClosedArena(bs, f, snaplen))
    ensures FromTests(ToGraph(ClosedArena(bs, f, snaplen)), bs, e, snaplen)
  {
    hide ClosedArena, Chain, ExitOf, Originates;
    ClosedLength(bs, f, snaplen);
    forall p | 0 <= p < |bs|
      ensures SameTest(bs[p], ClosedArena(bs, f, snaplen)[p])
    {
      ClosedSide(bs, f, snaplen, p, true);
    }
  }

  /** The parse of an expression and finish_parse; `None` is a compile-time error. */
  method GenerateCode(e: Expr, snaplen: u32) returns (r: Option<(Graph, nat)>, ghost rank: seq<nat>)
    requires Sized(e) && Bulk(e) < 0x7fff_ffff - 6
    ensures r.Some? <==> snaplen != 0 && Accepted(e, MEMWORDS)
    ensures r.Some? ==> Generated(r.value.0, r.value.1, rank, e, snaplen)
  {
    hide Walk, Truth, Wellformed, RunFrag, Means, ClosedArena, Accepted, Bulk, SelfContained, RootOnTop, Contained, FromTests,
         Originates;
    if snaplen == 0 { return None, []; }
    var c := new Compiler();
    var b, f := c.CompileExpr(e);
    if b == None { return None, []; }
    ghost var bs := c.blocks;
    var root := c.FinishParse(b.value, snaplen, f);
    ClosedIsGraph(bs, f, snaplen);
    ClosedLength(bs, f, snaplen);
    ClosedWeight(bs, f, snaplen);
    ClosedIsSelfContained(bs, f, snaplen);
    WellformedRep(bs, f);
    ClosedTests(bs, f, e, snaplen);
    CapacityWeight(c.blocks, |c.blocks|);
    assert c.blocks[..|c.blocks|] == c.blocks;
    rank := ClosedRank(|c.blocks|, f);
    forall env, st
      ensures Walk(ToGraph(c.blocks), rank, root, env, st) == Result(e, snaplen, env)
    {
      WalkIsRunFrag(bs, f, snaplen, root, env, st);
      MeansAt(bs, f, e, env, st);
    }
    r := Some((ToGraph(c.blocks), root));
  }

  /**
   * The filter compiler. It fails exactly on a zero snapshot length or an expression the
   * generator refuses; otherwise the program is valid, and on every packet, wire length and
   * initial scratch memory it returns the snapshot length when the expression is true, and 0
   * when it is false or evaluating it rejects the packet.
   */
  method PcapCompile(e: Expr, snaplen: u32) returns (prog: Option<seq<Insn>>)
    requires Sized(e) && Bulk(e) < 0x7fff_ffff - 6
    ensures prog.Some? <==> snaplen != 0 && Accepted(e, MEMWORDS)
    ensures prog.Some? ==> Valid(prog.value) && Forward(prog.value)
                           && forall i :: 0 <= i < |prog.value| ==> !Traps(prog.value[i])
    ensures prog.Some? ==> forall env, st :: Run(prog.value, env, 0, st) == Result(e, snaplen, env)
    ensures prog.Some? ==> Emitted(e, snaplen, prog.value)
  {
    hide Run, Walk, Valid, Traps, Result, Accepted, Bulk, AllSelfContained, Closed, GoodGraph, Capacity, Flattened;
    var code;
    ghost var rank;
    code, rank := GenerateCode(e, snaplen);
    if code == None { return None; }
    var p := FlattenGraph(code.value.0, rank, code.value.1);
    prog := Some(p);
    assert EmittedFrom(e, snaplen, p, code.value.0, code.value.1, rank);
  }

  ghost predicate EmittedFrom(e: Expr, snaplen: u32, prog: seq<Insn>, g: Graph, root: nat, rank: seq<nat>) {
    Generated(g, root, rank, e, snaplen) && Flattened(g, rank, root, prog)
  }

  /** The array is the layout of a graph made of the tests of the expression and the two returns. */
  ghost predicate Emitted(e: Expr, snaplen: u32, prog: seq<Insn>) {
    exists g, root, rank :: EmittedFrom(e, snaplen, prog, g, root, rank)
  }

  lemma MeansAt(bs: Arena, f: Fragment, e: Expr, env: Env, st: State)
    requires Wellformed(bs, f) && Means(bs, f, e)
    ensures Reports(RunFrag(bs, f, bs[f.rep].head, env, st), Truth(e, env))
  {
    hide Wellformed, RunFrag, Truth;
  }

  /** "ether proto 0x1234": the type field at offset 12 equals 0x1234. */
  const ATTESTATION_FILTER: Expr := FieldTest(12, H, ALL_ONES, Jeq, false, 0x1234)

  /** The service's and the verifier's SNAP_LEN. */
  const SNAP_LEN: u32 := 176

  lemma FilterTruth(env: Env)
    ensures Truth(ATTESTATION_FILTER, env) ==
            if |env.pkt| < 14 then None else Some(env.pkt[12] == 0x12 && env.pkt[13] == 0x34)
  {
  }

  /** A frame of the given type with nothing after the Ethernet header. */
  function BareFrame(hi: u8, lo: u8): Env { Env(seq(12, _ => 0) + [hi, lo], 14) }

  const CLEAR: State := State(0, 0, seq(16, _ => 0))

  /** The block graph of the filter is one test and two returns, whatever rank witnesses it. */
  lemma ServiceGraph(g: Graph, root: nat, rank: seq<nat>)
    requires Generated(g, root, rank, ATTESTATION_FILTER, SNAP_LEN)
    ensures root == 0 && Ranked(g, rank)
    ensures g == [Branch([Stmt(LdAbs(H), 12)], Jeq, K, 0x1234, 1, 2), Leaf([], 176), Leaf([], 0)]
  {
    hide Originates, Truth, SelfContained, GoodGraph, Capacity, Walk, Relates;
    var bs :| FromTests(g, bs, ATTESTATION_FILTER, SNAP_LEN);
    OneTest(bs);
    assert MakesTest(g[0], bs[0]);
    var yes, no := BareFrame(0x12, 0x34), BareFrame(0, 0);
    FilterTruth(yes);
    FilterTruth(no);
    assert Walk(g, rank, root, yes, CLEAR) == Return(176) && Walk(g, rank, root, no, CLEAR) == Return(0);
    TestWalks(g, rank, yes);
    TestWalks(g, rank, no);
    LeafWalks(g, rank, 1, CLEAR);
    LeafWalks(g, rank, 2, CLEAR);
  }

  lemma OneTest(bs: Arena)
    requires Originates(bs, 0, ATTESTATION_FILTER)
    ensures |bs| == 1 && bs[0].Test? && bs[0].stmts == [Stmt(LdAbs(H), 12)]
    ensures bs[0].cmp == Jeq && bs[0].src == K && bs[0].k == 0x1234
  {
    assert Stems(bs[0], ATTESTATION_FILTER);
  }

  lemma LeafWalks(g: Graph, rank: seq<nat>, p: nat, st: State)
    requires Ranked(g, rank) && p < |g| && g[p].Leaf? && g[p].stmts == []
    ensures forall env :: Walk(g, rank, p, env, st) == Return(g[p].k)
  {
  }

  lemma TestWalks(g: Graph, rank: seq<nat>, env: Env)
    requires Ranked(g, rank) && |g| == 3 && |env.pkt| == 14
    requires g[0].Branch? && g[0].stmts == [Stmt(LdAbs(H), 12)] && g[0].cmp == Jeq && g[0].src == K && g[0].k == 0x1234
    requires g[1] == Leaf([], 176) && g[2] == Leaf([], 0)
    ensures g[0].jt in {1, 2} && g[0].jf in {1, 2}
    ensures var side := env.pkt[12] == 0x12 && env.pkt[13] == 0x34;
            Walk(g, rank, 0, env, CLEAR) == Return(if Successor(g[0], side) == 1 then 176 else 0)
  {
    var v := Shift8(env.pkt[12], env.pkt[13]);
    assert ExecList(g[0].stmts, env, CLEAR) == Next(CLEAR.(a := v)) by {
      assert g[0].stmts[1..] == [];
    }
    LeafWalks(g, rank, 1, CLEAR.(a := v));
    LeafWalks(g, rank, 2, CLEAR.(a := v));
  }

  /** The array of that graph: the test, the accepting and the rejecting return. */
  lemma ServiceProgram(g: Graph, rank: seq<nat>, prog: seq<Insn>)
    requires g == [Branch([Stmt(LdAbs(H), 12)], Jeq, K, 0x1234, 1, 2), Leaf([], 176), Leaf([], 0)]
    requires Ranked(g, rank) && Flattened(g, rank, 0, prog)
    ensures prog == [Insn(0x28, 0, 0, 12), Insn(0x15, 0, 1, 0x1234), Insn(0x06, 0, 0, 176), Insn(0x06, 0, 0, 0)]
  {
    hide Placed, Live, Stacked, NoLongJumps, Capacity;
    var off, ljt, ljf :| Arranged(g, rank, 0, prog, off, ljt, ljf);
    assert Visit(g, rank, 2, []) == [2];
    assert Visit(g, rank, 1, [2]) == [2, 1];
    var order := Visit(g, rank, 0, []);
    assert order == [2, 1, 0];
    ServiceSizes(g);
    ServiceOffsets(g, off, ljt, ljf, order, |prog|);
    PlacedReturn(g, prog, off, ljt, ljf, 2);
    PlacedReturn(g, prog, off, ljt, ljf, 1);
    PlacedTest(g, prog, off, ljt, ljf);
  }

  lemma ServiceOffsets(g: Graph, off: seq<nat>, ljt: seq<nat>, ljf: seq<nat>, order: seq<nat>, n: nat)
    requires |g| == 3 && Length(g[0]) == 1 && Length(g[1]) == 0 && Length(g[2]) == 0
    requires Stacked(g, off, ljt, ljf, order, n, 0) && order == [2, 1, 0] && NoLongJumps(g, ljt, ljf)
    ensures n == 4 && off == [0, 2, 3] && ljt == [0, 0, 0] == ljf
  {
    hide Live;
    assert EndsAt(g, off, ljt, ljf, order, n, 0) && EndsAt(g, off, ljt, ljf, order, n, 1) && EndsAt(g, off, ljt, ljf, order, n, 2);
  }

  lemma ServiceSizes(g: Graph)
    requires g == [Branch([Stmt(LdAbs(H), 12)], Jeq, K, 0x1234, 1, 2), Leaf([], 176), Leaf([], 0)]
    ensures Length(g[0]) == 1 && Length(g[1]) == 0 && Length(g[2]) == 0
    ensures Capacity(g, 3) == 10
  {
    var s := Stmt(LdAbs(H), 12);
    assert Live([]) == [] && [s][1..] == [] && Live([s]) == [s] + Live([s][1..]);
    assert Capacity(g, 0) == 0;
    assert Capacity(g, 1) == Capacity(g, 0) + SizeOf(g[0], 1, 1);
    assert Capacity(g, 2) == Capacity(g, 1) + SizeOf(g[1], 1, 1);
    assert Capacity(g, 3) == Capacity(g, 2) + SizeOf(g[2], 1, 1);
  }

  lemma PlacedReturn(g: Graph, prog: seq<Insn>, off: seq<nat>, ljt: seq<nat>, ljf: seq<nat>, p: nat)
    requires p < |g| == |off| == |ljt| == |ljf| && g[p].Leaf? && g[p].stmts == [] && ljt[p] == ljf[p] == 0
    requires Placed(g, prog, off, ljt, ljf, p)
    ensures off[p] < |prog| && prog[off[p]] == Insn(0x06, 0, 0, g[p].k)
  {
    assert prog[off[p]..off[p] + 1][0] == prog[off[p]];
  }

  lemma PlacedTest(g: Graph, prog: seq<Insn>, off: seq<nat>, ljt: seq<nat>, ljf: seq<nat>)
    requires 0 < |g| == |off| == |ljt| == |ljf| && Placed(g, prog, off, ljt, ljf, 0) && ljt[0] == ljf[0] == 0
    requires g[0] == Branch([Stmt(LdAbs(H), 12)], Jeq, K, 0x1234, 1, 2) && |g| == 3 && off == [0, 2, 3]
    ensures |prog| >= 2 && prog[0] == Insn(0x28, 0, 0, 12) && prog[1] == Insn(0x15, 0, 1, 0x1234)
  {
    assert Live(g[0].stmts) == [Stmt(LdAbs(H), 12)];
    assert prog[0..2][0] == prog[0] && prog[0..2][1] == prog[1];
  }

  /** The filter both tools install passes exactly the captured frames of type 0x1234. */
  method CompileServiceFilter() returns (prog: seq<Insn>)
    ensures Valid(prog)
    ensures prog == [Insn(0x28, 0, 0, 12), Insn(0x15, 0, 1, 0x1234), Insn(0x06, 0, 0, 176), Insn(0x06, 0, 0, 0)]
    ensures forall env, st :: !Run(prog, env, 0, st).Stuck? &&
              Verdict(Run(prog, env, 0, st)) ==
              if |env.pkt| >= 14 && env.pkt[12] == 0x12 && env.pkt[13] == 0x34 then SNAP_LEN else 0
  {
    hide Run, Valid, Truth, Generated, Flattened;
    var compiled := PcapCompile(ATTESTATION_FILTER, SNAP_LEN);
    prog := compiled.value;
    ghost var g, root, rank :| EmittedFrom(ATTESTATION_FILTER, SNAP_LEN, prog, g, root, rank);
    ServiceGraph(g, root, rank);
    ServiceProgram(g, rank, prog);
    forall env, st
      ensures !Run(prog, env, 0, st).Stuck?
      ensures Verdict(Run(prog, env, 0, st)) ==
              if |env.pkt| >= 14 && env.pkt[12] == 0x12 && env.pkt[13] == 0x34 then SNAP_LEN else 0
    {
      FilterTruth(env);
    }
  }
}
