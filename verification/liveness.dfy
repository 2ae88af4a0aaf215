/**
 * Register liveness and dead-store removal: atomuse, atomdef, compute_local_ud,
 * find_ud, deadstmt and opt_deadstores of optimize.c.
 */
module Liveness {
  import opened Words
  import opened Bpf
  import opened Cfg
  import Analysis

  /** Atoms 0..15 are the scratch words; then come the accumulator and the index register. */
  const A_ATOM: nat := 16
  const X_ATOM: nat := 17
  const N_ATOMS: nat := 18

  /** atomuse. */
  function Uses(s: Stmt): set<nat> {
    match s.op
    case LdInd(_) => {X_ATOM}
    case LdMem => {s.k}
    case LdxMem => {s.k}
    case St => {A_ATOM}
    case Stx => {X_ATOM}
    case Alu(_, X) => {A_ATOM, X_ATOM}
    case Alu(_, K) => {A_ATOM}
    case Neg => {A_ATOM}
    case Tax => {A_ATOM}
    case Txa => {X_ATOM}
    case _ => {}
  }

  /** atomdef: a statement defines at most one atom. */
  function Defs(s: Stmt): Option<nat> {
    match s.op
    case LdAbs(_) => Some(A_ATOM)
    case LdInd(_) => Some(A_ATOM)
    case LdLen => Some(A_ATOM)
    case LdImm => Some(A_ATOM)
    case LdMem => Some(A_ATOM)
    case Alu(_, _) => Some(A_ATOM)
    case Neg => Some(A_ATOM)
    case Txa => Some(A_ATOM)
    case LdxLen => Some(X_ATOM)
    case LdxMsh => Some(X_ATOM)
    case LdxImm => Some(X_ATOM)
    case LdxMem => Some(X_ATOM)
    case Tax => Some(X_ATOM)
    case St => Some(s.k)
    case Stx => Some(s.k)
    case _ => None
  }

  /** Atoms read by the conditional jump that ends a block; a leaf reads none. */
  function BranchUses(b: Block): set<nat> {
    if b.Leaf? then {} else if b.src == X then {A_ATOM, X_ATOM} else {A_ATOM}
  }

  function AtomValue(st: State, a: nat): u32 {
    if a < MEMWORDS then st.mem[a] else if a == A_ATOM then st.a else st.x
  }

  /** Two states that cannot be told apart through the atoms of `s`. */
  ghost predicate AgreeOn(st1: State, st2: State, s: set<nat>) {
    forall a :: a in s && a < N_ATOMS ==> AtomValue(st1, a) == AtomValue(st2, a)
  }

  /** The statement addresses scratch words that exist. */
  predicate InRange(s: Stmt) { s.op == LdMem || s.op == LdxMem || s.op == St || s.op == Stx ==> s.k < MEMWORDS }

  predicate ListInRange(ss: seq<Stmt>) { forall i :: 0 <= i < |ss| ==> InRange(ss[i]) }

  lemma GoodIsInRange(ss: seq<Stmt>)
    requires GoodList(ss)
    ensures ListInRange(ss)
  {
    forall i | 0 <= i < |ss|
      ensures InRange(ss[i])
    {
      assert GoodStmt(ss[i]);
    }
  }

  /** A statement depends only on what it uses and changes only what it defines. */
  lemma ExecAgree(s: Stmt, env: Env, st1: State, st2: State, out: set<nat>)
    requires InRange(s)
    requires AgreeOn(st1, st2, Uses(s))
    requires forall a :: a in out && Some(a) != Defs(s) && a < N_ATOMS ==> AtomValue(st1, a) == AtomValue(st2, a)
    ensures var x, y := Exec(s.op, s.k, env, st1), Exec(s.op, s.k, env, st2);
            && (x.Next? <==> y.Next?) && (x.Rejected? <==> y.Rejected?)
            && (x.Next? ==> AgreeOn(x.st, y.st, out))
  {
    hide AluX, Load;
    assert A_ATOM in Uses(s) ==> AtomValue(st1, A_ATOM) == AtomValue(st2, A_ATOM);
    assert X_ATOM in Uses(s) ==> AtomValue(st1, X_ATOM) == AtomValue(st2, X_ATOM);
  }

  /** Executing a statement keeps every atom it does not define. */
  lemma ExecKeeps(s: Stmt, env: Env, st: State, a: nat)
    requires InRange(s) && a < N_ATOMS && Defs(s) != Some(a)
    ensures Exec(s.op, s.k, env, st).Next? ==>
              AtomValue(Exec(s.op, s.k, env, st).st, a) == AtomValue(st, a)
  {
    hide AluX, Load;
  }

  // ---------------------------------------------------------------------
  // Liveness inside a list
  // ---------------------------------------------------------------------

  /** Atoms needed before `ss` when `out` is needed after it. */
  function LiveIn(ss: seq<Stmt>, out: set<nat>): set<nat> {
    if ss == [] then out
    else
      var after := LiveIn(ss[1..], out);
      Uses(ss[0]) + if Defs(ss[0]).Some? then after - {Defs(ss[0]).value} else after
  }

  lemma {:induction false} LiveInConcat(s: seq<Stmt>, t: seq<Stmt>, out: set<nat>)
    ensures LiveIn(s + t, out) == LiveIn(s, LiveIn(t, out))
    decreases |s|
  {
    hide Uses, Defs;
    if s == [] {
      assert s + t == t;
    } else {
      assert (s + t)[1..] == s[1..] + t;
      LiveInConcat(s[1..], t, out);
    }
  }

  /** `left` is `ss` with some statements deleted whose definition nothing left after them needs. */
  ghost predicate DeadRemoved(ss: seq<Stmt>, left: seq<Stmt>, out: set<nat>) {
    && |ss| == |left|
    && forall i :: 0 <= i < |ss| ==> left[i] == ss[i] || (left[i].op == Nop && NotNeeded(ss[i], left[i + 1..], out))
  }

  /** What `s` defines is read neither by `rest` nor afterwards. */
  ghost predicate NotNeeded(s: Stmt, rest: seq<Stmt>, out: set<nat>) {
    Defs(s) == None || Defs(s).value !in LiveIn(rest, out)
  }

  lemma DeadRemovedTail(ss: seq<Stmt>, left: seq<Stmt>, out: set<nat>)
    requires DeadRemoved(ss, left, out) && ss != []
    ensures DeadRemoved(ss[1..], left[1..], out)
  {
    hide NotNeeded;
    forall i | 0 <= i < |ss[1..]|
      ensures left[1..][i] == ss[1..][i] || (left[1..][i].op == Nop && NotNeeded(ss[1..][i], left[1..][i + 1..], out))
    {
      assert left[1..][i + 1..] == left[i + 2..];
      assert left[i + 1] == ss[i + 1] || NotNeeded(ss[i + 1], left[i + 2..], out);
    }
  }

  /** What is left needs no more than the whole list did. */
  lemma {:induction false} DeadRemovedNeedsLess(ss: seq<Stmt>, left: seq<Stmt>, out: set<nat>)
    requires DeadRemoved(ss, left, out)
    ensures LiveIn(left, out) <= LiveIn(ss, out)
    decreases |ss|
  {
    if ss != [] {
      DeadRemovedTail(ss, left, out);
      DeadRemovedNeedsLess(ss[1..], left[1..], out);
      assert left[0] == ss[0] || NotNeeded(ss[0], left[0 + 1..], out);
    }
  }

  /** Needing less afterwards makes no deletion wrong. */
  lemma DeadRemovedMono(ss: seq<Stmt>, left: seq<Stmt>, out: set<nat>, out': set<nat>)
    requires DeadRemoved(ss, left, out) && forall a :: a in out' && a < N_ATOMS ==> a in out
    requires ListInRange(ss)
    ensures DeadRemoved(ss, left, out')
  {
    hide Uses;
    forall i | 0 <= i < |ss|
      ensures left[i] == ss[i] || (left[i].op == Nop && NotNeeded(ss[i], left[i + 1..], out'))
    {
      assert InRange(ss[i]);
      if left[i] != ss[i] && Defs(ss[i]).Some? {
        LiveInMono(left[i + 1..], out, out', Defs(ss[i]).value);
      }
    }
  }

  lemma {:induction false} LiveInMono(ss: seq<Stmt>, out: set<nat>, out': set<nat>, a: nat)
    requires a in out' ==> a in out
    ensures a in LiveIn(ss, out') ==> a in LiveIn(ss, out)
    decreases |ss|
  {
    hide Uses, Defs;
    if ss != [] {
      LiveInMono(ss[1..], out, out', a);
    }
  }

  /**
   * Deleting such statements keeps what is needed afterwards, on every run that does not reject,
   * for every two states that agree on what the remaining statements need.
   */
  lemma {:induction false} DeadRemovalSafe(ss: seq<Stmt>, left: seq<Stmt>, out: set<nat>, env: Env, st1: State, st2: State)
    requires ListInRange(ss) && DeadRemoved(ss, left, out) && AgreeOn(st1, st2, LiveIn(left, out))
    requires ExecList(ss, env, st1).Next?
    ensures ExecList(left, env, st2).Next?
    ensures AgreeOn(ExecList(ss, env, st1).st, ExecList(left, env, st2).st, out)
    decreases |ss|
  {
    if ss != [] {
      var s, after := ss[0], LiveIn(left[1..], out);
      var x := Exec(s.op, s.k, env, st1);
      assert InRange(s) && ListInRange(ss[1..]);
      DeadRemovedTail(ss, left, out);
      if left[0] == s {
        ExecAgree(s, env, st1, st2, after);
        var y := Exec(s.op, s.k, env, st2);
        DeadRemovalSafe(ss[1..], left[1..], out, env, x.st, y.st);
      } else {
        NopSkips(left[0], env, st2);
        forall a | a in after && a < N_ATOMS
          ensures AtomValue(x.st, a) == AtomValue(st2, a)
        {
          assert NotNeeded(ss[0], left[0 + 1..], out);
          ExecKeeps(s, env, st1, a);
        }
        DeadRemovalSafe(ss[1..], left[1..], out, env, x.st, st2);
      }
    }
  }

  // ---------------------------------------------------------------------
  // The statements opt_deadstores deletes
  // ---------------------------------------------------------------------

  ghost predicate DeadAt(ss: seq<Stmt>, i: nat, out: set<nat>)
    requires i < |ss|
  {
    Defs(ss[i]).Some? && Defs(ss[i]).value !in LiveIn(ss[i + 1..], out)
  }

  ghost function StripAt(ss: seq<Stmt>, i: nat, out: set<nat>): Stmt
    requires i < |ss|
  {
    if DeadAt(ss, i, out) then ss[i].(op := Nop) else ss[i]
  }

  /** The list with exactly the dead definitions deleted. */
  ghost function Strip(ss: seq<Stmt>, out: set<nat>): (r: seq<Stmt>)
    ensures |r| == |ss| && forall i :: 0 <= i < |ss| ==> r[i] == StripAt(ss, i, out)
  {
    seq(|ss|, i requires 0 <= i < |ss| => StripAt(ss, i, out))
  }

  lemma StripTail(ss: seq<Stmt>, i: nat, out: set<nat>)
    requires i <= |ss|
    ensures Strip(ss, out)[i..] == Strip(ss[i..], out)
  {
    hide LiveIn;
    forall k | 0 <= k < |ss| - i
      ensures Strip(ss, out)[i..][k] == Strip(ss[i..], out)[k]
    {
      assert ss[i..][k + 1..] == ss[i + k + 1..];
    }
  }

  /** What is left needs no more than the whole list did. */
  lemma {:induction false} StripNeedsLess(ss: seq<Stmt>, out: set<nat>)
    ensures LiveIn(Strip(ss, out), out) <= LiveIn(ss, out)
    decreases |ss|
  {
    if ss != [] {
      StripTail(ss, 1, out);
      StripNeedsLess(ss[1..], out);
    }
  }

  lemma StripIsSafe(ss: seq<Stmt>, out: set<nat>)
    ensures DeadRemoved(ss, Strip(ss, out), out)
  {
    hide LiveIn;
    var left := Strip(ss, out);
    forall i | 0 <= i < |ss|
      ensures left[i] == ss[i] || (left[i].op == Nop && NotNeeded(ss[i], left[i + 1..], out))
    {
      StripTail(ss, i + 1, out);
      StripNeedsLess(ss[i + 1..], out);
    }
  }

  // ---------------------------------------------------------------------
  // Liveness as a property of paths
  // ---------------------------------------------------------------------

  ghost predicate Defines(ss: seq<Stmt>, a: nat) { exists i :: 0 <= i < |ss| && Defs(ss[i]) == Some(a) }

  /** Some statement uses `a` and none before it defines `a`. */
  ghost predicate Reads(ss: seq<Stmt>, a: nat) {
    exists i :: 0 <= i < |ss| && a in Uses(ss[i]) && !Defines(ss[..i], a)
  }

  /** The block, its branch included, reads the value of `a` it was entered with. */
  ghost predicate BlockReads(b: Block, a: nat) {
    Reads(b.stmts, a) || (a in BranchUses(b) && !Defines(b.stmts, a))
  }

  /** The block uses no register from its predecessors (and not the opcode opt_stmt misses). */
  ghost predicate SelfContained(b: Block) {
    && GoodList(b.stmts) && (forall i :: 0 <= i < |b.stmts| ==> b.stmts[i].op != LdxLen)
    && forall a :: 0 <= a < N_ATOMS ==> !BlockReads(b, a)
  }

  ghost predicate AllSelfContained(g: Graph, s: set<nat>) { forall b :: b in s && b < |g| ==> SelfContained(g[b]) }

  ghost predicate IsSuccessor(b: Block, c: nat) { b.Branch? && (c == b.jt || c == b.jf) }

  /** A path of the flow graph. */
  ghost predicate Trail(g: Graph, p: seq<nat>)
    decreases |p|
  {
    |p| > 0 && p[0] < |g| && (|p| > 1 ==> IsSuccessor(g[p[0]], p[1]) && Trail(g, p[1..]))
  }

  /** Following the path, `a` is read before it is defined. */
  ghost predicate ReadsAlong(g: Graph, p: seq<nat>, a: nat)
    requires Trail(g, p)
    decreases |p|
  {
    || BlockReads(g[p[0]], a)
    || (!Defines(g[p[0]].stmts, a) && |p| > 1 && ReadsAlong(g, p[1..], a))
  }

  ghost predicate TrailFrom(g: Graph, b: nat, p: seq<nat>) { Trail(g, p) && p[0] == b }

  /** Some path from `b` reads `a` before defining it. */
  ghost predicate LiveAt(g: Graph, b: nat, a: nat) {
    exists p :: TrailFrom(g, b, p) && ReadsAlong(g, p, a)
  }

  /** Some path from a successor of `b` reads `a` before defining it. */
  ghost predicate LiveAfter(g: Graph, b: nat, a: nat)
    requires b < |g|
  {
    g[b].Branch? && (LiveAt(g, g[b].jt, a) || LiveAt(g, g[b].jf, a))
  }

  /** The atoms live on exit from a block. */
  ghost function LiveOut(g: Graph, b: nat): (s: set<nat>)
    requires b < |g|
    ensures forall a: nat :: a in s <==> a < N_ATOMS && LiveAfter(g, b, a)
  {
    set a | a in Analysis.UpTo(N_ATOMS) && LiveAfter(g, b, a)
  }

  lemma LiveAtStep(g: Graph, b: nat, a: nat)
    requires b < |g| && (g[b].Branch? ==> g[b].jt < |g| && g[b].jf < |g|)
    ensures LiveAt(g, b, a) <==>
              || BlockReads(g[b], a)
              || (!Defines(g[b].stmts, a) && g[b].Branch? && (LiveAt(g, g[b].jt, a) || LiveAt(g, g[b].jf, a)))
  {
    hide BlockReads, Defines;
    if LiveAt(g, b, a) && !BlockReads(g[b], a) {
      var p :| TrailFrom(g, b, p) && ReadsAlong(g, p, a);
      assert TrailFrom(g, p[1], p[1..]) && ReadsAlong(g, p[1..], a);
    }
    if BlockReads(g[b], a) {
      assert TrailFrom(g, b, [b]) && ReadsAlong(g, [b], a);
    }
    if !Defines(g[b].stmts, a) && g[b].Branch? {
      if LiveAt(g, g[b].jt, a) {
        ExtendTrail(g, b, g[b].jt, a);
      }
      if LiveAt(g, g[b].jf, a) {
        ExtendTrail(g, b, g[b].jf, a);
      }
    }
  }

  lemma ExtendTrail(g: Graph, b: nat, c: nat, a: nat)
    requires b < |g| && IsSuccessor(g[b], c) && LiveAt(g, c, a) && !Defines(g[b].stmts, a)
    ensures LiveAt(g, b, a)
  {
    hide BlockReads, Defines;
    var p :| TrailFrom(g, c, p) && ReadsAlong(g, p, a);
    assert ([b] + p)[1..] == p;
    assert TrailFrom(g, b, [b] + p) && ReadsAlong(g, [b] + p, a);
  }

  /** Backward propagation through a list computes exactly the atoms read before being defined. */
  lemma {:induction false} LiveInReads(ss: seq<Stmt>, out: set<nat>, a: nat)
    ensures a in LiveIn(ss, out) <==> Reads(ss, a) || (a in out && !Defines(ss, a))
    decreases |ss|
  {
    hide Uses, Defs;
    if ss != [] {
      LiveInReads(ss[1..], out, a);
      DefinesCons(ss, a);
      ReadsCons(ss, a);
    }
  }

  lemma DefinesCons(ss: seq<Stmt>, a: nat)
    requires ss != []
    ensures Defines(ss, a) <==> Defs(ss[0]) == Some(a) || Defines(ss[1..], a)
  {
    hide Defs;
    if Defines(ss, a) {
      var i :| 0 <= i < |ss| && Defs(ss[i]) == Some(a);
      if i > 0 {
        assert Defs(ss[1..][i - 1]) == Some(a);
      }
    }
    if Defines(ss[1..], a) {
      var i :| 0 <= i < |ss[1..]| && Defs(ss[1..][i]) == Some(a);
      assert Defs(ss[i + 1]) == Some(a);
    }
  }

  lemma ReadsCons(ss: seq<Stmt>, a: nat)
    requires ss != []
    ensures Reads(ss, a) <==> a in Uses(ss[0]) || (Defs(ss[0]) != Some(a) && Reads(ss[1..], a))
  {
    hide Uses, Defs;
    if Reads(ss, a) {
      var i :| 0 <= i < |ss| && a in Uses(ss[i]) && !Defines(ss[..i], a);
      if i > 0 {
        DefinesCons(ss[..i], a);
        assert ss[..i][1..] == ss[1..][..i - 1] && a in Uses(ss[1..][i - 1]);
      }
    }
    if a in Uses(ss[0]) {
      assert !Defines(ss[..0], a);
    }
    if Defs(ss[0]) != Some(a) && Reads(ss[1..], a) {
      var i :| 0 <= i < |ss[1..]| && a in Uses(ss[1..][i]) && !Defines(ss[1..][..i], a);
      DefinesCons(ss[..i + 1], a);
      assert ss[..i + 1][1..] == ss[1..][..i] && a in Uses(ss[i + 1]);
    }
  }

  /** Appending a statement, as the forward scan of compute_local_ud sees it. */
  lemma DefinesSnoc(ss: seq<Stmt>, i: nat, a: nat)
    requires i < |ss|
    ensures Defines(ss[..i + 1], a) <==> Defines(ss[..i], a) || Defs(ss[i]) == Some(a)
  {
    hide Defs;
    if Defines(ss[..i + 1], a) {
      var j :| 0 <= j < |ss[..i + 1]| && Defs(ss[..i + 1][j]) == Some(a);
      if j < i {
        assert Defs(ss[..i][j]) == Some(a);
      }
    }
    if Defines(ss[..i], a) {
      var j :| 0 <= j < |ss[..i]| && Defs(ss[..i][j]) == Some(a);
      assert Defs(ss[..i + 1][j]) == Some(a);
    }
    assert ss[..i + 1][i] == ss[i];
  }

  lemma ReadsSnoc(ss: seq<Stmt>, i: nat, a: nat)
    requires i < |ss|
    ensures Reads(ss[..i + 1], a) <==> Reads(ss[..i], a) || (a in Uses(ss[i]) && !Defines(ss[..i], a))
  {
    hide Uses, Defs, Defines;
    if Reads(ss[..i + 1], a) {
      var j :| 0 <= j < |ss[..i + 1]| && a in Uses(ss[..i + 1][j]) && !Defines(ss[..i + 1][..j], a);
      assert ss[..i + 1][..j] == ss[..j];
      if j < i {
        assert a in Uses(ss[..i][j]) && ss[..i][..j] == ss[..j];
      }
    }
    if Reads(ss[..i], a) {
      var j :| 0 <= j < |ss[..i]| && a in Uses(ss[..i][j]) && !Defines(ss[..i][..j], a);
      assert a in Uses(ss[..i + 1][j]) && ss[..i + 1][..j] == ss[..i][..j];
    }
    if a in Uses(ss[i]) && !Defines(ss[..i], a) {
      assert a in Uses(ss[..i + 1][i]) && ss[..i + 1][..i] == ss[..i];
    }
  }

  /** compute_local_ud: used-first, defined, and defined-before-used atoms of a block. */
  method ComputeLocalUd(b: Block) returns (def: set<nat>, kill: set<nat>, use: set<nat>)
    ensures forall a: nat :: a in use <==> BlockReads(b, a)
    ensures forall a: nat :: a in def <==> Defines(b.stmts, a)
    ensures kill == def - use
  {
    hide Uses, Defs, Defines, Reads;
    def, kill, use := {}, {}, {};
    var i := 0;
    EmptyReads();
    assert b.stmts[..0] == [];
    while i < |b.stmts|
      invariant 0 <= i <= |b.stmts|
      invariant forall a: nat :: a in use <==> Reads(b.stmts[..i], a)
      invariant forall a: nat :: a in def <==> Defines(b.stmts[..i], a)
      invariant kill == def - use
    {
      var s := b.stmts[i];
      forall a: nat
        ensures Reads(b.stmts[..i + 1], a) <==> Reads(b.stmts[..i], a) || (a in Uses(s) && a !in def)
        ensures Defines(b.stmts[..i + 1], a) <==> a in def || Defs(s) == Some(a)
      {
        ReadsSnoc(b.stmts, i, a);
        DefinesSnoc(b.stmts, i, a);
      }
      use := use + (Uses(s) - def);
      var d := Defs(s);
      if d != None {
        if d.value !in use { kill := kill + {d.value}; }
        def := def + {d.value};
      }
      i := i + 1;
    }
    assert b.stmts[..i] == b.stmts;
    use := use + (BranchUses(b) - def);
  }

  lemma EmptyReads()
    ensures forall a :: !Reads([], a) && !Defines([], a)
  {
  }

  // ---------------------------------------------------------------------
  // find_ud
  // ---------------------------------------------------------------------

  ghost predicate ExactIn(g: Graph, live: set<nat>, b: nat) {
    forall a: nat :: a in live <==> LiveAt(g, b, a)
  }

  ghost predicate ExactOut(g: Graph, live: set<nat>, b: nat)
    requires b < |g|
  {
    forall a: nat :: a in live <==> g[b].Branch? && (LiveAt(g, g[b].jt, a) || LiveAt(g, g[b].jf, a))
  }

  /** After the first pass: what the block itself says. */
  ghost predicate LocalUd(b: Block, kill: set<nat>, use: set<nat>) {
    && (forall a: nat :: a in use <==> BlockReads(b, a))
    && (forall a: nat :: a in kill <==> Defines(b.stmts, a) && !BlockReads(b, a))
  }

  lemma LocalIsExact(g: Graph, rank: seq<nat>, kill: set<nat>, use: set<nat>, b: nat)
    requires Ranked(g, rank) && b < |g| && g[b].Leaf? && LocalUd(g[b], kill, use)
    ensures ExactIn(g, use, b)
  {
    hide LiveAt, BlockReads, Defines;
    forall a: nat
      ensures a in use <==> LiveAt(g, b, a)
    {
      LiveAtStep(g, b, a);
    }
  }

  /** The equations of the second pass, given exact successors. */
  lemma PropagateIsExact(g: Graph, rank: seq<nat>, kill: set<nat>, use: set<nat>, b: nat,
                         inT: set<nat>, inF: set<nat>)
    requires Ranked(g, rank) && b < |g| && g[b].Branch? && LocalUd(g[b], kill, use)
    requires ExactIn(g, inT, g[b].jt) && ExactIn(g, inF, g[b].jf)
    ensures ExactIn(g, use + (inT + inF - kill), b) && ExactOut(g, inT + inF, b)
  {
    hide LiveAt, BlockReads, Defines;
    forall a: nat
      ensures a in use + (inT + inF - kill) <==> LiveAt(g, b, a)
    {
      LiveAtStep(g, b, a);
      assert a in inT <==> LiveAt(g, g[b].jt, a);
      assert a in inF <==> LiveAt(g, g[b].jf, a);
    }
  }

  /** Blocks finished by the upward pass when position `i` of level `l` is next. */
  ghost predicate Below(an: Analysis.Analyzer, l: nat, i: nat, b: nat)
    requires an.Leveled() && b < |an.g| && (l < |an.g| ==> i <= |an.levels[l]|)
    reads an
  {
    an.level[b] < l || (l < |an.g| && b in an.levels[l][..i])
  }

  /** find_ud: exact liveness on entry to and exit from every reachable block. */
  method FindUd(an: Analysis.Analyzer) returns (inUse: seq<set<nat>>, outUse: seq<set<nat>>)
    requires an.Leveled()
    ensures |inUse| == |outUse| == |an.g|
    ensures forall b :: b in an.reached && b < |an.g| ==> ExactIn(an.g, inUse[b], b) && ExactOut(an.g, outUse[b], b)
  {
    var kill;
    kill, inUse := LocalPass(an);
    outUse := seq(|an.g|, _ => {});
    inUse, outUse := UpwardPass(an, kill, inUse, outUse);
  }

  method LocalPass(an: Analysis.Analyzer) returns (kill: seq<set<nat>>, inUse: seq<set<nat>>)
    requires an.Leveled()
    ensures |inUse| == |kill| == |an.g|
    ensures forall b :: b in an.reached && b < |an.g| ==> LocalUd(an.g[b], kill[b], inUse[b])
  {
    hide BlockReads, Defines, Analysis.LevelLists, Analysis.LevelOf, Analysis.PredsDone, Closed;
    var g := an.g;
    Analysis.LevelListFacts(g, an.rank, an.level, an.levels, an.reached);
    kill, inUse := seq(|g|, _ => {}), seq(|g|, _ => {});
    var l := an.level[an.root];
    ghost var done: set<nat> := {};
    while l >= 0
      invariant -1 <= l < |g| && |inUse| == |kill| == |g| && an.DoneIs(done, l, 0)
      invariant forall b :: b in done && b < |g| ==> LocalUd(g[b], kill[b], inUse[b])
    {
      var i := 0;
      while i < |an.levels[l]|
        invariant 0 <= i <= |an.levels[l]| && |inUse| == |kill| == |g| && an.DoneIs(done, l, i)
        invariant forall b :: b in done && b < |g| ==> LocalUd(g[b], kill[b], inUse[b])
      {
        an.NextIsReady(done, l, i);
        var b := an.levels[l][i];
        var def, k, use := ComputeLocalUd(g[b]);
        kill, inUse := kill[b := k], inUse[b := use];
        done := done + {b};
        i := i + 1;
      }
      an.LevelFinished(done, l);
      l := l - 1;
    }
  }

  method UpwardPass(an: Analysis.Analyzer, kill: seq<set<nat>>, inUse0: seq<set<nat>>, outUse0: seq<set<nat>>)
    returns (inUse: seq<set<nat>>, outUse: seq<set<nat>>)
    requires an.Leveled() && |inUse0| == |kill| == |an.g| == |outUse0|
    requires forall b :: 0 <= b < |an.g| ==> outUse0[b] == {}
    requires forall b :: b in an.reached && b < |an.g| ==> LocalUd(an.g[b], kill[b], inUse0[b])
    ensures |inUse| == |outUse| == |an.g|
    ensures forall b :: b in an.reached && b < |an.g| ==> ExactIn(an.g, inUse[b], b) && ExactOut(an.g, outUse[b], b)
  {
    hide LiveAt, LocalUd, ExactIn, ExactOut, Analysis.LevelLists, Analysis.LevelOf;
    var g := an.g;
    inUse, outUse := inUse0, outUse0;
    var l := 1;
    ghost var reached := an.reached;
    Analysis.LevelListFacts(g, an.rank, an.level, an.levels, reached);
    forall b | b in reached && b < |g| && an.level[b] < 1
      ensures ExactIn(g, inUse[b], b) && ExactOut(g, outUse[b], b)
    {
      Analysis.LevelStep(g, an.rank, b);
      LocalIsExact(g, an.rank, kill[b], inUse[b], b);
      LeafOut(g, b);
    }
    while l <= an.level[an.root]
      invariant 1 <= l <= an.level[an.root] + 1 || l == 1
      invariant |inUse| == |outUse| == |g|
      invariant forall b :: b in reached && b < |g| ==>
                  if Below(an, l, 0, b) then ExactIn(g, inUse[b], b) && ExactOut(g, outUse[b], b)
                  else LocalUd(g[b], kill[b], inUse[b]) && outUse[b] == {}
    {
      var i := 0;
      while i < |an.levels[l]|
        invariant 0 <= i <= |an.levels[l]| && |inUse| == |outUse| == |g|
        invariant forall b :: b in reached && b < |g| ==>
                    if Below(an, l, i, b) then ExactIn(g, inUse[b], b) && ExactOut(g, outUse[b], b)
                    else LocalUd(g[b], kill[b], inUse[b]) && outUse[b] == {}
      {
        var b := an.levels[l][i];
        UpwardReady(an, l, i);
        PropagateIsExact(g, an.rank, kill[b], inUse[b], b, inUse[g[b].jt], inUse[g[b].jf]);
        assert outUse[b] + (inUse[g[b].jt] + inUse[g[b].jf]) == inUse[g[b].jt] + inUse[g[b].jf];
        outUse := outUse[b := outUse[b] + (inUse[g[b].jt] + inUse[g[b].jf])];
        inUse := inUse[b := inUse[b] + (outUse[b] - kill[b])];
        i := i + 1;
      }
      UpwardFinished(an, l);
      l := l + 1;
    }
  }

  lemma LeafOut(g: Graph, b: nat)
    requires b < |g| && g[b].Leaf?
    ensures ExactOut(g, {}, b)
  {
  }

  lemma UpwardReady(an: Analysis.Analyzer, l: nat, i: nat)
    requires an.Leveled() && 1 <= l < |an.g| && i < |an.levels[l]|
    ensures var b, g := an.levels[l][i], an.g;
            && b < |g| && b in an.reached && !Below(an, l, i, b) && g[b].Branch?
            && g[b].jt < |g| && g[b].jt in an.reached && Below(an, l, i, g[b].jt) && g[b].jt != b
            && g[b].jf < |g| && g[b].jf in an.reached && Below(an, l, i, g[b].jf) && g[b].jf != b
            && forall c :: c in an.reached && c < |g| ==> (Below(an, l, i + 1, c) <==> Below(an, l, i, c) || c == b)
  {
    hide Analysis.LevelOf;
    var b, g := an.levels[l][i], an.g;
    assert Analysis.InLevel(an.levels, l, b);
    Analysis.LevelListFacts(g, an.rank, an.level, an.levels, an.reached);
    ClosedHas(g, an.reached, b);
    Analysis.LevelStep(g, an.rank, b);
    assert Distinct(an.levels[l]);
    assert an.levels[l][..i + 1] == an.levels[l][..i] + [b];
  }

  lemma UpwardFinished(an: Analysis.Analyzer, l: nat)
    requires an.Leveled() && 1 <= l < |an.g|
    ensures forall b :: b in an.reached && b < |an.g| ==> (Below(an, l, |an.levels[l]|, b) <==> Below(an, l + 1, 0, b))
  {
    hide Analysis.LevelOf;
    assert an.levels[l][..|an.levels[l]|] == an.levels[l];
    forall b | b in an.reached && b < |an.g|
      ensures b in an.levels[l] <==> an.level[b] == l
    {
      assert Analysis.InLevel(an.levels, l, b) <==> b in an.levels[l];
      assert Analysis.InLevel(an.levels, an.level[b], b);
    }
  }

  // ---------------------------------------------------------------------
  // opt_deadstores
  // ---------------------------------------------------------------------

  datatype Fate = Untouched | Read | Redefined

  /** What first happens to the value of `a` in the statements from `j` up to `i`. */
  function FateOf(ss: seq<Stmt>, j: nat, i: nat, a: nat): Fate
    requires j <= i <= |ss|
    decreases i - j
  {
    if j == i then Untouched
    else if a in Uses(ss[j]) then Read
    else if Defs(ss[j]) == Some(a) then Redefined
    else FateOf(ss, j + 1, i, a)
  }

  lemma {:induction false} FateNext(ss: seq<Stmt>, j: nat, i: nat, a: nat)
    requires j <= i < |ss|
    ensures FateOf(ss, j, i + 1, a) == if FateOf(ss, j, i, a) != Untouched then FateOf(ss, j, i, a)
                                       else if a in Uses(ss[i]) then Read
                                       else if Defs(ss[i]) == Some(a) then Redefined else Untouched
    decreases i - j
  {
    hide Uses, Defs;
    if j < i {
      FateNext(ss, j + 1, i, a);
    }
  }

  /** A value is needed if it is read first, or survives untouched and is needed afterwards. */
  lemma {:induction false} FateIsLive(ss: seq<Stmt>, j: nat, out: set<nat>, a: nat)
    requires j <= |ss|
    ensures a in LiveIn(ss[j..], out) <==> match FateOf(ss, j, |ss|, a)
                                           case Read => true
                                           case Redefined => false
                                           case Untouched => a in out
    decreases |ss| - j
  {
    hide Uses, Defs;
    if j < |ss| {
      FateIsLive(ss, j + 1, out, a);
      assert ss[j..][1..] == ss[j + 1..];
    }
  }

  /** Statement `j` defines `a`, and nothing from there up to `i` touches `a`. */
  ghost predicate Pending(ss: seq<Stmt>, j: nat, i: nat, a: nat)
    requires i <= |ss|
  {
    j < i && Defs(ss[j]) == Some(a) && FateOf(ss, j + 1, i, a) == Untouched
  }

  /** The `last[]` table holds for each atom exactly the pending definition. */
  ghost predicate LastTable(ss: seq<Stmt>, i: nat, last: seq<Option<nat>>)
    requires i <= |ss|
  {
    |last| == N_ATOMS && forall a, j: nat :: 0 <= a < N_ATOMS ==> (last[a] == Some(j) <==> Pending(ss, j, i, a))
  }

  /** Statement `j` when those up to `i` have been visited. */
  ghost function Visited(ss: seq<Stmt>, j: nat, i: nat): Stmt
    requires j < |ss| && i <= |ss|
  {
    if j < i && Defs(ss[j]).Some? && FateOf(ss, j + 1, i, Defs(ss[j]).value) == Redefined then ss[j].(op := Nop) else ss[j]
  }

  function Forget(last: seq<Option<nat>>, uses: set<nat>): (r: seq<Option<nat>>)
    ensures |r| == |last|
  {
    seq(|last|, a requires 0 <= a < |last| => if a in uses then None else last[a])
  }

  lemma DeadstmtStep(ss: seq<Stmt>, i: nat, last: seq<Option<nat>>)
    requires i < |ss| && LastTable(ss, i, last) && (Defs(ss[i]).Some? ==> Defs(ss[i]).value < N_ATOMS)
    ensures var last1, d := Forget(last, Uses(ss[i])), Defs(ss[i]);
            && LastTable(ss, i + 1, if d.Some? then last1[d.value := Some(i)] else last1)
            && (forall j :: 0 <= j < |ss| ==>
                  Visited(ss, j, i + 1) == if d.Some? && last1[d.value] == Some(j) then ss[j].(op := Nop) else Visited(ss, j, i))
            && (d.Some? && last1[d.value].Some? ==> last1[d.value].value < i)
  {
    hide Uses, Defs;
    var last1, d := Forget(last, Uses(ss[i])), Defs(ss[i]);
    var last2 := if d.Some? then last1[d.value := Some(i)] else last1;
    forall a, j: nat | 0 <= a < N_ATOMS
      ensures last2[a] == Some(j) <==> Pending(ss, j, i + 1, a)
    {
      assert last[a] == Some(j) <==> Pending(ss, j, i, a);
      if j < i { FateNext(ss, j + 1, i, a); }
    }
    forall j | 0 <= j < |ss|
      ensures Visited(ss, j, i + 1) == if d.Some? && last1[d.value] == Some(j) then ss[j].(op := Nop) else Visited(ss, j, i)
    {
      if j < i && Defs(ss[j]).Some? {
        FateNext(ss, j + 1, i, Defs(ss[j]).value);
      }
      if d.Some? {
        assert last[d.value] == Some(j) <==> Pending(ss, j, i, d.value);
      }
    }
    if d.Some? && last1[d.value].Some? {
      assert Pending(ss, last[d.value].value, i, d.value);
    }
  }

  /** opt_deadstores: it deletes exactly the dead definitions of the list. */
  method OptDeadstores(b: Block, outUse: set<nat>) returns (stmts: seq<Stmt>)
    requires ListInRange(b.stmts)
    ensures stmts == Strip(b.stmts, BranchUses(b) + outUse)
  {
    hide Uses, Defs, FateOf, LastTable, Strip;
    var ss := b.stmts;
    ghost var out := BranchUses(b) + outUse;
    stmts := ss;
    var last: seq<Option<nat>> := seq(N_ATOMS, _ => None);
    var i := 0;
    EmptyTable(ss, last);
    while i < |ss|
      invariant 0 <= i <= |ss| == |stmts| && |last| == N_ATOMS && LastTable(ss, i, last)
      invariant forall j :: 0 <= j < |ss| ==> stmts[j] == Visited(ss, j, i)
    {
      var s := stmts[i];
      DefsInRange(ss[i]);
      DeadstmtStep(ss, i, last);
      last := Forget(last, Uses(s));
      var d := Defs(s);
      if d != None {
        if last[d.value] != None {
          var j := last[d.value].value;
          stmts := stmts[j := ss[j].(op := Nop)];
        }
        last := last[d.value := Some(i)];
      }
      i := i + 1;
    }
    ghost var end := last;
    last := Forget(last, BranchUses(b));
    var atom := 0;
    while atom < N_ATOMS
      invariant 0 <= atom <= N_ATOMS && |stmts| == |ss|
      invariant forall j :: 0 <= j < |ss| ==> stmts[j] == Settled(ss, j, end, out, atom)
    {
      SettleStep(ss, end, out, atom);
      if last[atom] != None && atom !in outUse {
        var j := last[atom].value;
        stmts := stmts[j := ss[j].(op := Nop)];
      }
      atom := atom + 1;
    }
    AllSettled(ss, end, out);
  }

  lemma EmptyTable(ss: seq<Stmt>, last: seq<Option<nat>>)
    requires |last| == N_ATOMS && forall a :: 0 <= a < N_ATOMS ==> last[a] == None
    ensures LastTable(ss, 0, last)
  {
  }

  lemma DefsInRange(s: Stmt)
    requires InRange(s)
    ensures Defs(s).Some? ==> Defs(s).value < N_ATOMS
  {
  }

  /** Statement `j` when the pending definitions of the atoms below `atom` have been settled. */
  ghost function Settled(ss: seq<Stmt>, j: nat, last: seq<Option<nat>>, out: set<nat>, atom: nat): Stmt
    requires j < |ss|
  {
    var d := Defs(ss[j]);
    if d.Some? && d.value < atom && d.value < |last| && last[d.value] == Some(j) && d.value !in out then ss[j].(op := Nop)
    else Visited(ss, j, |ss|)
  }

  lemma SettleStep(ss: seq<Stmt>, last: seq<Option<nat>>, out: set<nat>, atom: nat)
    requires LastTable(ss, |ss|, last) && atom < N_ATOMS
    ensures last[atom].Some? ==> last[atom].value < |ss|
    ensures forall j :: 0 <= j < |ss| ==>
              Settled(ss, j, last, out, atom + 1) == if last[atom] == Some(j) && atom !in out then ss[j].(op := Nop) else Settled(ss, j, last, out, atom)
  {
    hide Uses, Defs, FateOf;
    if last[atom].Some? {
      assert Pending(ss, last[atom].value, |ss|, atom);
    }
  }

  lemma AllSettled(ss: seq<Stmt>, last: seq<Option<nat>>, out: set<nat>)
    requires LastTable(ss, |ss|, last) && ListInRange(ss)
    ensures forall j :: 0 <= j < |ss| ==> Settled(ss, j, last, out, N_ATOMS) == StripAt(ss, j, out)
  {
    hide Uses, Defs, FateOf, LiveIn;
    forall j | 0 <= j < |ss|
      ensures Settled(ss, j, last, out, N_ATOMS) == StripAt(ss, j, out)
    {
      assert InRange(ss[j]);
      DefsInRange(ss[j]);
      if Defs(ss[j]).Some? {
        var a := Defs(ss[j]).value;
        FateIsLive(ss, j + 1, out, a);
        assert last[a] == Some(j) <==> Pending(ss, j, |ss|, a);
      }
    }
  }

  /** Block `b'` is block `b` after opt_deadstores with `outUse` live on exit. */
  ghost predicate Stripped(b: Block, b': Block, outUse: set<nat>) {
    && b'.stmts == Strip(b.stmts, BranchUses(b) + outUse)
    && (b.Leaf? ==> b' == Leaf(b'.stmts, b.k))
    && (b.Branch? ==> b' == Branch(b'.stmts, b.cmp, b.src, b.k, b.jt, b.jf))
  }

  /** The states agree on everything some path from `b` reads before defining it. */
  ghost predicate AgreeLive(g: Graph, b: nat, st1: State, st2: State) {
    forall a :: 0 <= a < N_ATOMS && LiveAt(g, b, a) ==> AtomValue(st1, a) == AtomValue(st2, a)
  }

  lemma EntryAgrees(g: Graph, rank: seq<nat>, b: nat, outUse: set<nat>, st1: State, st2: State)
    requires Ranked(g, rank) && b < |g| && ExactOut(g, outUse, b) && AgreeLive(g, b, st1, st2)
    ensures AgreeOn(st1, st2, LiveIn(g[b].stmts, BranchUses(g[b]) + outUse))
  {
    hide LiveAt, LiveIn, Reads, Defines;
    forall a | a in LiveIn(g[b].stmts, BranchUses(g[b]) + outUse) && a < N_ATOMS
      ensures AtomValue(st1, a) == AtomValue(st2, a)
    {
      LiveInReads(g[b].stmts, BranchUses(g[b]) + outUse, a);
      LiveAtStep(g, b, a);
      assert a in outUse ==> g[b].Branch? && (LiveAt(g, g[b].jt, a) || LiveAt(g, g[b].jf, a));
    }
  }

  /** ... in particular on what the block needs for its branch and its live-out atoms. */
  lemma NeedsAgree(g: Graph, rank: seq<nat>, b: nat, st1: State, st2: State)
    requires Ranked(g, rank) && b < |g| && AgreeLive(g, b, st1, st2)
    ensures AgreeOn(st1, st2, LiveIn(g[b].stmts, BranchUses(g[b]) + LiveOut(g, b)))
  {
    hide LiveAt, LiveIn, Reads, Defines;
    var out := BranchUses(g[b]) + LiveOut(g, b);
    forall a | a in LiveIn(g[b].stmts, out) && a < N_ATOMS
      ensures AtomValue(st1, a) == AtomValue(st2, a)
    {
      LiveInReads(g[b].stmts, out, a);
      LiveAtStep(g, b, a);
      assert a in LiveOut(g, b) ==> LiveAfter(g, b, a);
    }
  }

  lemma SuccessorAgrees(g: Graph, b: nat, c: nat, st1: State, st2: State, out: set<nat>)
    requires b < |g| && IsSuccessor(g[b], c) && AgreeOn(st1, st2, out) && LiveOut(g, b) <= out
    ensures AgreeLive(g, c, st1, st2)
  {
    hide LiveAt;
    forall a: nat | a < N_ATOMS && LiveAt(g, c, a)
      ensures AtomValue(st1, a) == AtomValue(st2, a)
    {
      assert LiveAfter(g, b, a);
      assert a in LiveOut(g, b);
    }
  }

  lemma SameSide(b: Block, b': Block, outUse: set<nat>, st1: State, st2: State)
    requires b.Branch? && Stripped(b, b', outUse) && AgreeOn(st1, st2, BranchUses(b) + outUse)
    ensures Taken(b, st1) == Taken(b', st2)
  {
    hide Compare, Strip;
    assert AtomValue(st1, A_ATOM) == AtomValue(st2, A_ATOM);
    assert b.src == X ==> AtomValue(st1, X_ATOM) == AtomValue(st2, X_ATOM);
  }

  /**
   * Dead-store removal on the blocks of a closed set, with exact live-out sets, keeps the
   * result of every run that does not reject.
   */
  lemma {:induction false} DeadstoresKeepRuns(g: Graph, g': Graph, rank: seq<nat>, blocks: set<nat>,
                                              outUse: seq<set<nat>>, b: nat, env: Env, st1: State, st2: State)
    requires Ranked(g, rank) && Ranked(g', rank) && GoodGraph(g) && |g| == |g'| == |outUse|
    requires Closed(g, blocks) && b in blocks && b < |g|
    requires forall c :: c in blocks && c < |g| ==> Stripped(g[c], g'[c], outUse[c]) && ExactOut(g, outUse[c], c)
    requires AgreeLive(g, b, st1, st2) && !Walk(g, rank, b, env, st1).Reject?
    ensures Walk(g', rank, b, env, st2) == Walk(g, rank, b, env, st1)
    decreases rank[b]
  {
    hide LiveAt, LiveIn, DeadRemoved, Compare, AgreeOn, Closed, Strip;
    var out := BranchUses(g[b]) + outUse[b];
    assert Stripped(g[b], g'[b], outUse[b]);
    GoodListRuns(g[b].stmts, env, st1);
    GoodIsInRange(g[b].stmts);
    EntryAgrees(g, rank, b, outUse[b], st1, st2);
    StripIsSafe(g[b].stmts, out);
    StripNeedsLess(g[b].stmts, out);
    AgreeOnLess(st1, st2, LiveIn(g[b].stmts, out), LiveIn(g'[b].stmts, out));
    DeadRemovalSafe(g[b].stmts, g'[b].stmts, out, env, st1, st2);
    if g[b].Branch? {
      var s1, s2 := ExecList(g[b].stmts, env, st1).st, ExecList(g'[b].stmts, env, st2).st;
      SameSide(g[b], g'[b], outUse[b], s1, s2);
      var c := Successor(g[b], Taken(g[b], s1));
      ClosedHas(g, blocks, b);
      ExitAgrees(g, b, c, outUse[b], s1, s2);
      DeadstoresKeepRuns(g, g', rank, blocks, outUse, c, env, s1, s2);
    }
  }

  lemma AgreeOnLess(st1: State, st2: State, s: set<nat>, less: set<nat>)
    requires AgreeOn(st1, st2, s) && less <= s
    ensures AgreeOn(st1, st2, less)
  {
  }

  lemma ExitAgrees(g: Graph, b: nat, c: nat, outUse: set<nat>, st1: State, st2: State)
    requires b < |g| && IsSuccessor(g[b], c) && ExactOut(g, outUse, b)
    requires AgreeOn(st1, st2, BranchUses(g[b]) + outUse)
    ensures AgreeLive(g, c, st1, st2)
  {
    hide LiveAt;
    forall a | 0 <= a < N_ATOMS && LiveAt(g, c, a)
      ensures AtomValue(st1, a) == AtomValue(st2, a)
    {
      assert a in outUse;
    }
  }

  /** `c` is `b` with some statements deleted. */
  ghost predicate OnlyDeletes(b: Block, c: Block) {
    && |c.stmts| == |b.stmts| && c == WithStmts(b, c.stmts)
    && forall i :: 0 <= i < |b.stmts| ==> c.stmts[i] == b.stmts[i] || c.stmts[i].op == Nop
  }

  function WithStmts(b: Block, stmts: seq<Stmt>): Block {
    if b.Leaf? then Leaf(stmts, b.k) else Branch(stmts, b.cmp, b.src, b.k, b.jt, b.jf)
  }

  /** find_levels, find_ud, then opt_deadstores on each block in the order of opt_blks. */
  method StripDeadStores(g: Graph, root: nat, ghost rank: seq<nat>)
    returns (g': Graph, ghost reached: set<nat>, ghost out: seq<set<nat>>)
    requires Ranked(g, rank) && GoodGraph(g) && root < |g|
    ensures root in reached && Closed(g, reached) && |out| == |g| == |g'|
    ensures forall b :: b in reached && b < |g| ==> ExactOut(g, out[b], b) && Stripped(g[b], g'[b], out[b])
    ensures Ranked(g', rank) && |g'| == |g| && forall b :: 0 <= b < |g| ==> OnlyDeletes(g[b], g'[b])
    ensures forall env, st :: !Walk(g, rank, root, env, st).Reject? ==>
              Walk(g', rank, root, env, st) == Walk(g, rank, root, env, st)
  {
    hide LiveAt, DeadRemoved, ExactOut, ExactIn, Walk, Analysis.LevelLists, Analysis.LevelOf, GoodStmt, Closed;
    var an := new Analysis.Analyzer(g, root, rank);
    an.FindLevels();
    var inUse, outUse := FindUd(an);
    g' := StripBlocks(an, outUse);
    reached, out := an.reached, outUse;
    Analysis.LevelListFacts(g, rank, an.level, an.levels, an.reached);
    forall env, st | !Walk(g, rank, root, env, st).Reject?
      ensures Walk(g', rank, root, env, st) == Walk(g, rank, root, env, st)
    {
      DeadstoresKeepRuns(g, g', rank, an.reached, outUse, root, env, st, st);
    }
  }

  method StripBlocks(an: Analysis.Analyzer, outUse: seq<set<nat>>) returns (g': Graph)
    requires an.Leveled() && GoodGraph(an.g) && |outUse| == |an.g|
    ensures |g'| == |an.g| && Ranked(g', an.rank) && forall b :: 0 <= b < |an.g| ==> OnlyDeletes(an.g[b], g'[b])
    ensures forall b :: b in an.reached && b < |an.g| ==> Stripped(an.g[b], g'[b], outUse[b])
  {
    hide Strip, Analysis.LevelLists, Analysis.LevelOf, GoodStmt, Analysis.PredsDone, OnlyDeletes, Stripped, ListInRange;
    var g := an.g;
    Analysis.LevelListFacts(g, an.rank, an.level, an.levels, an.reached);
    g' := g;
    NothingDeleted(g);
    var l := an.level[an.root];
    ghost var done: set<nat> := {};
    while l >= 0
      invariant -1 <= l < |g| && |g'| == |g| && an.DoneIs(done, l, 0)
      invariant forall b :: 0 <= b < |g| ==> OnlyDeletes(g[b], g'[b])
      invariant forall b :: b in done && b < |g| ==> Stripped(g[b], g'[b], outUse[b])
    {
      var i := 0;
      while i < |an.levels[l]|
        invariant 0 <= i <= |an.levels[l]| && |g'| == |g| && an.DoneIs(done, l, i)
        invariant forall b :: 0 <= b < |g| ==> OnlyDeletes(g[b], g'[b])
        invariant forall b :: b in done && b < |g| ==> Stripped(g[b], g'[b], outUse[b])
      {
        an.NextIsReady(done, l, i);
        var b := an.levels[l][i];
        GoodIsInRange(g[b].stmts);
        var stmts := OptDeadstores(g[b], outUse[b]);
        g' := g'[b := WithStmts(g[b], stmts)];
        StrippedBy(g[b], stmts, outUse[b]);
        done := done + {b};
        i := i + 1;
      }
      an.LevelFinished(done, l);
      l := l - 1;
    }
    DeletingKeepsRank(g, g', an.rank);
  }

  lemma NothingDeleted(g: Graph)
    ensures forall b :: 0 <= b < |g| ==> OnlyDeletes(g[b], g[b])
  {
  }

  lemma StrippedBy(b: Block, stmts: seq<Stmt>, outUse: set<nat>)
    requires stmts == Strip(b.stmts, BranchUses(b) + outUse)
    ensures Stripped(b, WithStmts(b, stmts), outUse) && OnlyDeletes(b, WithStmts(b, stmts))
  {
    hide DeadAt;
  }

  lemma DeletingKeepsRank(g: Graph, g': Graph, rank: seq<nat>)
    requires Ranked(g, rank) && |g'| == |g| && forall b :: 0 <= b < |g| ==> OnlyDeletes(g[b], g'[b])
    ensures Ranked(g', rank)
  {
    forall b | 0 <= b < |g|
      ensures g'[b] == WithStmts(g[b], g'[b].stmts)
    {
      assert OnlyDeletes(g[b], g'[b]);
    }
  }
}
