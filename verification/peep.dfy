/**
 * The peephole step of opt_blk (opt_peep of optimize.c): rewrites of neighbouring statements,
 * and branches simplified by the statement before them or by known constants.
 */
module Peephole {
  import opened Words
  import opened Bpf
  import opened Cfg
  import opened Liveness
  import opened ValueNumbers

  // ---------------------------------------------------------------------
  // Neighbouring statements
  // ---------------------------------------------------------------------

  /** this_op: the first statement from `i` on that is not deleted, or the end of the list. */
  function ThisOp(ss: seq<Stmt>, i: nat): (j: nat)
    requires i <= |ss|
    ensures i <= j <= |ss| && (j < |ss| ==> ss[j].op != Nop) && forall k :: i <= k < j ==> ss[k].op == Nop
    decreases |ss| - i
  {
    if i == |ss| || ss[i].op != Nop then i else ThisOp(ss, i + 1)
  }

  /** `st M[k]; ldx M[k]` becomes `st M[k]; tax`, and `ld #k; tax` becomes `ldx #k; txa`. */
  function Pair(s: Stmt, next: Stmt): (Stmt, Stmt) {
    if s.op == St && next.op == LdxMem && s.k == next.k then (s, next.(op := Tax))
    else if s.op == LdImm && next.op == Tax then (s.(op := LdxImm), next.(op := Txa))
    else (s, next)
  }

  /** The loop over neighbouring statements, from `i` on. */
  function PeepFrom(ss: seq<Stmt>, i: nat): seq<Stmt>
    requires i <= |ss|
    decreases |ss| - i
  {
    var s := ThisOp(ss, i);
    if s == |ss| then ss
    else
      var next := ThisOp(ss, s + 1);
      if next == |ss| then ss
      else
        var (x, y) := Pair(ss[s], ss[next]);
        PeepFrom(ss[s := x][next := y], next)
  }

  /** The statement the loop leaves in `last`: the last of two or more, otherwise the head of the list. */
  function LastFrom(ss: seq<Stmt>, i: nat, last: nat): nat
    requires i <= |ss|
    decreases |ss| - i
  {
    var s := ThisOp(ss, i);
    if s == |ss| then last
    else
      var next := ThisOp(ss, s + 1);
      if next == |ss| then last else LastFrom(ss, next, next)
  }

  /** `left` has the same statements deleted, and replaces others by moves between A and X. */
  ghost predicate Reworked(ss: seq<Stmt>, left: seq<Stmt>) {
    && |left| == |ss|
    && forall i :: 0 <= i < |ss| ==> ReworkedAt(ss[i], left[i])
  }

  ghost predicate ReworkedAt(s: Stmt, s': Stmt) {
    s' == s || (s.op == LdxMem && s'.op == Tax) || (s.op == LdImm && s'.op == LdxImm)
    || ((s.op == Tax || s.op == LdxMem) && s'.op == Txa)
  }

  lemma {:induction false} PeepReworks(ss: seq<Stmt>, i: nat, orig: seq<Stmt>)
    requires i <= |ss| && Reworked(orig, ss)
    ensures Reworked(orig, PeepFrom(ss, i))
    decreases |ss| - i
  {
    var s := ThisOp(ss, i);
    if s < |ss| {
      var next := ThisOp(ss, s + 1);
      if next < |ss| {
        var p := Pair(ss[s], ss[next]);
        var ss' := ss[s := p.0][next := p.1];
        assert ReworkedAt(orig[s], ss[s]) && ReworkedAt(orig[next], ss[next]);
        assert Reworked(orig, ss') by {
          forall k | 0 <= k < |ss|
            ensures ReworkedAt(orig[k], ss'[k])
          {
            assert ReworkedAt(orig[k], ss[k]);
          }
        }
        PeepReworks(ss', next, orig);
      }
    }
  }

  lemma {:induction false} NopsRun(ss: seq<Stmt>, env: Env, st: State, out: set<nat>)
    requires forall k :: 0 <= k < |ss| ==> ss[k].op == Nop
    ensures ExecList(ss, env, st) == Next(st) && LiveIn(ss, out) == out
    decreases |ss|
  {
    if ss != [] {
      NopsRun(ss[1..], env, st, out);
    }
  }

  function Around(pre: seq<Stmt>, x: Stmt, mid: seq<Stmt>, y: Stmt, post: seq<Stmt>): seq<Stmt> {
    pre + ([x] + (mid + ([y] + post)))
  }

  lemma One(s: Stmt, env: Env, st: State, out: set<nat>)
    ensures ExecList([s], env, st) == Exec(s.op, s.k, env, st)
    ensures LiveIn([s], out) == Uses(s) + if Defs(s).Some? then out - {Defs(s).value} else out
  {
    hide Exec, Uses, Defs;
    assert [s][1..] == [];
  }

  lemma AroundRuns(pre: seq<Stmt>, x: Stmt, mid: seq<Stmt>, y: Stmt, post: seq<Stmt>, env: Env, st: State)
    requires forall k :: 0 <= k < |mid| ==> mid[k].op == Nop
    ensures ExecList(Around(pre, x, mid, y, post), env, st) ==
            match ExecList(pre, env, st)
            case Next(s0) => (match Exec(x.op, x.k, env, s0)
                              case Next(s1) => (match Exec(y.op, y.k, env, s1)
                                                case Next(s2) => ExecList(post, env, s2)
                                                case e => e)
                              case e => e)
            case e => e
  {
    hide Exec, ExecList;
    ExecConcat(pre, [x] + (mid + ([y] + post)), env, st);
    var e0 := ExecList(pre, env, st);
    if e0.Next? {
      ExecConcat([x], mid + ([y] + post), env, e0.st);
      One(x, env, e0.st, {});
      var e1 := Exec(x.op, x.k, env, e0.st);
      if e1.Next? {
        ExecConcat(mid, [y] + post, env, e1.st);
        NopsRun(mid, env, e1.st, {});
        ExecConcat([y], post, env, e1.st);
        One(y, env, e1.st, {});
      }
    }
  }

  lemma AroundNeeds(pre: seq<Stmt>, x: Stmt, mid: seq<Stmt>, y: Stmt, post: seq<Stmt>, out: set<nat>)
    requires forall k :: 0 <= k < |mid| ==> mid[k].op == Nop
    ensures LiveIn(Around(pre, x, mid, y, post), out) == LiveIn(pre, LiveIn([x], LiveIn([y], LiveIn(post, out))))
  {
    hide LiveIn;
    LiveInConcat(pre, [x] + (mid + ([y] + post)), out);
    LiveInConcat([x], mid + ([y] + post), out);
    LiveInConcat(mid, [y] + post, out);
    LiveInConcat([y], post, out);
    NopsRun(mid, Env([], 0), State(0, 0, seq(16, _ => 0)), LiveIn([y] + post, out));
  }

  lemma PairRuns(x: Stmt, y: Stmt, env: Env, st: State)
    requires InRange(x) && InRange(y)
    ensures var p := Pair(x, y);
            (match Exec(p.0.op, p.0.k, env, st) case Next(s1) => Exec(p.1.op, p.1.k, env, s1) case e => e) ==
            (match Exec(x.op, x.k, env, st) case Next(s1) => Exec(y.op, y.k, env, s1) case e => e)
  {
    hide AluX, Load;
  }

  lemma PairNeeds(x: Stmt, y: Stmt, out: set<nat>)
    requires InRange(x) && InRange(y)
    ensures var p := Pair(x, y); LiveIn([p.0], LiveIn([p.1], out)) == LiveIn([x], LiveIn([y], out))
  {
    hide LiveIn;
    var p := Pair(x, y);
    var env, st := Env([], 0), State(0, 0, seq(16, _ => 0));
    One(y, env, st, out);
    One(p.1, env, st, out);
    One(x, env, st, LiveIn([y], out));
    One(p.0, env, st, LiveIn([p.1], out));
  }

  lemma SplitAround(ss: seq<Stmt>, i: nat, j: nat, x: Stmt, y: Stmt)
    requires i < j < |ss|
    ensures ss[i := x][j := y] == Around(ss[..i], x, ss[i + 1..j], y, ss[j + 1..])
    ensures ss == Around(ss[..i], ss[i], ss[i + 1..j], ss[j], ss[j + 1..])
  {
  }

  lemma PairInRange(x: Stmt, y: Stmt)
    requires InRange(x) && InRange(y)
    ensures InRange(Pair(x, y).0) && InRange(Pair(x, y).1)
  {
  }

  /** One rewrite keeps what the list does and what it needs. */
  lemma PairKeeps(ss: seq<Stmt>, i: nat, j: nat, env: Env, st: State, out: set<nat>)
    requires i < j < |ss| && ListInRange(ss) && forall k :: i < k < j ==> ss[k].op == Nop
    ensures var ss' := ss[i := Pair(ss[i], ss[j]).0][j := Pair(ss[i], ss[j]).1];
            ListInRange(ss') && ExecList(ss', env, st) == ExecList(ss, env, st) && LiveIn(ss', out) == LiveIn(ss, out)
  {
    hide Exec, ExecList, LiveIn, Around, Pair, InRange;
    var p := Pair(ss[i], ss[j]);
    var pre, mid, post := ss[..i], ss[i + 1..j], ss[j + 1..];
    SplitAround(ss, i, j, p.0, p.1);
    PairInRange(ss[i], ss[j]);
    AroundRuns(pre, ss[i], mid, ss[j], post, env, st);
    AroundRuns(pre, p.0, mid, p.1, post, env, st);
    AroundNeeds(pre, ss[i], mid, ss[j], post, out);
    AroundNeeds(pre, p.0, mid, p.1, post, out);
    PairNeeds(ss[i], ss[j], LiveIn(post, out));
    var e0 := ExecList(pre, env, st);
    if e0.Next? {
      PairRuns(ss[i], ss[j], env, e0.st);
    }
  }

  /** The loop keeps what the list does, and what it needs, for every state. */
  lemma {:induction false} PeepKeeps(ss: seq<Stmt>, i: nat, env: Env, st: State, out: set<nat>)
    requires i <= |ss| && ListInRange(ss)
    ensures var left := PeepFrom(ss, i);
            ListInRange(left) && ExecList(left, env, st) == ExecList(ss, env, st) && LiveIn(left, out) == LiveIn(ss, out)
    decreases |ss| - i
  {
    hide ExecList, LiveIn, Pair, InRange;
    var s := ThisOp(ss, i);
    if s < |ss| {
      var next := ThisOp(ss, s + 1);
      if next < |ss| {
        var p := Pair(ss[s], ss[next]);
        PairKeeps(ss, s, next, env, st, out);
        PeepKeeps(ss[s := p.0][next := p.1], next, env, st, out);
      }
    }
  }

  /** If `last` names a statement that is there, only deleted ones follow it. */
  lemma {:induction false} LastIsLast(ss: seq<Stmt>, i: nat, last: nat)
    requires i < |ss| && last == i && (ss[i].op != Nop || i == 0)
    ensures var l := LastFrom(ss, i, last); l < |ss| && (ss[l].op != Nop ==> forall k :: l < k < |ss| ==> ss[k].op == Nop)
    decreases |ss| - i
  {
    var s := ThisOp(ss, i);
    if s < |ss| {
      var next := ThisOp(ss, s + 1);
      if next < |ss| {
        LastIsLast(ss, next, next);
      }
    }
  }

  lemma {:induction false} LastReworked(ss: seq<Stmt>, left: seq<Stmt>, i: nat, last: nat)
    requires i <= |ss| && Reworked(ss, left)
    ensures LastFrom(left, i, last) == LastFrom(ss, i, last)
    decreases |ss| - i
  {
    SameNops(ss, left, i);
    var s := ThisOp(ss, i);
    if s < |ss| {
      SameNops(ss, left, s + 1);
      var next := ThisOp(ss, s + 1);
      if next < |ss| {
        LastReworked(ss, left, next, next);
      }
    }
  }

  lemma SameNops(ss: seq<Stmt>, left: seq<Stmt>, i: nat)
    requires i <= |ss| && Reworked(ss, left)
    ensures ThisOp(left, i) == ThisOp(ss, i)
  {
    var s, s' := ThisOp(ss, i), ThisOp(left, i);
    if s < |ss| { assert ReworkedAt(ss[s], left[s]); }
    if s' < |ss| { assert ReworkedAt(ss[s'], left[s']); }
  }

  /** The loop of opt_peep. */
  method PeepList(ss: seq<Stmt>) returns (left: seq<Stmt>, last: nat)
    ensures left == PeepFrom(ss, 0) && last == LastFrom(ss, 0, 0)
  {
    left, last := ss, 0;
    var i := 0;
    PeepReworks(ss, 0, ss);
    while true
      invariant 0 <= i <= |left| && Reworked(ss, left)
      invariant PeepFrom(left, i) == PeepFrom(ss, 0) && LastFrom(left, i, last) == LastFrom(ss, 0, 0)
      decreases |left| - i
    {
      var s := ThisOp(left, i);
      if s == |left| { break; }
      var next := ThisOp(left, s + 1);
      if next == |left| { break; }
      var (x, y) := Pair(left[s], left[next]);
      ghost var before := left;
      left := left[s := x][next := y];
      PairReworks(before, s, next);
      LastReworked(before, left, next, next);
      ReworkedTwice(ss, before, left);
      i, last := next, next;
    }
  }

  lemma PairReworks(ss: seq<Stmt>, i: nat, j: nat)
    requires i < j < |ss|
    ensures Reworked(ss, ss[i := Pair(ss[i], ss[j]).0][j := Pair(ss[i], ss[j]).1])
  {
  }

  lemma ReworkedTwice(ss: seq<Stmt>, mid: seq<Stmt>, left: seq<Stmt>)
    requires Reworked(ss, mid) && Reworked(mid, left)
    ensures Reworked(ss, left)
  {
    forall i | 0 <= i < |ss|
      ensures ReworkedAt(ss[i], left[i])
    {
      assert ReworkedAt(ss[i], mid[i]) && ReworkedAt(mid[i], left[i]);
    }
  }

  // ---------------------------------------------------------------------
  // The branch
  // ---------------------------------------------------------------------

  /** What becomes of `jeq #k` after the statement `s`, when no one needs the accumulator afterwards. */
  datatype Merge = Keep | Against(src: Src, k: u32) | Mask(k: u32)

  /**
   * A subtraction moves into the constant, or into the choice of operand; a mask tested against 0
   * becomes `jset` with the sides exchanged.
   */
  function Merged(t: seq<Node>, b: Block, s: Stmt, val: seq<nat>, outUse: set<nat>): Merge
    requires b.Branch? && |val| == N_ATOMS
  {
    if b.cmp != Jeq || b.src != K || A_ATOM in outUse then Keep
    else if s.op == Alu(Sub, X) then
      match ConstOf(t, val[X_ATOM])
      case Some(c) => Against(K, Plus(b.k, c))
      case None => if b.k == 0 then Against(X, 0) else Keep
    else if s.op == Alu(Sub, K) then Against(K, Plus(b.k, s.k))
    else if s.op == Alu(And, K) && b.k == 0 then Mask(s.k)
    else Keep
  }

  function ApplyMerge(b: Block, last: nat, m: Merge): Block
    requires b.Branch? && last < |b.stmts|
  {
    var stmts := b.stmts[last := b.stmts[last].(op := Nop)];
    match m
    case Keep => b
    case Against(src, k) => b.(stmts := stmts, src := src, k := k)
    case Mask(k) => b.(stmts := stmts, cmp := Jset, k := k, jt := b.jf, jf := b.jt)
  }

  /** `jset #0` is never taken. */
  function NeverSet(b: Block): (r: Block)
    requires b.Branch?
    ensures r.Branch?
  {
    if b.cmp == Jset && b.src == K && b.k == 0 then b.(jt := b.jf) else b
  }

  /** A comparison with an index register of known value. */
  function KnownX(t: seq<Node>, b: Block, val: seq<nat>): (r: Block)
    requires b.Branch? && |val| == N_ATOMS
    ensures r.Branch?
  {
    match ConstOf(t, val[X_ATOM])
    case Some(c) => if b.src == X then b.(src := K, k := c) else b
    case None => b
  }

  /** A comparison whose accumulator is known goes one way. */
  function KnownA(t: seq<Node>, b: Block, val: seq<nat>): Block
    requires b.Branch? && |val| == N_ATOMS
  {
    match ConstOf(t, val[A_ATOM])
    case Some(c) =>
      if b.src != K then b else if Compare(b.cmp, c, b.k) then b.(jf := b.jt) else b.(jt := b.jf)
    case None => b
  }

  /** The branch rules, on a block whose last statement is at `last`. */
  function PeepBranch(t: seq<Node>, b: Block, last: nat, val: seq<nat>, outUse: set<nat>): Block
    requires b.Branch? && last < |b.stmts| && |val| == N_ATOMS
  {
    KnownA(t, KnownX(t, NeverSet(ApplyMerge(b, last, Merged(t, b, b.stmts[last], val, outUse))), val), val)
  }

  /** opt_peep on a block whose statements leave the numbers `val`. */
  function PeepBlock(t: seq<Node>, b: Block, val: seq<nat>, outUse: set<nat>): Block
    requires |val| == N_ATOMS
  {
    if b.stmts == [] then b
    else
      PeepReworks(b.stmts, 0, b.stmts);
      LastIsLast(b.stmts, 0, 0);
      var b' := WithStmts(b, PeepFrom(b.stmts, 0));
      if b.Leaf? then b' else PeepBranch(t, b', LastFrom(b.stmts, 0, 0), val, outUse)
  }

  /** The switch over the comparison has no case for a return. */
  predicate PeepAborts(t: seq<Node>, b: Block, val: seq<nat>)
    requires |val| == N_ATOMS
  {
    b.Leaf? && b.stmts != [] && ConstOf(t, val[A_ATOM]).Some?
  }

  /** What opt_peep merges into the block's branch. */
  ghost function MergedInto(t: seq<Node>, b: Block, val: seq<nat>, outUse: set<nat>): Merge
    requires |val| == N_ATOMS
  {
    if b.Leaf? || b.stmts == [] then Keep
    else
      PeepReworks(b.stmts, 0, b.stmts);
      LastIsLast(b.stmts, 0, 0);
      Merged(t, WithStmts(b, PeepFrom(b.stmts, 0)), PeepFrom(b.stmts, 0)[LastFrom(b.stmts, 0, 0)], val, outUse)
  }

  // ---------------------------------------------------------------------
  // What the branch rules keep
  // ---------------------------------------------------------------------

  /** The atoms of `on` that the numbers say are constant hold those constants. */
  ghost predicate ConstsHold(t: seq<Node>, val: seq<nat>, st: State, on: set<nat>)
    requires |val| == N_ATOMS
  {
    && (A_ATOM in on && ConstOf(t, val[A_ATOM]).Some? ==> st.a == ConstOf(t, val[A_ATOM]).value)
    && (X_ATOM in on && ConstOf(t, val[X_ATOM]).Some? ==> st.x == ConstOf(t, val[X_ATOM]).value)
  }

  /** Deleting the last statement of a list undoes it. */
  lemma WithoutLast(ss: seq<Stmt>, last: nat, env: Env, st: State, out: set<nat>)
    requires last < |ss| && forall k :: last < k < |ss| ==> ss[k].op == Nop
    ensures var e, s := ExecList(ss[last := ss[last].(op := Nop)], env, st), ss[last];
            && (ExecList(ss, env, st) == match e case Next(s1) => Exec(s.op, s.k, env, s1) case _ => e)
            && LiveIn(ss, out) == LiveIn(ss[last := s.(op := Nop)], LiveIn([s], out))
  {
    hide Exec, ExecList, LiveIn;
    var s, n := ss[last], ss[last].(op := Nop);
    var pre, post := ss[..last], ss[last + 1..];
    assert ss == pre + ([s] + post) && ss[last := n] == pre + ([n] + post);
    EndsWith(pre, s, post, env, st, out);
    EndsWith(pre, n, post, env, st, LiveIn([s], out));
    One(n, env, st, LiveIn([s], out));
    assert LiveIn([n], LiveIn([s], out)) == LiveIn([s], out);
    var e := ExecList(pre, env, st);
    if e.Next? {
      NopSkips(n, env, e.st);
    }
  }

  lemma EndsWith(pre: seq<Stmt>, s: Stmt, post: seq<Stmt>, env: Env, st: State, out: set<nat>)
    requires forall k :: 0 <= k < |post| ==> post[k].op == Nop
    ensures ExecList(pre + ([s] + post), env, st) ==
            match ExecList(pre, env, st) case Next(s1) => Exec(s.op, s.k, env, s1) case e => e
    ensures LiveIn(pre + ([s] + post), out) == LiveIn(pre, LiveIn([s], out))
  {
    hide Exec, ExecList, LiveIn;
    ExecConcat(pre, [s] + post, env, st);
    LiveInConcat(pre, [s] + post, out);
    LiveInConcat([s], post, out);
    NopsRun(post, env, st, out);
    var e := ExecList(pre, env, st);
    if e.Next? {
      ExecConcat([s], post, env, e.st);
      One(s, env, e.st, {});
      var e' := Exec(s.op, s.k, env, e.st);
      if e'.Next? {
        NopsRun(post, env, e'.st, {});
      }
    }
  }

  /** The list without its last statement leaves an accumulator that tests the same. */
  ghost predicate SameRoute(b: Block, st: State, b': Block, st': State) {
    && b.Branch? && b'.Branch? && st'.x == st.x && st'.mem == st.mem
    && Successor(b', Taken(b', st')) == Successor(b, Taken(b, st))
  }

  lemma DifferenceEquals(a: u32, x: u32, k: u32)
    ensures Minus(a, x) == k <==> a == Plus(k, x)
    ensures Minus(a, x) == 0 <==> a == x
  {
  }

  /** A test against a constant after a subtraction, or a mask tested against 0, without the statement. */
  lemma TestsWithout(k: u32, c: u32, s1: State)
    ensures Test(Jeq, K, c, s1.(a := Minus(s1.a, k))) <==> Test(Jeq, K, Plus(c, k), s1)
    ensures Test(Jeq, K, 0, s1.(a := Minus(s1.a, s1.x))) <==> Test(Jeq, X, 0, s1)
    ensures Test(Jeq, K, 0, s1.(a := BitAnd(s1.a, k))) <==> !Test(Jset, K, k, s1)
  {
    hide BitAnd;
    DifferenceEquals(s1.a, k, c);
    DifferenceEquals(s1.a, s1.x, 0);
  }

  /** The effect of the statements that can be merged into a branch. */
  lemma MergeableRuns(s: Stmt, env: Env, s1: State, s2: State)
    requires s.op == Alu(Sub, X) || s.op == Alu(Sub, K) || s.op == Alu(And, K)
    requires Exec(s.op, s.k, env, s1) == Next(s2)
    ensures s2 == s1.(a := if s.op == Alu(And, K) then BitAnd(s1.a, s.k) else Minus(s1.a, if s.op.src == X then s1.x else s.k))
  {
    hide BitAnd, Minus;
  }

  /** `s` subtracts its operand from the accumulator. */
  ghost predicate Subtracts(s: Stmt, before: State, after: State) {
    s.op.Alu? && s.op.alu == Sub && after.a == Minus(before.a, if s.op.src == X then before.x else s.k)
  }

  /** Merging the last statement into the branch keeps the side that is taken, and what is needed. */
  lemma MergeKeeps(t: seq<Node>, b: Block, last: nat, val: seq<nat>, outUse: set<nat>, env: Env, st: State, s: State)
    requires b.Branch? && last < |b.stmts| && |val| == N_ATOMS && ExecList(b.stmts, env, st) == Next(s)
    requires b.stmts[last].op != Nop ==> forall k :: last < k < |b.stmts| ==> b.stmts[k].op == Nop
    requires b.stmts[last].op == Alu(Sub, X) ==> ConstsHold(t, val, s, {X_ATOM})
    ensures var m := Merged(t, b, b.stmts[last], val, outUse);
            var b' := ApplyMerge(b, last, m);
            var e := ExecList(b'.stmts, env, st);
            && e.Next? && SameRoute(b, s, b', e.st) && (m.Keep? ==> e.st == s) && (!m.Mask? ==> Taken(b', e.st) == Taken(b, s))
            && (m.Against? ==> Subtracts(b.stmts[last], e.st, s))
  {
    hide ExecList, ConstOf, Exec, BitAnd, Minus, Plus, Test;
    var m, last' := Merged(t, b, b.stmts[last], val, outUse), b.stmts[last];
    if !m.Keep? {
      WithoutLast(b.stmts, last, env, st, {});
      var s1 := ExecList(ApplyMerge(b, last, m).stmts, env, st).st;
      MergeableRuns(last', env, s1, s);
      TestsWithout(if last'.op == Alu(Sub, X) then s1.x else last'.k, b.k, s1);
    }
  }

  lemma {:induction false} MoreNeeded(ss: seq<Stmt>, out: set<nat>, out': set<nat>)
    requires out' <= out
    ensures LiveIn(ss, out') <= LiveIn(ss, out)
  {
    hide LiveIn;
    forall a | a in LiveIn(ss, out')
      ensures a in LiveIn(ss, out)
    {
      LiveInMono(ss, out, out', a);
    }
  }

  lemma MergeNeeds(t: seq<Node>, b: Block, last: nat, val: seq<nat>, outUse: set<nat>, out: set<nat>)
    requires b.Branch? && last < |b.stmts| && |val| == N_ATOMS
    requires b.stmts[last].op != Nop ==> forall k :: last < k < |b.stmts| ==> b.stmts[k].op == Nop
    ensures var b' := ApplyMerge(b, last, Merged(t, b, b.stmts[last], val, outUse));
            LiveIn(b'.stmts, BranchUses(b') + out) <= LiveIn(b.stmts, BranchUses(b) + out)
  {
    hide LiveIn, ConstOf;
    var s, m := b.stmts[last], Merged(t, b, b.stmts[last], val, outUse);
    var b' := ApplyMerge(b, last, m);
    if !m.Keep? {
      var env, st := Env([], 0), State(0, 0, seq(16, _ => 0));
      WithoutLast(b.stmts, last, env, st, BranchUses(b) + out);
      One(s, env, st, BranchUses(b) + out);
      MoreNeeded(b'.stmts, LiveIn([s], BranchUses(b) + out), BranchUses(b') + out);
    }
  }

  /** The rules on known values keep the side that is taken. */
  lemma KnownKeeps(t: seq<Node>, b: Block, val: seq<nat>, st: State)
    requires b.Branch? && |val| == N_ATOMS && ConstsHold(t, val, st, if b.src == X then {A_ATOM, X_ATOM} else {A_ATOM})
    ensures var b' := KnownA(t, KnownX(t, NeverSet(b), val), val);
            SameRoute(b, st, b', st) && Taken(b', st) == Taken(b, st) && b'.stmts == b.stmts && BranchUses(b') <= BranchUses(b)
  {
    hide ConstOf;
    assert b.cmp == Jset && b.src == K && b.k == 0 ==> !Taken(b, st) by { AndZero(st.a); }
  }

  lemma AndZero(a: u32)
    ensures !Compare(Jset, a, 0)
  {
    BitsZero(a);
  }

  /** The atoms whose constants the branch rules consult. */
  ghost predicate Consults(b: Block, on: set<nat>)
    requires b.Branch?
  {
    A_ATOM in on && (X_ATOM in on || (b.src == K && forall i :: 0 <= i < |b.stmts| ==> b.stmts[i].op != Alu(Sub, X)))
  }

  /**
   * opt_peep keeps the side a branch takes and the contents of X and the scratch memory; it keeps
   * the accumulator unless it merges the last statement into the branch.
   */
  lemma PeepRight(t: seq<Node>, b: Block, val: seq<nat>, outUse: set<nat>, env: Env, st: State, on: set<nat>)
    requires b.Branch? && |val| == N_ATOMS && ListInRange(b.stmts) && ExecList(b.stmts, env, st).Next?
    requires ConstsHold(t, val, ExecList(b.stmts, env, st).st, on) && Consults(b, on)
    requires MergedInto(t, b, val, outUse).Keep? || ConstOf(t, val[A_ATOM]) == None
    ensures var b', s, m := PeepBlock(t, b, val, outUse), ExecList(b.stmts, env, st).st, MergedInto(t, b, val, outUse);
            Carried(b, s, b', ExecList(b'.stmts, env, st), m)
  {
    hide ExecList, Subtracts, Test, EndsAt, ConstOf, KnownA, KnownX, NeverSet, Merged, ApplyMerge, PeepFrom, LastFrom;
    if b.stmts != [] {
      var ss, last, s := PeepFrom(b.stmts, 0), LastFrom(b.stmts, 0, 0), ExecList(b.stmts, env, st).st;
      PeepEnds(b.stmts);
      PeepKeeps(b.stmts, 0, env, st, {});
      var b1 := WithStmts(b, ss);
      if ss[last].op == Alu(Sub, X) { StillSubtracts(b.stmts, last); }
      MergeKeeps(t, b1, last, val, outUse, env, st, s);
      var b2 := ApplyMerge(b1, last, Merged(t, b1, ss[last], val, outUse));
      MergedFacts(t, b1, last, val, outUse);
      var s2 := ExecList(b2.stmts, env, st).st;
      KnownKeeps(t, b2, val, s2);
      if MergedInto(t, b, val, outUse).Against? {
        LastAlu(b.stmts, last);
        assert EndsAt(b.stmts, last) && Subtracts(b.stmts[last], s2, s);
      }
    }
  }

  /**
   * A run that leaves `b` in state `s` leaves `b'` with the effect `e`, on the same route; only
   * what was merged into the branch is missing from the accumulator.
   */
  ghost predicate Carried(b: Block, s: State, b': Block, e: Effect, m: Merge) {
    && e.Next? && SameRoute(b, s, b', e.st) && (m.Keep? ==> e.st == s)
    && (!m.Mask? ==> Taken(b', e.st) == Taken(b, s))
    && (m.Against? ==> exists i: nat :: EndsAt(b.stmts, i) && Subtracts(b.stmts[i], e.st, s))
  }

  /** The statement at `i` is the last that is not deleted. */
  ghost predicate EndsAt(ss: seq<Stmt>, i: nat) {
    i < |ss| && ss[i].op != Nop && forall k :: i < k < |ss| ==> ss[k].op == Nop
  }

  lemma LastAlu(ss: seq<Stmt>, last: nat)
    requires ss != [] && last == LastFrom(ss, 0, 0) && last < |ss| && Reworked(ss, PeepFrom(ss, 0))
    requires PeepFrom(ss, 0)[last].op.Alu?
    ensures EndsAt(ss, last) && ss[last] == PeepFrom(ss, 0)[last]
  {
    hide PeepFrom, LastFrom;
    var left := PeepFrom(ss, 0);
    PeepEnds(ss);
    assert forall k :: 0 <= k < |ss| ==> ReworkedAt(ss[k], left[k]);
  }

  lemma PeepEnds(ss: seq<Stmt>)
    requires ss != []
    ensures Reworked(ss, PeepFrom(ss, 0)) && LastFrom(ss, 0, 0) < |ss|
    ensures PeepFrom(ss, 0)[LastFrom(ss, 0, 0)].op != Nop ==>
              forall k :: LastFrom(ss, 0, 0) < k < |ss| ==> PeepFrom(ss, 0)[k].op == Nop
  {
    hide PeepFrom, LastFrom;
    var left := PeepFrom(ss, 0);
    PeepReworks(ss, 0, ss);
    LastIsLast(ss, 0, 0);
    assert forall k :: 0 <= k < |ss| ==> ReworkedAt(ss[k], left[k]);
  }

  lemma StillSubtracts(ss: seq<Stmt>, i: nat)
    requires i < |ss| && |PeepFrom(ss, 0)| == |ss| && PeepFrom(ss, 0)[i].op == Alu(Sub, X)
    ensures ss[i].op == Alu(Sub, X)
  {
    hide PeepFrom;
    PeepReworks(ss, 0, ss);
    assert ReworkedAt(ss[i], PeepFrom(ss, 0)[i]);
  }

  /** Where the merged branch looks for its operand. */
  lemma MergedFacts(t: seq<Node>, b: Block, last: nat, val: seq<nat>, outUse: set<nat>)
    requires b.Branch? && last < |b.stmts| && |val| == N_ATOMS
    ensures var m := Merged(t, b, b.stmts[last], val, outUse);
            var b' := ApplyMerge(b, last, m);
            && b'.Branch? && (b'.src == X ==> b.src == X || b.stmts[last].op == Alu(Sub, X))
            && (!m.Mask? ==> b'.cmp == b.cmp)
            && if m.Keep? then b' == b else b.src == K && b.stmts[last].op.Alu?
  {
  }

  /** What the branch of a block still reads after the rules on known values. */
  ghost function Asks(t: seq<Node>, b: Block, val: seq<nat>): (s: set<nat>)
    requires |val| == N_ATOMS
    ensures s <= BranchUses(b)
  {
    if b.Branch? && b.stmts != [] && ConstOf(t, val[X_ATOM]).Some? then {A_ATOM} else BranchUses(b)
  }

  /** The block that is left needs no more than the original. */
  lemma PeepNeeds(t: seq<Node>, b: Block, val: seq<nat>, outUse: set<nat>, out: set<nat>)
    requires |val| == N_ATOMS && ListInRange(b.stmts)
    ensures var b' := PeepBlock(t, b, val, outUse);
            LiveIn(b'.stmts, BranchUses(b') + out) <= LiveIn(b.stmts, Asks(t, b, val) + out)
  {
    hide LiveIn, ConstOf, NeverSet, Merged, ApplyMerge, PeepFrom, LastFrom;
    if b.stmts != [] {
      var ss, last := PeepFrom(b.stmts, 0), LastFrom(b.stmts, 0, 0);
      var env, st := Env([], 0), State(0, 0, seq(16, _ => 0));
      PeepEnds(b.stmts);
      var b1 := WithStmts(b, ss);
      PeepKeeps(b.stmts, 0, env, st, Asks(t, b, val) + out);
      if b.Branch? {
        var m := Merged(t, b1, ss[last], val, outUse);
        var b2 := ApplyMerge(b1, last, m);
        MergeNeeds(t, b1, last, val, outUse, out);
        MergedFacts(t, b1, last, val, outUse);
        KnownShape(t, b2, val);
        var b3 := KnownA(t, KnownX(t, NeverSet(b2), val), val);
        MoreNeeded(b3.stmts, BranchUses(b2) + out, BranchUses(b3) + out);
        if m.Keep? {
          MoreNeeded(b3.stmts, Asks(t, b, val) + out, BranchUses(b3) + out);
        }
      }
    }
  }

  lemma KnownShape(t: seq<Node>, b: Block, val: seq<nat>)
    requires b.Branch? && |val| == N_ATOMS
    ensures var b' := KnownA(t, KnownX(t, NeverSet(b), val), val);
            && b'.Branch? && b'.stmts == b.stmts && BranchUses(b') <= BranchUses(b) && b'.cmp == b.cmp
            && IsSuccessor(b, b'.jt) && IsSuccessor(b, b'.jf) && (b.src == K ==> b'.src == K && b'.k == b.k)
  {
    hide ConstOf;
  }

  /** The statements that are left, and the edges. */
  ghost predicate Peeped(b: Block, b': Block) {
    && |b'.stmts| == |b.stmts|
    && (forall i :: 0 <= i < |b.stmts| ==> b'.stmts[i].op == Nop || ReworkedAt(b.stmts[i], b'.stmts[i]))
    && (if b.Leaf? then b' == WithStmts(b, b'.stmts) else b'.Branch? && IsSuccessor(b, b'.jt) && IsSuccessor(b, b'.jf))
  }

  lemma PeepShape(t: seq<Node>, b: Block, val: seq<nat>, outUse: set<nat>)
    requires |val| == N_ATOMS
    ensures Peeped(b, PeepBlock(t, b, val, outUse))
  {
    hide ConstOf, KnownA, KnownX, NeverSet, PeepFrom, LastFrom;
    if b.stmts != [] {
      PeepEnds(b.stmts);
      var ss, last := PeepFrom(b.stmts, 0), LastFrom(b.stmts, 0, 0);
      if b.Branch? {
        var b1 := WithStmts(b, ss);
        var b2 := ApplyMerge(b1, last, Merged(t, b1, ss[last], val, outUse));
        KnownShape(t, b2, val);
      }
    }
  }

  // ---------------------------------------------------------------------
  // Two rules that are not among these
  // ---------------------------------------------------------------------

  /** opt_peep takes `jset #ffffffff` for always taken: it is, exactly where the accumulator is not 0. */
  lemma AllOnesTaken(st: State)
    ensures Test(Jset, K, 0xffff_ffff, st) <==> st.a != 0
  {
    hide Word, Value, AndW;
    WordValue(st.a);
    AllOnesWord();
    KeepsAllBits(Word(st.a));
  }

  lemma AllOnesWord()
    ensures Word(0xffff_ffff) == 0xffff_ffff
  {
    var x := WordOf(0xffff_ffff);
    LastWord(x);
    WordRoundTrip(x);
  }

  lemma KeepsAllBits(x: bv32)
    ensures AndW(x, 0xffff_ffff) == x
  {
  }

  /**
   * opt_peep turns `ld #k; add x; tax; ld [x+j]` into `ld [x+(j+k)]`. The load is the same where
   * neither sum wraps; where the original index wraps round, the new load rejects every packet.
   */
  lemma IndexSum(k: u32, j: u32, x: u32, p: Packet, size: Size)
    ensures k + x < TWO32 && j + k < TWO32 ==> Load(p, Plus(k, x) + j, size) == Load(p, x + Plus(j, k), size)
    ensures k + x >= TWO32 && j + k < TWO32 ==> Load(p, x + Plus(j, k), size) == None
  {
    NoWrap(k, x);
    NoWrap(j, k);
  }

  /** With 1 in X, `ld #ffffffff; add x; tax; ldb [x+0]` reads byte 0; its replacement rejects the packet. */
  lemma IndexSumFails(p: Packet)
    requires |p| > 0
    ensures Load(p, Plus(0xffff_ffff, 1) + 0, B) == Some(p[0]) && Load(p, 1 + Plus(0, 0xffff_ffff), B) == None
  {
    IndexSum(0xffff_ffff, 0, 1, p, B);
  }
}
