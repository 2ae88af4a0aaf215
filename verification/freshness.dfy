/**
 * When a statement pass deletes nothing that is still needed. The pass judges dead stores by
 * live-out sets from before it started, while opt_stmt deletes definitions on the word of the
 * predecessors' numbers (opt_blk of optimize.c).
 */
module Freshness {
  import opened Words
  import opened Bpf
  import opened Cfg
  import opened Liveness
  import opened ValueNumbers
  import opened Peephole
  import opened StatementPass
  import opened Rewriting
  import Analysis

  // ---------------------------------------------------------------------
  // Definitions deleted from one list
  // ---------------------------------------------------------------------

  /** opt_stmt leaves `txa` and `stx` alone when X is known. */
  predicate NoMoves(ss: seq<Stmt>) { forall i :: 0 <= i < |ss| ==> ss[i].op != Txa && ss[i].op != Stx }

  /** The atom has a constant number, which every use of it in the list is replaced by. */
  ghost predicate Constant(t: seq<Node>, ss: seq<Stmt>, val: seq<nat>, a: nat) {
    NoMoves(ss) && a != A_ATOM && a < |val| && ConstOf(t, val[a]).Some?
  }

  lemma ConstNotUsed(t: seq<Node>, s: Stmt, val: seq<nat>, a: nat)
    requires |val| == N_ATOMS && GoodStmt(s) && OptStmt(t, s, val, true).Done? && Constant(t, [s], val, a)
    ensures a !in Uses(OptStmt(t, s, val, true).s)
  {
    hide AluX, Find, Enter, Number, SetNew;
    assert [s][0].op != Txa && [s][0].op != Stx;
  }

  lemma NoMovesTail(ss: seq<Stmt>)
    requires NoMoves(ss) && ss != []
    ensures NoMoves([ss[0]]) && NoMoves(ss[1..])
  {
  }

  lemma ConstStays(t: seq<Node>, s: Stmt, val: seq<nat>, a: nat)
    requires WellNumbered(t) && InTable(t, val) && GoodStmt(s) && OptStmt(t, s, val, true).Done?
    requires a < N_ATOMS && ConstOf(t, val[a]).Some? && Defs(OptStmt(t, s, val, true).s) != Some(a)
    ensures var r := OptStmt(t, s, val, true); |r.val| == N_ATOMS && ConstOf(r.t, r.val[a]).Some?
  {
    hide OptStmt, WellNumbered, Uses, Defs, Names;
    OptStmtShape(t, s, val, true);
    OptStmtNumbers(t, s, val, true);
    OptStmtLeaner(t, s, val, true);
  }

  lemma LiveInFirst(ss: seq<Stmt>, out: set<nat>, a: nat)
    requires ss != [] && a in LiveIn(ss, out) && a !in Uses(ss[0])
    ensures a in LiveIn(ss[1..], out) && Defs(ss[0]) != Some(a)
  {
    hide Uses, Defs;
  }

  /** Such an atom is not read by the rewritten list; if it is needed, then after it. */
  lemma {:induction false} ConstUnread(t: seq<Node>, ss: seq<Stmt>, val: seq<nat>, out: set<nat>, a: nat)
    requires WellNumbered(t) && InTable(t, val) && GoodList(ss) && OptList(t, ss, val, true).DoneList?
    requires Constant(t, ss, val, a) && a in LiveIn(OptList(t, ss, val, true).ss, out)
    ensures var r := OptList(t, ss, val, true); a in out && |r.val| == N_ATOMS && ConstOf(r.t, r.val[a]).Some?
    decreases |ss|
  {
    hide OptStmt, WellNumbered, Uses, Defs, NoMoves, OptList, LiveIn, ConstOf;
    if ss == [] {
      OptListNil(t, ss, val, true);
      assert ss[..0] == ss;
      LiveInNothing(out);
    } else {
      var r, w := OptStmt(t, ss[0], val, true), OptList(t, ss, val, true);
      OptListStep(t, ss, val, true);
      NoMovesTail(ss);
      ConstNotUsed(t, ss[0], val, a);
      var r' := OptList(r.t, ss[1..], r.val, true);
      assert w.ss[1..] == r'.ss;
      LiveInFirst(w.ss, out, a);
      ConstStays(t, ss[0], val, a);
      ConstUnread(r.t, ss[1..], r.val, out, a);
    }
  }

  lemma NopUses(s: Stmt)
    ensures s.op == Nop ==> Uses(s) == {} && Defs(s) == None
  {
  }

  /**
   * The first definition of `a` in the list that opt_stmt deletes, before any that it leaves; it
   * does not matter where `a` is a known constant there and not used after the list.
   */
  ghost predicate DropsAt(t: seq<Node>, ss: seq<Stmt>, val: seq<nat>, outUse: set<nat>, alter: bool, i: nat, a: nat)
    requires WellNumbered(t) && InTable(t, val) && GoodList(ss) && OptList(t, ss, val, alter).DoneList? && i < |ss|
  {
    var r, before := OptList(t, ss, val, alter), OptList(t, ss[..i], val, alter);
    && |r.ss| == |ss| && Defs(ss[i]) == Some(a) && r.ss[i].op == Nop && !Defines(r.ss[..i], a)
    && !(a !in outUse && before.DoneList? && Constant(before.t, ss[i..], before.val, a))
  }

  lemma DropsNext(t: seq<Node>, ss: seq<Stmt>, val: seq<nat>, outUse: set<nat>, alter: bool, i: nat, a: nat)
    requires WellNumbered(t) && InTable(t, val) && GoodList(ss) && OptList(t, ss, val, alter).DoneList? && 0 < i < |ss|
    requires var r := OptStmt(t, ss[0], val, alter);
             && r.Done? && Defs(r.s) != Some(a) && WellNumbered(r.t) && InTable(r.t, r.val) && GoodList(ss[1..])
             && OptList(r.t, ss[1..], r.val, alter).DoneList? && DropsAt(r.t, ss[1..], r.val, outUse, alter, i - 1, a)
    ensures DropsAt(t, ss, val, outUse, alter, i, a)
  {
    hide OptStmt, WellNumbered, Defs, OptList, Constant;
    var r, w := OptStmt(t, ss[0], val, alter), OptList(t, ss, val, alter);
    OptListStep(t, ss, val, alter);
    var r' := OptList(r.t, ss[1..], r.val, alter);
    assert w.ss[..i][0] == r.s && w.ss[..i][1..] == r'.ss[..i - 1];
    DefinesCons(w.ss[..i], a);
    PrefixDone(r.t, ss[1..], r.val, alter, i - 1);
    PrefixStep(t, ss, val, alter, i);
    assert ss[1..][i - 1..] == ss[i..];
  }

  lemma {:induction false} PrefixDone(t: seq<Node>, ss: seq<Stmt>, val: seq<nat>, alter: bool, i: nat)
    requires WellNumbered(t) && InTable(t, val) && GoodList(ss) && OptList(t, ss, val, alter).DoneList? && i <= |ss|
    ensures OptList(t, ss[..i], val, alter).DoneList?
    decreases |ss|
  {
    hide OptStmt, WellNumbered;
    if i > 0 {
      var r := OptStmt(t, ss[0], val, alter);
      OptListStep(t, ss, val, alter);
      PrefixDone(r.t, ss[1..], r.val, alter, i - 1);
      PrefixStep(t, ss, val, alter, i);
    }
  }

  /** A list none of whose definitions of `a` is dropped needs `a` if the rewritten list does. */
  lemma {:induction false} RewriteNeeds(t: seq<Node>, ss: seq<Stmt>, val: seq<nat>, alter: bool, asks: set<nat>,
                                        outUse: set<nat>, a: nat)
    requires WellNumbered(t) && InTable(t, val) && GoodList(ss) && OptList(t, ss, val, alter).DoneList?
    requires forall i :: 0 <= i < |ss| ==> !DropsAt(t, ss, val, outUse, alter, i, a)
    requires var r := OptList(t, ss, val, alter);
             && |r.val| == N_ATOMS && asks <= {A_ATOM, X_ATOM} && (X_ATOM in asks ==> ConstOf(r.t, r.val[X_ATOM]) == None)
             && a in LiveIn(r.ss, asks + outUse)
    ensures a in LiveIn(ss, asks + outUse)
    decreases |ss|
  {
    hide OptStmt, WellNumbered, Uses, Defs, DropsAt, ConstOf, Constant, OptList;
    if ss == [] {
      OptListNil(t, ss, val, alter);
      assert ss[..0] == ss;
    } else {
      var r, w, out := OptStmt(t, ss[0], val, alter), OptList(t, ss, val, alter), asks + outUse;
      OptListStep(t, ss, val, alter);
      OptStmtLeaner(t, ss[0], val, alter);
      var r' := OptList(r.t, ss[1..], r.val, alter);
      assert w.ss[1..] == r'.ss && w.ss[0] == r.s;
      if a !in Uses(ss[0]) {
        assert a in LiveIn(r'.ss, out) && Defs(r.s) != Some(a);
        if Defs(ss[0]) == Some(a) {
          DroppedConst(t, ss, val, alter, asks, outUse, a);
        }
        forall i | 0 <= i < |ss[1..]|
          ensures !DropsAt(r.t, ss[1..], r.val, outUse, alter, i, a)
        {
          assert !DropsAt(t, ss, val, outUse, alter, i + 1, a);
          if DropsAt(r.t, ss[1..], r.val, outUse, alter, i, a) {
            DropsNext(t, ss, val, outUse, alter, i + 1, a);
          }
        }
        RewriteNeeds(r.t, ss[1..], r.val, alter, asks, outUse, a);
      }
    }
  }

  /** A first statement that defines `a` and is deleted without being dropped: `a` is not needed. */
  lemma DroppedConst(t: seq<Node>, ss: seq<Stmt>, val: seq<nat>, alter: bool, asks: set<nat>, outUse: set<nat>, a: nat)
    requires WellNumbered(t) && InTable(t, val) && GoodList(ss) && OptList(t, ss, val, alter).DoneList? && ss != []
    requires !DropsAt(t, ss, val, outUse, alter, 0, a) && Defs(ss[0]) == Some(a)
    requires var r, w := OptStmt(t, ss[0], val, alter), OptList(t, ss, val, alter);
             && |w.val| == N_ATOMS && asks <= {A_ATOM, X_ATOM} && (X_ATOM in asks ==> ConstOf(w.t, w.val[X_ATOM]) == None)
             && r.Done? && Defs(r.s) != Some(a)
    ensures a !in LiveIn(OptList(t, ss, val, alter).ss, asks + outUse)
  {
    hide OptStmt, WellNumbered, Uses, Defs, ConstOf, OptList, LiveIn;
    var r, w := OptStmt(t, ss[0], val, alter), OptList(t, ss, val, alter);
    OptListStep(t, ss, val, alter);
    OptStmtLeaner(t, ss[0], val, alter);
    OptListNil(t, ss, val, alter);
    assert w.ss[..0] == [] && ss[0..] == ss;
    assert Constant(t, ss, val, a) && alter;
    if a in LiveIn(w.ss, asks + outUse) {
      ConstUnread(t, ss, val, asks + outUse, a);
    }
  }

  // ---------------------------------------------------------------------
  // Definitions dropped from a block, and definitions lost
  // ---------------------------------------------------------------------

  /** The pass relies on the value `a` has on entry to block `d`, where the block used to define it first. */
  ghost predicate Drops(c: Setting, p: PassState, d: nat, a: nat)
    requires Sized(c, p) && d < |c.g| && PassedAt(c, p, d)
  {
    if IsCleared(c, p, d) then a in BranchUses(c.g[d]) && Defines(c.g[d].stmts, a)
    else
      var ss := c.g[d].stmts;
      exists i :: 0 <= i < |ss| && DropsAt(p.before[d], ss, p.entry[d], c.outUse[d], c.alter, i, a)
  }

  /** A block that drops no definition of `a` needs `a` only if it did before the pass. */
  lemma BlockNeeds(c: Setting, p: PassState, d: nat, a: nat, out: set<nat>)
    requires Sized(c, p) && d < |c.g| && PassedAt(c, p, d) && !Drops(c, p, d, a) && (a in out ==> c.g[d].Branch? && a in c.outUse[d])
    requires a in LiveIn(p.g[d].stmts, BranchUses(p.g[d]) + out)
    ensures a in LiveIn(c.g[d].stmts, BranchUses(c.g[d]) + c.outUse[d])
  {
    hide LiveIn, OptList, WellNumbered, EdgeInto, EntryOf, Strip, PeepBlock, DropsAt, Left, Reads, IsCleared;
    var b, outUse := c.g[d], c.outUse[d];
    if IsCleared(c, p, d) {
      ClearedNeeds(c, p, d, a, out);
    } else {
      var r := Renumbered(c, p, d);
      var b1 := WithStmts(b, r.ss);
      var f := Peepholed(c, p, d);
      LeftIs(c, p, d);
      LiveInMono(p.g[d].stmts, BranchUses(f) + outUse, BranchUses(f) + out, a);
      StripNeedsLess(f.stmts, BranchUses(f) + outUse);
      OptListShape(p.before[d], b.stmts, p.entry[d], c.alter);
      OptListLeaner(p.before[d], b.stmts, p.entry[d], c.alter);
      LeanerInRange(b.stmts, r.ss);
      PeepNeeds(r.t, b1, p.exit[d], outUse, outUse);
      var asks := Asks(r.t, b1, p.exit[d]);
      if b.stmts != [] {
        RewriteNeeds(p.before[d], b.stmts, p.entry[d], c.alter, asks, outUse, a);
      }
      MoreNeeded(b.stmts, BranchUses(b) + outUse, asks + outUse);
    }
  }

  lemma LeftIs(c: Setting, p: PassState, d: nat)
    requires Sized(c, p) && d < |c.g| && PassedAt(c, p, d) && !IsCleared(c, p, d)
    ensures var f := Peepholed(c, p, d); p.g[d] == WithStmts(f, Strip(f.stmts, BranchUses(f) + c.outUse[d]))
  {
    hide OptList, WellNumbered, EdgeInto, EntryOf, Strip, PeepBlock;
  }

  lemma ClearedNeeds(c: Setting, p: PassState, d: nat, a: nat, out: set<nat>)
    requires Sized(c, p) && d < |c.g| && PassedAt(c, p, d) && !Drops(c, p, d, a) && (a in out ==> c.g[d].Branch? && a in c.outUse[d])
    requires IsCleared(c, p, d) && a in LiveIn(p.g[d].stmts, BranchUses(p.g[d]) + out)
    ensures a in LiveIn(c.g[d].stmts, BranchUses(c.g[d]) + c.outUse[d])
  {
    hide LiveIn, OptList, WellNumbered, EdgeInto, EntryOf, PeepBlock, DropsAt;
    assert p.g[d] == WithStmts(c.g[d], []);
    LiveInNothing(BranchUses(c.g[d]) + out);
    LiveInReads(c.g[d].stmts, BranchUses(c.g[d]) + c.outUse[d], a);
  }

  /** No block from `d` on drops a definition of `a` before another one remains. */
  ghost predicate Undisturbed(c: Setting, p: PassState, d: nat, a: nat)
    requires Sized(c, p)
  {
    forall q :: TrailFrom(c.g, d, q) && Undefined(p.g, q, a) ==>
                  var e := q[|q| - 1]; e < |c.g| && PassedAt(c, p, e) ==> !Drops(c, p, e, a)
  }

  /** No block of the path but the last defines `a`. */
  ghost predicate Undefined(g: Graph, q: seq<nat>, a: nat) {
    forall i :: 0 <= i < |q| - 1 ==> q[i] < |g| && !Defines(g[q[i]].stmts, a)
  }

  lemma UndisturbedHere(c: Setting, p: PassState, d: nat, a: nat)
    requires Sized(c, p) && d < |c.g| && PassedAt(c, p, d) && Undisturbed(c, p, d, a)
    ensures !Drops(c, p, d, a)
  {
    hide Drops, PassedAt;
    var q := [d];
    assert TrailFrom(c.g, d, q) && Undefined(p.g, q, a) && q[|q| - 1] == d;
  }

  lemma UndisturbedNext(c: Setting, p: PassState, d: nat, e: nat, a: nat)
    requires Sized(c, p) && d < |c.g| && Undisturbed(c, p, d, a) && IsSuccessor(c.g[d], e) && !Defines(p.g[d].stmts, a)
    ensures Undisturbed(c, p, e, a)
  {
    hide Drops, PassedAt, Defines;
    forall q | TrailFrom(c.g, e, q) && Undefined(p.g, q, a)
      ensures var f := q[|q| - 1]; f < |c.g| && PassedAt(c, p, f) ==> !Drops(c, p, f, a)
    {
      var q' := [d] + q;
      assert q'[1..] == q;
      assert TrailFrom(c.g, d, q') && Undefined(p.g, q', a) && q'[|q'| - 1] == q[|q| - 1];
    }
  }

  lemma LiveAtIs(g: Graph, b: nat, a: nat)
    requires b < |g| && (g[b].Branch? ==> g[b].jt < |g| && g[b].jf < |g|) && a < N_ATOMS
    ensures LiveAt(g, b, a) <==> a in LiveIn(g[b].stmts, BranchUses(g[b]) + LiveOut(g, b))
  {
    hide LiveAt, LiveIn, Reads, Defines;
    LiveAtStep(g, b, a);
    LiveInReads(g[b].stmts, BranchUses(g[b]) + LiveOut(g, b), a);
  }

  /** Where no definition of `a` is dropped, `a` is live after the pass only if it was before. */
  lemma {:induction false} LiveKept(c: Setting, p: PassState, rank: seq<nat>, d: nat, a: nat)
    requires Ranked(c.g, rank) && Ranked(p.g, rank) && Passing(c, p, c.reached) && Closed(c.g, c.reached)
    requires forall b :: b in c.reached && b < |c.g| ==> ExactOut(c.g, c.outUse[b], b)
    requires d in c.reached && d < |c.g| && a < N_ATOMS && Undisturbed(c, p, d, a) && LiveAt(p.g, d, a)
    ensures LiveAt(c.g, d, a)
    decreases rank[d]
  {
    hide PassedAt, Closed, Live, LiveAt, LiveIn, Undisturbed, Drops, Reads, Defines;
    assert PassedAt(c, p, d) && SameShape(c.g[d], p.g[d]);
    UndisturbedHere(c, p, d, a);
    LiveAtIs(p.g, d, a);
    LiveAtIs(c.g, d, a);
    ClosedHas(c.g, c.reached, d);
    assert ExactOut(c.g, c.outUse[d], d);
    var out := if Defines(p.g[d].stmts, a) then {} else LiveOut(p.g, d);
    LiveInReads(p.g[d].stmts, BranchUses(p.g[d]) + LiveOut(p.g, d), a);
    LiveInReads(p.g[d].stmts, BranchUses(p.g[d]) + out, a);
    if a in out {
      UndisturbedNext(c, p, d, p.g[d].jt, a);
      UndisturbedNext(c, p, d, p.g[d].jf, a);
      if LiveAt(p.g, p.g[d].jt, a) {
        LiveKept(c, p, rank, p.g[d].jt, a);
      } else {
        LiveKept(c, p, rank, p.g[d].jf, a);
      }
      assert LiveAfter(c.g, d, a);
    }
    BlockNeeds(c, p, d, a, out);
    SameOut(c, d, a);
  }

  lemma SameOut(c: Setting, d: nat, a: nat)
    requires d < |c.g| == |c.outUse| && ExactOut(c.g, c.outUse[d], d) && a < N_ATOMS
    requires a in LiveIn(c.g[d].stmts, BranchUses(c.g[d]) + c.outUse[d])
    ensures a in LiveIn(c.g[d].stmts, BranchUses(c.g[d]) + LiveOut(c.g, d))
  {
    hide LiveAt, LiveIn;
    LiveInMono(c.g[d].stmts, BranchUses(c.g[d]) + LiveOut(c.g, d), BranchUses(c.g[d]) + c.outUse[d], a);
  }

  /** The pass takes from block `b` the definition of `a` that reached its end. */
  ghost predicate Loses(c: Setting, p: PassState, b: nat, a: nat)
    requires Sized(c, p) && b < |c.g| && PassedAt(c, p, b)
  {
    if IsCleared(c, p, b) then Defines(Rewritten(c, p, b), a) && a != A_ATOM && a != X_ATOM
    else
      || (a == A_ATOM && !MergedAt(c, p, b).Keep?)
      || exists i :: 0 <= i < |p.g[b].stmts| && LosesAt(Peepholed(c, p, b).stmts, p.g[b].stmts, i, a)
  }

  ghost predicate LosesAt(ss: seq<Stmt>, left: seq<Stmt>, i: nat, a: nat)
    requires i < |left|
  {
    |left| == |ss| && Defs(ss[i]) == Some(a) && left[i] != ss[i] && !Defines(left[i + 1..], a)
  }

  /**
   * A condition on what opt_stmt and the live-out sets say, without the graph the pass leaves: where
   * a block loses its definition of an atom, no block after it has its own definition of that atom
   * deleted on the strength of the number, unless the number is a constant.
   */
  ghost predicate Steady(c: Setting, p: PassState)
    requires Sized(c, p)
  {
    forall b, a :: b in c.reached && b < |c.g| && c.g[b].Branch? && 0 <= a < N_ATOMS && PassedAt(c, p, b) && Loses(c, p, b, a) ==>
                     Undisturbed(c, p, c.g[b].jt, a) && Undisturbed(c, p, c.g[b].jf, a)
  }

  lemma LostIsUnused(c: Setting, p: PassState, b: nat, a: nat)
    requires Sized(c, p) && b < |c.g| && PassedAt(c, p, b) && c.g[b].Branch? && Loses(c, p, b, a)
    ensures a !in c.outUse[b]
  {
    hide OptList, WellNumbered, EdgeInto, EntryOf, Strip, LiveIn, Reads, PeepBlock, Left;
    if !IsCleared(c, p, b) {
      var f, out := Peepholed(c, p, b), BranchUses(Peepholed(c, p, b)) + c.outUse[b];
      LeftIs(c, p, b);
      if a == A_ATOM && !MergedAt(c, p, b).Keep? {
      } else {
        var left := p.g[b].stmts;
        var i :| 0 <= i < |left| && LosesAt(f.stmts, left, i, a);
        StripIsSafe(f.stmts, out);
        LiveInReads(left[i + 1..], out, a);
      }
    }
  }

  /** Without such a disturbance nothing the pass deletes is needed. */
  lemma SteadyIsFresh(c: Setting, p: PassState, rank: seq<nat>)
    requires Ranked(c.g, rank) && Ranked(p.g, rank) && Passing(c, p, c.reached) && Closed(c.g, c.reached)
    requires forall b :: b in c.reached && b < |c.g| ==> ExactOut(c.g, c.outUse[b], b)
    requires Steady(c, p)
    ensures AllFresh(c, p)
  {
    hide PassedAt, Closed, Live, LiveAt, Undisturbed, Loses, Fresh;
    forall b | b in c.reached && b < |c.g| && c.g[b].Branch?
      ensures PassedAt(c, p, b) && Fresh(c, p, b)
    {
      assert PassedAt(c, p, b) && ExactOut(c.g, c.outUse[b], b) && SameShape(c.g[b], p.g[b]);
      ClosedHas(c.g, c.reached, b);
      forall a | 0 <= a < N_ATOMS && Loses(c, p, b, a)
        ensures a !in LiveOut(p.g, b)
      {
        LostIsUnused(c, p, b, a);
        if LiveAt(p.g, p.g[b].jt, a) {
          LiveKept(c, p, rank, p.g[b].jt, a);
        } else if LiveAt(p.g, p.g[b].jf, a) {
          LiveKept(c, p, rank, p.g[b].jf, a);
        }
      }
      FreshIf(c, p, b);
    }
  }

  /** Nothing lost is live after the pass. */
  lemma FreshIf(c: Setting, p: PassState, b: nat)
    requires Sized(c, p) && b < |c.g| && PassedAt(c, p, b) && c.g[b].Branch?
    requires forall a :: 0 <= a < N_ATOMS && Loses(c, p, b, a) ==> a !in LiveOut(p.g, b)
    ensures Fresh(c, p, b)
  {
    hide LiveAt, LiveIn, OptList, EdgeInto, EntryOf, WellNumbered, Uses, Defs, PeepBlock, Left, Reads, Strip;
    if IsCleared(c, p, b) {
      forall a | a in LiveOut(p.g, b) && Defines(Rewritten(c, p, b), a)
        ensures a == A_ATOM || a == X_ATOM
      {
        assert !Loses(c, p, b, a);
      }
    } else {
      LeftIs(c, p, b);
      var f, left := Peepholed(c, p, b), p.g[b].stmts;
      var out, out' := BranchUses(f) + c.outUse[b], BranchUses(f) + LiveOut(p.g, b);
      StripIsSafe(f.stmts, out);
      forall i | 0 <= i < |f.stmts|
        ensures left[i] == f.stmts[i] || (left[i].op == Nop && NotNeeded(f.stmts[i], left[i + 1..], out'))
      {
        assert left[i] == f.stmts[i] || (left[i].op == Nop && NotNeeded(f.stmts[i], left[i + 1..], out));
        if left[i] != f.stmts[i] && Defs(f.stmts[i]).Some? {
          var a := Defs(f.stmts[i]).value;
          LiveInReads(left[i + 1..], out, a);
          LiveInReads(left[i + 1..], out', a);
          if !Defines(left[i + 1..], a) && a < N_ATOMS {
            assert LosesAt(f.stmts, left, i, a);
          }
        }
      }
      assert !MergedAt(c, p, b).Keep? ==> Loses(c, p, b, A_ATOM);
    }
  }

  // ---------------------------------------------------------------------
  // A condition on the graph alone
  // ---------------------------------------------------------------------

  /** opt_peep finds nothing to merge into the block's branch, whatever opt_stmt makes of the operands. */
  predicate Mergeless(b: Block) {
    b.Branch? && b.cmp == Jeq && b.src == K ==>
      forall i :: 0 <= i < |b.stmts| && b.stmts[i].op.Alu? ==>
                    b.stmts[i].op.alu != Sub && (b.stmts[i].op.alu == And ==> b.k != 0)
  }

  /** opt_stmt leaves an arithmetic statement only where there was one with the same operator. */
  lemma OptStmtOperator(t: seq<Node>, s: Stmt, val: seq<nat>, alter: bool)
    requires |val| == N_ATOMS && GoodStmt(s) && OptStmt(t, s, val, alter).Done?
    ensures var r := OptStmt(t, s, val, alter).s; r.op.Alu? ==> s.op.Alu? && r.op.alu == s.op.alu
  {
    hide AluX, Find, ConstOf, Enter, Number, Vstore, StoreNew, SetNew, Fold;
  }

  lemma {:induction false} OptListOperator(t: seq<Node>, ss: seq<Stmt>, val: seq<nat>, alter: bool, i: nat)
    requires WellNumbered(t) && InTable(t, val) && GoodList(ss) && OptList(t, ss, val, alter).DoneList? && i < |ss|
    ensures var rw := OptList(t, ss, val, alter).ss;
            |rw| == |ss| && (rw[i].op.Alu? ==> ss[i].op.Alu? && rw[i].op.alu == ss[i].op.alu)
    decreases |ss|
  {
    hide OptStmt, WellNumbered, OptList;
    OptListStep(t, ss, val, alter);
    OptStmtOperator(t, ss[0], val, alter);
    if i > 0 {
      var r := OptStmt(t, ss[0], val, alter);
      OptListOperator(r.t, ss[1..], r.val, alter, i - 1);
    }
  }

  lemma MergelessKeeps(c: Setting, p: PassState, b: nat)
    requires Sized(c, p) && b < |c.g| && PassedAt(c, p, b) && Mergeless(c.g[b])
    ensures MergedAt(c, p, b).Keep?
  {
    hide OptList, WellNumbered, EdgeInto, EntryOf, Left, PeepFrom, LastFrom, Reworked, ConstOf;
    var ss, rw := c.g[b].stmts, Rewritten(c, p, b);
    OptListShape(p.before[b], ss, p.entry[b], c.alter);
    if !MergedAt(c, p, b).Keep? {
      var last := LastFrom(rw, 0, 0);
      PeepEnds(rw);
      LastAlu(rw, last);
      OptListOperator(p.before[b], ss, p.entry[b], c.alter, last);
    }
  }

  lemma PairDefines(x: Stmt, y: Stmt, a: nat)
    requires Defs(Pair(x, y).0) == Some(a) || Defs(Pair(x, y).1) == Some(a)
    ensures Defs(x) == Some(a) || Defs(y) == Some(a)
  {
  }

  lemma {:induction false} PeepDefines(ss: seq<Stmt>, i: nat, a: nat)
    requires i <= |ss| && Defines(PeepFrom(ss, i), a)
    ensures Defines(ss, a)
    decreases |ss| - i
  {
    hide Pair, Defs;
    var s := ThisOp(ss, i);
    if s < |ss| {
      var next := ThisOp(ss, s + 1);
      if next < |ss| {
        var pair := Pair(ss[s], ss[next]);
        var ss' := ss[s := pair.0][next := pair.1];
        PeepDefines(ss', next, a);
        var k :| 0 <= k < |ss'| && Defs(ss'[k]) == Some(a);
        if k == s || k == next { PairDefines(ss[s], ss[next], a); }
      }
    }
  }

  /** A definition that is lost was there before the pass. */
  lemma LostWasDefined(c: Setting, p: PassState, b: nat, a: nat)
    requires Sized(c, p) && b < |c.g| && PassedAt(c, p, b) && c.g[b].Branch? && MergedAt(c, p, b).Keep? && Loses(c, p, b, a)
    ensures Defines(c.g[b].stmts, a) && a != A_ATOM
  {
    hide OptList, WellNumbered, EdgeInto, EntryOf, Strip, LiveIn, Reads, Left, PeepFrom, LastFrom, Uses, Defs;
    var rw := Rewritten(c, p, b);
    if !IsCleared(c, p, b) {
      LeftIs(c, p, b);
      var f, left := Peepholed(c, p, b), p.g[b].stmts;
      var i :| 0 <= i < |left| && LosesAt(f.stmts, left, i, a);
      assert Defines(f.stmts, a);
      KeptList(c, p, b);
      if rw != [] { PeepDefines(rw, 0, a); }
      StripIsSafe(f.stmts, BranchUses(f) + c.outUse[b]);
      LiveInReads(left[i + 1..], BranchUses(f) + c.outUse[b], a);
    }
    DefinedBefore(c, p, b, a);
  }

  lemma KeptList(c: Setting, p: PassState, b: nat)
    requires Sized(c, p) && b < |c.g| && PassedAt(c, p, b) && c.g[b].Branch? && MergedAt(c, p, b).Keep? && !IsCleared(c, p, b)
    ensures var rw := Rewritten(c, p, b);
            Peepholed(c, p, b).stmts == if rw == [] then [] else PeepFrom(rw, 0)
    ensures Peepholed(c, p, b).Branch?
  {
    hide OptList, WellNumbered, EdgeInto, EntryOf, Left, PeepFrom, LastFrom, Merged, ConstOf, KnownX, KnownA, NeverSet;
    var rw, r := Rewritten(c, p, b), Renumbered(c, p, b);
    if rw != [] {
      PeepEnds(rw);
      KnownShape(r.t, WithStmts(c.g[b], PeepFrom(rw, 0)), p.exit[b]);
    }
  }

  lemma DefinedBefore(c: Setting, p: PassState, b: nat, a: nat)
    requires Sized(c, p) && b < |c.g| && PassedAt(c, p, b) && Defines(Rewritten(c, p, b), a)
    ensures Defines(c.g[b].stmts, a)
  {
    hide OptList, EdgeInto, EntryOf, WellNumbered, Uses, Defs, Left;
    OptListLeaner(p.before[b], c.g[b].stmts, p.entry[b], c.alter);
    var rw := Rewritten(c, p, b);
    var i :| 0 <= i < |rw| && Defs(rw[i]) == Some(a);
    assert Leaner(c.g[b].stmts[i], rw[i]);
    NopUses(rw[i]);
  }

  /** From `d` on no block defines `a`. */
  ghost predicate NeverDefined(g: Graph, d: nat, a: nat) {
    forall q :: TrailFrom(g, d, q) ==> forall i :: 0 <= i < |q| ==> q[i] < |g| && !Defines(g[q[i]].stmts, a)
  }

  /**
   * Neither X nor a scratch word that a block defines for itself alone is defined again after it,
   * and no branch has anything merged into it.
   */
  ghost predicate NoRedefinition(g: Graph, s: set<nat>) {
    && (forall b :: b in s && b < |g| ==> Mergeless(g[b]))
    && forall b, a :: b in s && b < |g| && g[b].Branch? && 0 <= a < N_ATOMS && a != A_ATOM && Defines(g[b].stmts, a)
                      && a !in LiveOut(g, b) ==>
                        NeverDefined(g, g[b].jt, a) && NeverDefined(g, g[b].jf, a)
  }

  lemma DroppedWasDefined(c: Setting, p: PassState, d: nat, a: nat)
    requires Sized(c, p) && d < |c.g| && PassedAt(c, p, d) && Drops(c, p, d, a)
    ensures Defines(c.g[d].stmts, a)
  {
    hide OptList, EdgeInto, EntryOf, WellNumbered, Defs, Left, IsCleared;
  }

  lemma NeverDefinedUndisturbed(c: Setting, p: PassState, d: nat, a: nat)
    requires Sized(c, p) && NeverDefined(c.g, d, a)
    ensures Undisturbed(c, p, d, a)
  {
    hide Drops, PassedAt, Defines;
    forall q | TrailFrom(c.g, d, q) && Undefined(p.g, q, a) && q[|q| - 1] < |c.g| && PassedAt(c, p, q[|q| - 1])
      ensures !Drops(c, p, q[|q| - 1], a)
    {
      if Drops(c, p, q[|q| - 1], a) {
        DroppedWasDefined(c, p, q[|q| - 1], a);
      }
    }
  }

  /** The condition on the graph makes the pass steady. */
  lemma NoRedefinitionIsSteady(c: Setting, p: PassState)
    requires Passing(c, p, c.reached) && NoRedefinition(c.g, c.reached)
    requires forall b :: b in c.reached && b < |c.g| ==> ExactOut(c.g, c.outUse[b], b)
    ensures Steady(c, p)
  {
    hide PassedAt, NeverDefined, Live, Loses, Undisturbed, Defines, LiveAt, Mergeless;
    forall b, a | b in c.reached && b < |c.g| && c.g[b].Branch? && 0 <= a < N_ATOMS && PassedAt(c, p, b) && Loses(c, p, b, a)
      ensures Undisturbed(c, p, c.g[b].jt, a) && Undisturbed(c, p, c.g[b].jf, a)
    {
      MergelessKeeps(c, p, b);
      LostWasDefined(c, p, b, a);
      LostIsUnused(c, p, b, a);
      assert ExactOut(c.g, c.outUse[b], b);
      NeverDefinedUndisturbed(c, p, c.g[b].jt, a);
      NeverDefinedUndisturbed(c, p, c.g[b].jf, a);
    }
  }

  // ---------------------------------------------------------------------
  // Passes that alter no statement
  // ---------------------------------------------------------------------

  lemma UnalteredDropsNothing(c: Setting, p: PassState, d: nat, a: nat)
    requires Sized(c, p) && d < |c.g| && PassedAt(c, p, d) && !c.alter
    ensures !Drops(c, p, d, a)
  {
    hide OptList, EdgeInto, EntryOf, WellNumbered, Left, Defines;
    OptListShape(p.before[d], c.g[d].stmts, p.entry[d], false);
  }

  lemma UnalteredIsSteady(c: Setting, p: PassState)
    requires Sized(c, p) && !c.alter
    ensures Steady(c, p)
  {
    hide PassedAt, Loses, Drops;
    forall d, a
      ensures Undisturbed(c, p, d, a)
    {
      forall q | TrailFrom(c.g, d, q) && Undefined(p.g, q, a) && q[|q| - 1] < |c.g| && PassedAt(c, p, q[|q| - 1])
        ensures !Drops(c, p, q[|q| - 1], a)
      {
        UnalteredDropsNothing(c, p, q[|q| - 1], a);
      }
    }
  }

  /** With do_stmts clear, the pass keeps every run that does not reject, provided the numbers are right. */
  lemma UnalteredKeepsRuns(c: Setting, p: PassState, rank: seq<nat>, b: nat, env: Env, st: State)
    requires Ranked(c.g, rank) && Ranked(p.g, rank) && GoodGraph(c.g) && Closed(c.g, c.reached)
    requires Passing(c, p, c.reached) && AllHandled(c, p) && !c.alter && b in c.reached && b < |c.g|
    requires forall d :: d in c.reached && d < |c.g| ==> ExactOut(c.g, c.outUse[d], d)
    requires |p.entry[b]| == N_ATOMS && Sound(p.t, env, p.entry[b], st, AllAtoms()) && !Walk(c.g, rank, b, env, st).Reject?
    ensures Walk(p.g, rank, b, env, st) == Walk(c.g, rank, b, env, st)
  {
    hide Walk, Passing, AllHandled, Closed, ExactOut, GoodGraph, Sound, Steady, AllFresh;
    SizedPass(c, p);
    UnalteredIsSteady(c, p);
    SteadyIsFresh(c, p, rank);
    PassKeepsRuns(c, p, rank, b, env, st, st);
  }

  lemma SizedPass(c: Setting, p: PassState)
    requires Passing(c, p, c.reached)
    ensures Sized(c, p)
  {
  }

  // ---------------------------------------------------------------------
  // The pass from the root
  // ---------------------------------------------------------------------

  /**
   * A pass with do_stmts set, from the root. It fails only at a statement opt_stmt refuses. When it
   * succeeds, every run that does not reject returns the same value if nothing deleted is needed,
   * which a steady pass ensures, and the condition on the graph beforehand.
   */
  method OptimizeStatements(g: Graph, root: nat, ghost rank: seq<nat>, ghost blocks: set<nat>, maxval: nat)
    returns (ok: bool, g': Graph, ghost c: Setting, ghost p: PassState)
    requires Ranked(g, rank) && GoodGraph(g) && root < |g|
    requires Closed(g, blocks) && root in blocks && maxval >= 3 * MaxStmts(g, blocks, |g|)
    ensures c.g == g && c.alter && root in c.reached && c.reached <= blocks && Closed(g, c.reached) && |c.outUse| == |g|
    ensures forall b :: b in c.reached && b < |g| ==> ExactOut(g, c.outUse[b], b)
    ensures if ok then Passing(c, p, c.reached) && p.g == g' else exists done, b :: Refusal(c, p, done, b)
    ensures NothingRefusable(g, blocks) ==> ok
    ensures ok ==> Ranked(g', rank) && |g'| == |g| && MaxStmts(g', blocks, |g|) <= MaxStmts(g, blocks, |g|)
    ensures ok && AllHandled(c, p) && (AllFresh(c, p) || Steady(c, p) || NoRedefinition(g, c.reached)) ==>
              forall env, st :: !Walk(g, rank, root, env, st).Reject? ==>
                                  Walk(g', rank, root, env, st) == Walk(g, rank, root, env, st)
  {
    hide Analysis.LevelLists, Analysis.LevelOf, Closed, Walk, Live, PassedAt, OperandsKnown, GoodStmt, EdgeInto, AllAtoms,
         Refusal, Fresh, ExactOut, ExactIn, LiveAt, Steady, NoRedefinition, BlockHandled;
    var an := new Analysis.Analyzer(g, root, rank);
    an.FindLevels();
    var inUse, outUse := FindUd(an);
    MaxStmtsMono(g, g, an.reached, blocks, |g|);
    Analysis.LevelListFacts(g, rank, an.level, an.levels, an.reached);
    var vt, exit, oval;
    ok, g', vt, exit, oval, p := OptBlks(an, outUse, maxval, true);
    c := Setting(g, an.reached, outUse, true);
    if !ok {
      ghost var done, b :| Refusal(c, p, done, b);
      RefusalCause(c, p, done, b);
      return;
    }
    RankedStill(c, p, rank);
    PassShrinks(c, p, blocks);
    RootUnknown(an, c, p);
    if AllHandled(c, p) && (AllFresh(c, p) || Steady(c, p) || NoRedefinition(g, c.reached)) {
      if !AllFresh(c, p) {
        if !Steady(c, p) { NoRedefinitionIsSteady(c, p); }
        SteadyIsFresh(c, p, rank);
      }
      forall env, st | !Walk(g, rank, root, env, st).Reject?
        ensures Walk(g', rank, root, env, st) == Walk(g, rank, root, env, st)
      {
        PassKeepsRuns(c, p, rank, root, env, st, st);
      }
    }
  }
}
