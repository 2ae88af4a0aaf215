/**
 * Jump threading: use_conflict, fold_edge, opt_j and the leaf-to-root sweep of
 * opt_blks (optimize.c).
 */
module Threading {
  import opened Words
  import opened Bpf
  import opened Cfg
  import opened Liveness
  import opened ValueNumbers
  import opened Peephole
  import opened StatementPass
  import opened Rewriting
  import opened Digraph
  import Freshness
  import Analysis

  // ---------------------------------------------------------------------
  // Blocks that use no register from their predecessors
  // ---------------------------------------------------------------------

  ghost function Zero(): State { State(0, 0, seq(16, _ => 0)) }

  /** The block does not reject this packet. */
  ghost predicate Passes(b: Block, env: Env) { ExecList(b.stmts, env, Zero()).Next? }

  /** The side the block's branch takes for this packet. */
  ghost predicate Side(b: Block, env: Env)
    requires b.Branch? && Passes(b, env)
  {
    Taken(b, ExecList(b.stmts, env, Zero()).st)
  }

  /** Both are independent of the state the block is entered in. */
  lemma AnyState(b: Block, env: Env, st: State)
    requires SelfContained(b)
    ensures ExecList(b.stmts, env, st).Next? <==> Passes(b, env)
    ensures b.Branch? && Passes(b, env) ==> Taken(b, ExecList(b.stmts, env, st).st) == Side(b, env)
  {
    hide ExecList, LiveIn, BlockReads, Compare;
    AgreeAnyway(b, st, Zero());
    assert DeadRemoved(b.stmts, b.stmts, BranchUses(b));
    if ExecList(b.stmts, env, st).Next? {
      DeadRemovalSafe(b.stmts, b.stmts, BranchUses(b), env, st, Zero());
    }
    if Passes(b, env) {
      DeadRemovalSafe(b.stmts, b.stmts, BranchUses(b), env, Zero(), st);
      var s1, s2 := ExecList(b.stmts, env, Zero()).st, ExecList(b.stmts, env, st).st;
      assert b.Branch? ==> AtomValue(s1, A_ATOM) == AtomValue(s2, A_ATOM);
      assert b.Branch? && b.src == X ==> AtomValue(s1, X_ATOM) == AtomValue(s2, X_ATOM);
    }
  }

  lemma AgreeAnyway(b: Block, st1: State, st2: State)
    requires SelfContained(b)
    ensures AgreeOn(st1, st2, LiveIn(b.stmts, BranchUses(b))) && AgreeOn(st2, st1, LiveIn(b.stmts, BranchUses(b)))
  {
    hide LiveIn, Reads, Defines;
    forall a: nat | a < N_ATOMS
      ensures a !in LiveIn(b.stmts, BranchUses(b))
    {
      assert !BlockReads(b, a);
      LiveInReads(b.stmts, BranchUses(b), a);
    }
  }

  /** The two graphs have returns at the same places. */
  ghost predicate SameKinds(g: Graph, h: Graph) {
    |h| == |g| && forall b :: 0 <= b < |g| ==> (g[b].Branch? <==> h[b].Branch?)
  }

  /** The run through such blocks, for one packet: tests and returns as in `g`, over the edges of `h`. */
  ghost function Follow(g: Graph, h: Graph, rank: seq<nat>, b: nat, env: Env): Outcome
    requires SameKinds(g, h) && Ranked(h, rank) && b < |g|
    decreases rank[b]
  {
    if !Passes(g[b], env) then Reject
    else if g[b].Leaf? then Return(g[b].k)
    else Follow(g, h, rank, Successor(h[b], Side(g[b], env)), env)
  }

  lemma {:induction false} WalkIsFollow(g: Graph, rank: seq<nat>, s: set<nat>, b: nat, env: Env, st: State)
    requires Ranked(g, rank) && Closed(g, s) && AllSelfContained(g, s) && b in s && b < |g|
    ensures Walk(g, rank, b, env, st) == Follow(g, g, rank, b, env)
    decreases rank[b]
  {
    hide ExecList, SelfContained, Passes, Side, Taken, Closed;
    AnyState(g[b], env, st);
    SelfContainedGood(g[b]);
    GoodListRuns(g[b].stmts, env, st);
    if Passes(g[b], env) && g[b].Branch? {
      ClosedHas(g, s, b);
      WalkIsFollow(g, rank, s, Successor(g[b], Side(g[b], env)), env, ExecList(g[b].stmts, env, st).st);
    }
  }

  /** Entered in any state, `b'` passes every packet `b` passes, and its test comes out the same. */
  ghost predicate TestsAlike(b: Block, b': Block) {
    && (b.Branch? <==> b'.Branch?) && (b.Leaf? ==> b'.k == b.k)
    && forall env, st :: Passes(b, env) ==>
         var e := ExecList(b'.stmts, env, st); e.Next? && (b.Branch? ==> Taken(b', e.st) == Side(b, env))
  }

  lemma TestsAlikeAt(b: Block, b': Block, env: Env, st: State)
    requires TestsAlike(b, b') && Passes(b, env)
    ensures var e := ExecList(b'.stmts, env, st); e.Next? && (b.Branch? ==> Taken(b', e.st) == Side(b, env))
  {
    hide Passes, Side, ExecList, Taken;
  }

  /** Where the tests are alike, a walk over the edges of `h` follows them. */
  lemma {:induction false} FollowIsWalk(g: Graph, h: Graph, rank: seq<nat>, s: set<nat>, b: nat, env: Env, st: State)
    requires SameKinds(g, h) && Ranked(h, rank) && Closed(h, s) && b in s && b < |g| && !Follow(g, h, rank, b, env).Reject?
    requires forall c :: c in s && c < |g| ==> TestsAlike(g[c], h[c])
    ensures Walk(h, rank, b, env, st) == Follow(g, h, rank, b, env)
    decreases rank[b]
  {
    hide ExecList, Passes, Side, Taken, Closed;
    assert TestsAlike(g[b], h[b]);
    TestsAlikeAt(g[b], h[b], env, st);
    if g[b].Branch? {
      ClosedHas(h, s, b);
      FollowIsWalk(g, h, rank, s, Successor(h[b], Side(g[b], env)), env, ExecList(h[b].stmts, env, st).st);
    }
  }

  lemma SelfContainedGood(b: Block)
    requires SelfContained(b)
    ensures GoodList(b.stmts)
  {
  }

  // ---------------------------------------------------------------------
  // Sound numbers decide branches
  // ---------------------------------------------------------------------

  /**
   * The branch of `b'` compares the values numbered `aval` and `oval`, for every packet that `b`
   * passes, and decides as `b` does.
   */
  ghost predicate NumbersRight(t: seq<Node>, b: Block, b': Block, aval: nat, oval: nat) {
    b.Branch? ==>
      && b'.Branch? && (b'.src == K ==> 1 <= oval <= |t| && t[oval - 1] == ConstNode(b'.k))
      && forall env :: Passes(b, env) ==> Side(b, env) == Compare(b'.cmp, Den(t, env, aval), Den(t, env, oval))
  }

  /** A self-contained block needs nothing on entry. */
  lemma NeedsNothing(b: Block)
    requires SelfContained(b)
    ensures LiveIn(b.stmts, BranchUses(b)) <= {} && LiveIn(b.stmts, {}) <= {}
  {
    hide LiveIn, Reads, Defines, GoodStmt;
    LiveInAtoms(b.stmts, BranchUses(b));
    LiveInAtoms(b.stmts, {});
    forall a: nat | a < N_ATOMS
      ensures a !in LiveIn(b.stmts, BranchUses(b)) && a !in LiveIn(b.stmts, {})
    {
      assert !BlockReads(b, a);
      LiveInReads(b.stmts, BranchUses(b), a);
      LiveInReads(b.stmts, {}, a);
    }
  }

  /** The number of the value the branch of block `b` compares: a subtraction it absorbed is not in it. */
  ghost function TestNumber(c: Setting, p: PassState, b: nat): nat
    requires Sized(c, p) && b < |c.g| && PassedAt(c, p, b)
  {
    var v := p.exit[b][A_ATOM];
    if MergedAt(c, p, b).Against? && 1 <= v <= |p.t| then p.t[v - 1].v0 else v
  }

  /** What the statements of a self-contained block leave, and the numbers for it. */
  lemma NumbersAtEnd(c: Setting, p: PassState, b: nat, env: Env, on: set<nat>)
    requires Sized(c, p) && b < |c.g| && PassedAt(c, p, b) && !c.alter && SelfContained(c.g[b]) && c.g[b].Branch?
    requires Passes(c.g[b], env) && on == DefinedAfter(c.g[b].stmts, {})
    ensures var s := ExecList(c.g[b].stmts, env, Zero()).st;
            && Sound(p.t, env, p.exit[b], s, on) && AreKnown(p.exit[b], on)
            && ConstsHold(Renumbered(c, p, b).t, p.exit[b], s, on)
    ensures Consults(c.g[b], on) && (c.g[b].src == X ==> X_ATOM in on)
    ensures forall i :: 0 <= i < |c.g[b].stmts| && c.g[b].stmts[i].op == Alu(Sub, X) ==> X_ATOM in on
  {
    hide OptList, ExecList, LiveIn, Reads, WellNumbered, Den, EdgeInto, EntryOf, Left, Sound, AreKnown, ConstsHold;
    var ss, entry, before := c.g[b].stmts, p.entry[b], p.before[b];
    var s, r := ExecList(ss, env, Zero()).st, OptList(before, ss, entry, false);
    NeedsNothing(c.g[b]);
    SelfContainedKnown(ss, {});
    OptListShape(before, ss, entry, false);
    NothingSound(before, env, entry);
    OptListRight(before, ss, entry, false, env, Zero(), {}, {});
    SoundConsts(r.t, env, r.val, s, on);
    SoundPrefix(r.t, p.t, env, r.val, s, on);
    TestDefined(c.g[b], on);
  }

  lemma NothingSound(t: seq<Node>, env: Env, val: seq<nat>)
    requires |val| == N_ATOMS
    ensures Sound(t, env, val, Zero(), {}) && AreKnown(val, {})
  {
  }

  /** A self-contained block defines what its test and its subtractions read. */
  lemma TestDefined(b: Block, on: set<nat>)
    requires SelfContained(b) && b.Branch? && on == DefinedAfter(b.stmts, {})
    ensures Consults(b, on) && (b.src == X ==> X_ATOM in on)
    ensures forall i :: 0 <= i < |b.stmts| && b.stmts[i].op == Alu(Sub, X) ==> X_ATOM in on
  {
    hide GoodStmt, DefinedAfter;
    assert !BlockReads(b, A_ATOM) && !BlockReads(b, X_ATOM);
    DefinedAfterHas(b.stmts, {}, A_ATOM);
    if b.src == X { DefinedAfterHas(b.stmts, {}, X_ATOM); }
    if i :| 0 <= i < |b.stmts| && b.stmts[i].op == Alu(Sub, X) {
      assert X_ATOM in Uses(b.stmts[i]) && Defines(b.stmts[..i], X_ATOM);
      var k :| 0 <= k < i && Defs(b.stmts[..i][k]) == Some(X_ATOM);
      assert Defs(b.stmts[k]) == Some(X_ATOM);
      DefinedAfterHas(b.stmts, {}, X_ATOM);
    }
  }

  /** The peephole form of the block, run on a packet the block passes. */
  lemma PeepholeRuns(c: Setting, p: PassState, b: nat, env: Env)
    requires Sized(c, p) && b < |c.g| && PassedAt(c, p, b) && !c.alter && SelfContained(c.g[b]) && c.g[b].Branch?
    requires Passes(c.g[b], env)
    ensures var e, s := ExecList(Peepholed(c, p, b).stmts, env, Zero()), ExecList(c.g[b].stmts, env, Zero()).st;
            Carried(c.g[b], s, Peepholed(c, p, b), e, MergedAt(c, p, b))
  {
    hide OptList, ExecList, WellNumbered, EdgeInto, EntryOf, Left, PeepBlock, MergedInto, Sound, SelfContained, Carried,
         ConstsHold, Consults, DefinedAfter;
    var ss, on := c.g[b].stmts, DefinedAfter(c.g[b].stmts, {});
    NumbersAtEnd(c, p, b, env, on);
    OptListShape(p.before[b], ss, p.entry[b], false);
    assert WithStmts(c.g[b], ss) == c.g[b] && !IsCleared(c, p, b);
    MergedUnknown(c, p, b);
    SelfContainedGood(c.g[b]);
    GoodIsInRange(ss);
    PeepRight(Renumbered(c, p, b).t, c.g[b], p.exit[b], c.outUse[b], env, Zero(), on);
  }

  /** What is left of a self-contained block is self-contained, and tests alike unless the sides changed places. */
  lemma LeftAlike(c: Setting, p: PassState, b: nat)
    requires Sized(c, p) && b < |c.g| && PassedAt(c, p, b) && !c.alter && SelfContained(c.g[b]) && !MergedAt(c, p, b).Mask?
    ensures TestsAlike(c.g[b], p.g[b])
  {
    hide OptList, ExecList, WellNumbered, EdgeInto, EntryOf, Left, PeepBlock, SelfContained, LiveIn, DeadRemoved, Taken, MergedInto;
    LeftContained(c, p, b);
    var f := Peepholed(c, p, b);
    NumberedShape(p.t, c.g[b], p.g[b], p.entry[b], p.exit[b], p.oval[b], c.alter, c.outUse[b], p.before[b]);
    forall env, st | Passes(c.g[b], env)
      ensures var e := ExecList(p.g[b].stmts, env, st);
              e.Next? && (c.g[b].Branch? ==> Taken(p.g[b], e.st) == Side(c.g[b], env))
    {
      if c.g[b].Branch? {
        PeepholeRuns(c, p, b, env);
      } else {
        LeafRuns(c, p, b, env);
      }
      DeadRemovalSafe(f.stmts, p.g[b].stmts, BranchUses(f), env, Zero(), st);
      if c.g[b].Branch? {
        SameBranch(f, p.g[b], ExecList(f.stmts, env, Zero()).st, ExecList(p.g[b].stmts, env, st).st, BranchUses(f));
      }
    }
  }

  lemma LeafRuns(c: Setting, p: PassState, b: nat, env: Env)
    requires Sized(c, p) && b < |c.g| && PassedAt(c, p, b) && !c.alter && c.g[b].Leaf? && Passes(c.g[b], env)
    ensures ExecList(Peepholed(c, p, b).stmts, env, Zero()).Next?
  {
    hide OptList, ExecList, WellNumbered, EdgeInto, EntryOf, Left, PeepFrom, LastFrom;
    var ss := c.g[b].stmts;
    OptListShape(p.before[b], ss, p.entry[b], false);
    GoodIsInRange(ss);
    PeepKeeps(ss, 0, env, Zero(), {});
  }

  lemma LeftContained(c: Setting, p: PassState, b: nat)
    requires Sized(c, p) && b < |c.g| && PassedAt(c, p, b) && !c.alter && SelfContained(c.g[b])
    ensures var f := Peepholed(c, p, b);
            && SelfContained(p.g[b]) && p.g[b] == WithStmts(f, p.g[b].stmts) && ListInRange(f.stmts)
            && DeadRemoved(f.stmts, p.g[b].stmts, BranchUses(f)) && LiveIn(p.g[b].stmts, BranchUses(f)) <= {}
  {
    hide OptList, WellNumbered, EdgeInto, EntryOf, Left, PeepBlock, LiveIn, DeadRemoved, Strip, Reads, Defines, GoodStmt;
    var b0, f, left := c.g[b], Peepholed(c, p, b), p.g[b].stmts;
    OptListShape(p.before[b], b0.stmts, p.entry[b], false);
    assert WithStmts(b0, b0.stmts) == b0 && !IsCleared(c, p, b);
    Freshness.LeftIs(c, p, b);
    NeedsNothing(b0);
    GoodIsInRange(b0.stmts);
    PeepShape(Renumbered(c, p, b).t, b0, p.exit[b], c.outUse[b]);
    PeepInRange(b0, f);
    PeepNeeds(Renumbered(c, p, b).t, b0, p.exit[b], c.outUse[b], {});
    MoreNeeded(b0.stmts, BranchUses(b0) + {}, Asks(Renumbered(c, p, b).t, b0, p.exit[b]) + {});
    assert BranchUses(f) + {} == BranchUses(f) && BranchUses(b0) + {} == BranchUses(b0);
    StripIsSafe(f.stmts, BranchUses(f) + c.outUse[b]);
    DeadRemovedMono(f.stmts, left, BranchUses(f) + c.outUse[b], BranchUses(f));
    DeadRemovedNeedsLess(f.stmts, left, BranchUses(f));
    LeftGood(b0, f, left, BranchUses(f) + c.outUse[b]);
    forall a: nat | a < N_ATOMS
      ensures !BlockReads(p.g[b], a)
    {
      LiveInReads(left, BranchUses(f), a);
    }
  }

  lemma LeftGood(b: Block, f: Block, left: seq<Stmt>, out: set<nat>)
    requires Peeped(b, f) && left == Strip(f.stmts, out) && GoodList(b.stmts)
    ensures GoodList(left)
    ensures (forall i :: 0 <= i < |b.stmts| ==> b.stmts[i].op != LdxLen) ==> forall i :: 0 <= i < |left| ==> left[i].op != LdxLen
  {
    hide LiveIn;
    forall i | 0 <= i < |left|
      ensures GoodStmt(left[i]) && (left[i].op == LdxLen ==> b.stmts[i].op == LdxLen)
    {
      assert GoodStmt(b.stmts[i]);
      assert f.stmts[i].op == Nop || ReworkedAt(b.stmts[i], f.stmts[i]);
    }
  }

  /** The value a subtraction started from has the number of its left operand. */
  lemma BeforeSubtraction(t: seq<Node>, env: Env, v: nat, s: Stmt, x: nat, before: State, after: State)
    requires WellNumbered(t) && Names(t, v, s, x) && Subtracts(s, before, after) && before.x == after.x
    requires after.a == Den(t, env, v) && (s.op.src == X ==> after.x == Den(t, env, x))
    ensures before.a == Den(t, env, t[v - 1].v0)
  {
    hide Minus;
    var n := t[v - 1];
    assert OperandsBelow(n, v);
    var left, right := Den(t, env, n.v0), Den(t, env, n.v1);
    if s.op.src == K { ConstDen(t, env, n.v1); }
    assert Den(t, env, v) == NodeValue(n, env, left, right) == Minus(left, right);
    DifferenceEquals(before.a, right, Minus(left, right));
    DifferenceEquals(left, right, Minus(left, right));
  }

  /** A pass that alters nothing numbers self-contained blocks rightly. */
  lemma NumberedRight(c: Setting, p: PassState, b: nat)
    requires Sized(c, p) && b < |c.g| && PassedAt(c, p, b) && !c.alter && SelfContained(c.g[b]) && !MergedAt(c, p, b).Mask?
    requires WellNumbered(p.t)
    ensures NumbersRight(p.t, c.g[b], p.g[b], TestNumber(c, p, b), p.oval[b])
  {
    hide OptList, ExecList, WellNumbered, EdgeInto, EntryOf, Left, PeepBlock, SelfContained, MergedInto, Den, Compare, DefinedAfter,
         Carried, Sound, AreKnown, DeadRemoved, LiveIn;
    if c.g[b].Branch? {
      LeftContained(c, p, b);
      var t, exit, f := p.t, p.exit[b], Peepholed(c, p, b);
      NumberedShape(t, c.g[b], p.g[b], p.entry[b], exit, p.oval[b], c.alter, c.outUse[b], p.before[b]);
      forall env | Passes(c.g[b], env)
        ensures Side(c.g[b], env) == Compare(p.g[b].cmp, Den(t, env, TestNumber(c, p, b)), Den(t, env, p.oval[b]))
      {
        TestCompares(c, p, b, env);
      }
    }
  }

  lemma TestCompares(c: Setting, p: PassState, b: nat, env: Env)
    requires Sized(c, p) && b < |c.g| && PassedAt(c, p, b) && !c.alter && SelfContained(c.g[b]) && !MergedAt(c, p, b).Mask?
    requires WellNumbered(p.t) && c.g[b].Branch? && p.g[b].Branch? && Passes(c.g[b], env)
    ensures Side(c.g[b], env) == Compare(p.g[b].cmp, Den(p.t, env, TestNumber(c, p, b)), Den(p.t, env, p.oval[b]))
  {
    hide OptList, ExecList, WellNumbered, EdgeInto, EntryOf, PeepBlock, SelfContained, MergedInto, Den, Compare, DefinedAfter,
         Strip, Names, EndsAt, Subtracts;
    var t, exit, f, on := p.t, p.exit[b], Peepholed(c, p, b), DefinedAfter(c.g[b].stmts, {});
    NumbersAtEnd(c, p, b, env, on);
    PeepholeRuns(c, p, b, env);
    var s, s' := ExecList(c.g[b].stmts, env, Zero()).st, ExecList(f.stmts, env, Zero()).st;
    assert p.g[b] == WithStmts(f, p.g[b].stmts);
    assert s.a == Den(t, env, exit[A_ATOM]);
    if MergedAt(c, p, b).Against? {
      SubtractedFrom(c, p, b, env, s, s');
    }
    if f.src == X {
      SourceStays(c, p, b, on);
      SoundAt(t, env, exit, s, on, X_ATOM);
    } else {
      ConstDen(t, env, p.oval[b]);
    }
  }

  lemma SourceStays(c: Setting, p: PassState, b: nat, on: set<nat>)
    requires Sized(c, p) && b < |c.g| && PassedAt(c, p, b) && !c.alter && c.g[b].Branch?
    requires Peepholed(c, p, b).Branch? && Peepholed(c, p, b).src == X
    requires c.g[b].src == X ==> X_ATOM in on
    requires forall i :: 0 <= i < |c.g[b].stmts| && c.g[b].stmts[i].op == Alu(Sub, X) ==> X_ATOM in on
    ensures X_ATOM in on
  {
    hide OptList, WellNumbered, EdgeInto, EntryOf, Left, PeepFrom, LastFrom, ConstOf, KnownX, KnownA, NeverSet, Merged, ApplyMerge;
    var b0, ss, r := c.g[b], c.g[b].stmts, Renumbered(c, p, b);
    OptListShape(p.before[b], ss, p.entry[b], false);
    if ss != [] {
      PeepEnds(ss);
      var last, b1 := LastFrom(ss, 0, 0), WithStmts(b0, PeepFrom(ss, 0));
      MergedFacts(r.t, b1, last, p.exit[b], c.outUse[b]);
      KnownShape(r.t, ApplyMerge(b1, last, Merged(r.t, b1, b1.stmts[last], p.exit[b], c.outUse[b])), p.exit[b]);
      if b1.stmts[last].op == Alu(Sub, X) { StillSubtracts(ss, last); }
    }
  }

  lemma SubtractedFrom(c: Setting, p: PassState, b: nat, env: Env, s: State, s': State)
    requires Sized(c, p) && b < |c.g| && PassedAt(c, p, b) && !c.alter && SelfContained(c.g[b]) && c.g[b].Branch?
    requires Passes(c.g[b], env) && s == ExecList(c.g[b].stmts, env, Zero()).st && WellNumbered(p.t)
    requires MergedAt(c, p, b).Against? && s'.x == s.x
    requires exists i: nat :: EndsAt(c.g[b].stmts, i) && Subtracts(c.g[b].stmts[i], s', s)
    ensures s'.a == Den(p.t, env, TestNumber(c, p, b))
  {
    hide OptList, ExecList, EdgeInto, EntryOf, Left, SelfContained, MergedInto, Den, DefinedAfter, Names, WellNumbered;
    var t, exit, ss, on := p.t, p.exit[b], c.g[b].stmts, DefinedAfter(c.g[b].stmts, {});
    var r := Renumbered(c, p, b);
    NumbersAtEnd(c, p, b, env, on);
    OptListShape(p.before[b], ss, p.entry[b], false);
    var i: nat :| EndsAt(ss, i) && Subtracts(ss[i], s', s);
    LastAluNumber(p.before[b], ss, p.entry[b], false, i);
    NamesStill(r.t, t, exit[A_ATOM], ss[i], exit[X_ATOM]);
    SoundAt(t, env, exit, s, on, A_ATOM);
    if ss[i].op.src == X {
      SoundAt(t, env, exit, s, on, X_ATOM);
    }
    NamesBound(t, exit[A_ATOM], ss[i], exit[X_ATOM]);
    BeforeSubtraction(t, env, exit[A_ATOM], ss[i], exit[X_ATOM], s', s);
  }

  lemma NamesBound(t: seq<Node>, v: nat, s: Stmt, x: nat)
    requires Names(t, v, s, x)
    ensures 1 <= v <= |t|
  {
  }

  /** Equal opcodes with equal numbers take the same side for the same packet. */
  lemma SameTestSameSide(t: seq<Node>, b: Block, b': Block, c: Block, c': Block, aval: nat, ovalB: nat, ovalC: nat, env: Env)
    requires NumbersRight(t, b, b', aval, ovalB) && NumbersRight(t, c, c', aval, ovalC)
    requires b.Branch? && c.Branch? && b'.cmp == c'.cmp && b'.src == c'.src && Passes(b, env) && Passes(c, env)
    ensures ovalB == ovalC ==> Side(b, env) == Side(c, env)
    ensures ovalB != ovalC && Distinct(t) && b'.src == K && b'.cmp == Jeq && Side(b, env) ==> !Side(c, env)
  {
    hide Passes, Side, Den;
    ConstDen(t, env, ovalB);
    ConstDen(t, env, ovalC);
  }

  // ---------------------------------------------------------------------
  // Moving one edge
  // ---------------------------------------------------------------------

  /** `h` differs from `g` only in where its branches go. */
  ghost predicate SameTests(g: Graph, h: Graph) {
    |h| == |g| && forall b :: 0 <= b < |g| ==> SameTest(g[b], h[b])
  }

  ghost predicate SameTest(b: Block, c: Block) {
    if b.Leaf? then c == b else c.Branch? && c == b.(jt := c.jt, jf := c.jf)
  }

  function Redirected(h: Graph, p: nat, side: bool, target: nat): Graph
    requires p < |h| && h[p].Branch?
  {
    h[p := if side then h[p].(jt := target) else h[p].(jf := target)]
  }

  function EdgeOf(g: Graph, b: nat, side: bool): nat { if side then b else |g| + b }

  /** The packet takes edge `d` when its source is run. */
  ghost predicate Executed(g: Graph, d: nat, env: Env) {
    && d < 2 * |g|
    && var b := g[Analysis.EdgeSource(|g|, d)];
       b.Branch? && Passes(b, env) && Side(b, env) == (d < |g|)
  }

  ghost predicate AllExecuted(g: Graph, tr: seq<nat>, env: Env) { forall i :: 0 <= i < |tr| ==> Executed(g, tr[i], env) }

  ghost function RootEdges(g: Graph, root: nat): set<nat> { {root, |g| + root} }

  /** `tr` lists the edges the packet's run takes from the root to block `b`. */
  ghost predicate RunTo(g: Graph, root: nat, tr: seq<nat>, b: nat, env: Env) {
    if tr == [] then b == root
    else
      && Path(Analysis.Edges(g), tr) && tr[0] in RootEdges(g, root) && AllExecuted(g, tr, env)
      && Successor(g[Analysis.EdgeSource(|g|, tr[|tr| - 1])], tr[|tr| - 1] < |g|) == b
  }

  /** The run goes on over the edge its branch takes. */
  lemma RunStep(g: Graph, root: nat, tr: seq<nat>, b: nat, env: Env)
    requires RunTo(g, root, tr, b, env) && b < |g| && root < |g| && g[b].Branch? && Passes(g[b], env)
    ensures var e := EdgeOf(g, b, Side(g[b], env));
            && PathTo(Analysis.Edges(g), RootEdges(g, root), e, tr + [e]) && AllExecuted(g, tr + [e], env)
            && RunTo(g, root, tr + [e], Successor(g[b], Side(g[b], env)), env)
  {
    hide Passes, Side;
    var e := EdgeOf(g, b, Side(g[b], env));
    assert (tr + [e])[..|tr|] == tr;
    assert Executed(g, e, env);
    if tr != [] {
      assert Executed(g, tr[|tr| - 1], env);
      assert e in Analysis.EdgeSuccessors(g, tr[|tr| - 1]);
    }
  }

  /** Blocks that cannot reach `p` are not affected by moving an edge of `p`. */
  lemma {:induction false} BelowUnaffected(g: Graph, h: Graph, lv: seq<nat>, p: nat, side: bool, target: nat, b: nat, env: Env)
    requires SameKinds(g, h) && Ranked(h, lv) && p < |h| && h[p].Branch? && Ranked(Redirected(h, p, side, target), lv)
    requires b < |h| && b != p && lv[b] <= lv[p]
    ensures Follow(g, Redirected(h, p, side, target), lv, b, env) == Follow(g, h, lv, b, env)
    decreases lv[b]
  {
    hide Passes, Side;
    if Passes(g[b], env) && h[b].Branch? {
      BelowUnaffected(g, h, lv, p, side, target, Successor(h[b], Side(g[b], env)), env);
    }
  }

  /** Every run that takes edge (p, side) goes on from its old successor to `target`. */
  ghost predicate Justified(g: Graph, h: Graph, root: nat, p: nat, side: bool, target: nat)
    requires SameKinds(g, h) && p < |h| && h[p].Branch? && Successor(h[p], side) < |h|
  {
    var c, e := Successor(h[p], side), EdgeOf(g, p, side);
    forall tr, env :: PathTo(Analysis.Edges(g), RootEdges(g, root), e, tr) && AllExecuted(g, tr, env) && Passes(g[c], env) ==>
                        g[c].Branch? && Successor(h[c], Side(g[c], env)) == target
  }

  /** Every packet leaves block `b` of `h` for the same block as in `g`. */
  ghost predicate SameWay(b: Block, b': Block) {
    b.Branch? ==> b'.Branch? && forall env :: Passes(b, env) ==> Successor(b', Side(b, env)) == Successor(b, Side(b, env))
  }

  /**
   * Moving an edge of `p` keeps the result of every run that does not reject, as long as runs
   * leave the blocks above `p` as they did originally: a run that arrives at `p` took a path of
   * the original graph.
   */
  lemma {:induction false} MoveKeeps(g: Graph, h: Graph, lv: seq<nat>, root: nat, p: nat, side: bool, target: nat,
                                     b: nat, tr: seq<nat>, env: Env)
    requires SameKinds(g, h) && Ranked(h, lv) && p < |h| && h[p].Branch? && b < |h| && root < |h|
    requires Ranked(Redirected(h, p, side, target), lv) && Justified(g, h, root, p, side, target)
    requires forall c :: 0 <= c < |g| && lv[c] > lv[p] ==> SameWay(g[c], h[c])
    requires RunTo(g, root, tr, b, env) && !Follow(g, h, lv, b, env).Reject?
    ensures Follow(g, Redirected(h, p, side, target), lv, b, env) == Follow(g, h, lv, b, env)
    decreases lv[b]
  {
    hide Passes, Side, RunTo, Justified, PathTo, AllExecuted;
    var h' := Redirected(h, p, side, target);
    if b != p && lv[b] <= lv[p] {
      BelowUnaffected(g, h, lv, p, side, target, b, env);
    } else if h[b].Branch? {
      RunStep(g, root, tr, b, env);
      var taken := Side(g[b], env);
      var c := Successor(h[b], taken);
      if b != p {
        assert SameWay(g[b], h[b]);
        MoveKeeps(g, h, lv, root, p, side, target, c, tr + [EdgeOf(g, b, taken)], env);
      } else if taken != side {
        BelowUnaffected(g, h, lv, p, side, target, c, env);
      } else {
        JustifiedHere(g, h, root, p, side, target, tr + [EdgeOf(g, b, taken)], env);
        BelowUnaffected(g, h, lv, p, side, target, target, env);
      }
    }
  }

  lemma JustifiedHere(g: Graph, h: Graph, root: nat, p: nat, side: bool, target: nat, tr: seq<nat>, env: Env)
    requires SameKinds(g, h) && p < |h| && h[p].Branch? && Successor(h[p], side) < |h|
    requires Justified(g, h, root, p, side, target)
    requires PathTo(Analysis.Edges(g), RootEdges(g, root), EdgeOf(g, p, side), tr) && AllExecuted(g, tr, env)
    requires Passes(g[Successor(h[p], side)], env)
    ensures var c := Successor(h[p], side); g[c].Branch? && Successor(h[c], Side(g[c], env)) == target
  {
    hide Passes, Side, PathTo, AllExecuted;
  }

  // ---------------------------------------------------------------------
  // fold_edge
  // ---------------------------------------------------------------------

  /** fold_edge: where `child` must go once edge `d` has been taken, if the numbers tell. */
  function FoldEdge(h: Graph, exits: seq<seq<nat>>, ovals: seq<nat>, child: nat, d: nat): Option<nat>
    requires child < |h| == |exits| == |ovals| && d < 2 * |h|
    requires forall b :: 0 <= b < |h| ==> |exits[b]| == N_ATOMS
  {
    var q, sense := Analysis.EdgeSource(|h|, d), d < |h|;
    if h[child].Leaf? || h[q].Leaf? || h[child].cmp != h[q].cmp || h[child].src != h[q].src then None
    else if exits[child][A_ATOM] != exits[q][A_ATOM] then None
    else if ovals[child] == ovals[q] then Some(Successor(h[child], sense))
    else if sense && h[q].cmp == Jeq && h[q].src == K then Some(h[child].jf)
    else None
  }

  /**
   * What the earlier phases of the pass supply: the graph `g` it started from, the graph `g1` after
   * its first loop, the numbers and the atoms used on exit; `avals` numbers what the branches compare.
   */
  datatype Phase = Phase(g: Graph, g1: Graph, root: nat, reached: set<nat>, t: seq<Node>, exits: seq<seq<nat>>,
                         ovals: seq<nat>, avals: seq<nat>, outUse: seq<set<nat>>)

  ghost predicate PhaseSized(f: Phase) {
    && |f.g1| == |f.g| == |f.exits| == |f.ovals| == |f.avals| == |f.outUse|
    && (forall b :: 0 <= b < |f.g| ==> |f.exits[b]| == N_ATOMS) && f.root < |f.g|
  }

  /** Branches with equal opcodes and accumulator numbers compare values with equal numbers. */
  ghost predicate SameCompared(f: Phase)
    requires PhaseSized(f)
  {
    forall b, q :: b in f.reached && b < |f.g| && q in f.reached && q < |f.g| && f.g1[b].Branch? && f.g1[q].Branch?
                   && f.g1[b].cmp == f.g1[q].cmp && f.g1[b].src == f.g1[q].src && f.exits[b][A_ATOM] == f.exits[q][A_ATOM] ==>
                     f.avals[b] == f.avals[q]
  }

  /** The bit sets hold exactly the edge dominators of the graph. */
  ghost predicate EdomRight(f: Phase, edom: seq<set<nat>>) {
    && |edom| == 2 * |f.g|
    && forall e, d :: 0 <= e < 2 * |f.g| && Analysis.EdgeSource(|f.g|, e) in f.reached && 0 <= d < 2 * |f.g| ==>
         (d in edom[e] <==> Dominates(Analysis.Edges(f.g), RootEdges(f.g, f.root), d, e))
  }

  ghost predicate Facts(f: Phase) {
    && PhaseSized(f) && f.root in f.reached && Distinct(f.t) && SameKinds(f.g, f.g1) && SameCompared(f)
    && Closed(f.g, f.reached)
    && (forall b :: 0 <= b < |f.g| ==> SameWay(f.g[b], f.g1[b]))
    && (forall b :: b in f.reached && b < |f.g| ==> NumbersRight(f.t, f.g[b], f.g1[b], f.avals[b], f.ovals[b]))
  }

  ghost function Dominators(g: Graph, root: nat, e: nat): iset<nat> {
    iset d: nat | Dominates(Analysis.Edges(g), RootEdges(g, root), d, e)
  }

  lemma FoldSameSide(f: Phase, h: Graph, c: nat, d: nat, env: Env)
    requires Facts(f) && SameTests(f.g1, h)
    requires c in f.reached && c < |f.g| && d < 2 * |f.g| && Analysis.EdgeSource(|f.g|, d) in f.reached
    requires FoldEdge(h, f.exits, f.ovals, c, d).Some? && Executed(f.g, d, env) && Passes(f.g[c], env)
    ensures f.g[c].Branch? && Successor(h[c], Side(f.g[c], env)) == FoldEdge(h, f.exits, f.ovals, c, d).value
  {
    hide Passes, Side, NumbersRight, Dominates, Distinct, Closed, SameWay;
    var q := Analysis.EdgeSource(|f.g|, d);
    assert SameTest(f.g1[c], h[c]) && SameTest(f.g1[q], h[q]);
    assert f.avals[c] == f.avals[q];
    SameTestSameSide(f.t, f.g[q], f.g1[q], f.g[c], f.g1[c], f.avals[c], f.ovals[q], f.ovals[c], env);
  }

  lemma FoldJustified(f: Phase, h: Graph, p: nat, side: bool, d: nat)
    requires Facts(f) && SameTests(f.g1, h) && SameKinds(f.g, h)
    requires p in f.reached && p < |h| && h[p].Branch? && Successor(h[p], side) < |h| && Successor(h[p], side) in f.reached
    requires d < 2 * |f.g| && d in Dominators(f.g, f.root, EdgeOf(f.g, p, side))
    requires FoldEdge(h, f.exits, f.ovals, Successor(h[p], side), d).Some?
    ensures Justified(f.g, h, f.root, p, side, FoldEdge(h, f.exits, f.ovals, Successor(h[p], side), d).value)
  {
    hide Passes, Side, NumbersRight, Distinct, Closed, FoldEdge, Path, Executed, SameWay, SameTests;
    var c, e := Successor(h[p], side), EdgeOf(f.g, p, side);
    forall tr, env | PathTo(Analysis.Edges(f.g), RootEdges(f.g, f.root), e, tr) && AllExecuted(f.g, tr, env) && Passes(f.g[c], env)
      ensures f.g[c].Branch? && Successor(h[c], Side(f.g[c], env)) == FoldEdge(h, f.exits, f.ovals, c, d).value
    {
      assert Dominates(Analysis.Edges(f.g), RootEdges(f.g, f.root), d, e);
      var i :| 0 <= i < |tr| && tr[i] == d;
      assert Executed(f.g, tr[i], env);
      Analysis.EdgePathStaysInside(f.g, f.reached, tr);
      FoldSameSide(f, h, c, d, env);
    }
  }

  /** A branch with one target goes there whatever its test says. */
  lemma CommonTargetJustified(g: Graph, h: Graph, root: nat, p: nat, side: bool)
    requires SameKinds(g, h) && p < |h| && h[p].Branch? && Successor(h[p], side) < |h|
    requires var c := Successor(h[p], side); h[c].Branch? && h[c].jt == h[c].jf
    ensures Justified(g, h, root, p, side, h[Successor(h[p], side)].jt)
  {
    hide Passes, Side, PathTo, AllExecuted;
  }

  /** Some register used on exit from the target differs between the two exits. */
  ghost predicate Conflicts(val: seq<nat>, targetVal: seq<nat>, targetUse: set<nat>)
    requires |val| == |targetVal| == N_ATOMS
  {
    exists a :: 0 <= a < N_ATOMS && a in targetUse && val[a] != targetVal[a]
  }

  /** use_conflict. */
  method UseConflict(val: seq<nat>, targetVal: seq<nat>, targetUse: set<nat>) returns (conflict: bool)
    requires |val| == |targetVal| == N_ATOMS
    ensures conflict <==> Conflicts(val, targetVal, targetUse)
  {
    if targetUse == {} { return false; }
    var atom := 0;
    while atom < N_ATOMS
      invariant 0 <= atom <= N_ATOMS && forall a :: 0 <= a < atom && a in targetUse ==> val[a] == targetVal[a]
    {
      if atom in targetUse && val[atom] != targetVal[atom] { return true; }
      atom := atom + 1;
    }
    return false;
  }

  // ---------------------------------------------------------------------
  // opt_j and the sweep
  // ---------------------------------------------------------------------

  /** The graph in the middle of the sweep: blocks above level `l` have not been touched. */
  ghost predicate Sweeping(f: Phase, h: Graph, lv: seq<nat>, l: int) {
    && PhaseSized(f) && SameKinds(f.g, h) && SameTests(f.g1, h) && Ranked(h, lv) && Closed(h, f.reached)
    && forall b :: 0 <= b < |f.g| && (lv[b] > l || b !in f.reached) ==> h[b] == f.g1[b]
  }

  /** Runs of `g` from the root that do not reject return the same value over the edges of `h`. */
  ghost predicate KeepsRuns(g: Graph, h: Graph, lv: seq<nat>, root: nat)
    requires Ranked(g, lv) && SameKinds(g, h) && Ranked(h, lv) && root < |g|
  {
    forall env :: !Follow(g, g, lv, root, env).Reject? ==> Follow(g, h, lv, root, env) == Follow(g, g, lv, root, env)
  }

  lemma MoveSweeps(f: Phase, h: Graph, lv: seq<nat>, p: nat, side: bool, target: nat)
    requires p < |f.g| && p < |lv| && Sweeping(f, h, lv, lv[p])
    requires h[p].Branch? && p in f.reached && target in f.reached && target < |h| && lv[target] < lv[p]
    ensures Sweeping(f, Redirected(h, p, side, target), lv, lv[p])
  {
    hide Closed;
    RedirectedClosed(h, f.reached, p, side, target);
  }

  lemma MoveKeepsRuns(f: Phase, h: Graph, lv: seq<nat>, p: nat, side: bool, target: nat)
    requires Facts(f) && Ranked(f.g, lv) && p < |f.g| && Sweeping(f, h, lv, lv[p]) && KeepsRuns(f.g, h, lv, f.root)
    requires h[p].Branch? && target < |h| && lv[target] < lv[p] && Justified(f.g, h, f.root, p, side, target)
    ensures var h' := Redirected(h, p, side, target); SameKinds(f.g, h') && Ranked(h', lv) && KeepsRuns(f.g, h', lv, f.root)
  {
    hide Justified, Follow, Closed, SameWay, NumbersRight, Dominates, Distinct, SameCompared;
    var h' := Redirected(h, p, side, target);
    forall env | !Follow(f.g, f.g, lv, f.root, env).Reject?
      ensures Follow(f.g, h', lv, f.root, env) == Follow(f.g, f.g, lv, f.root, env)
    {
      assert RunTo(f.g, f.root, [], f.root, env);
      MoveKeeps(f.g, h, lv, f.root, p, side, target, f.root, [], env);
    }
  }

  /** An edge into block `c` with these dominators cannot be moved: `c` has two targets, and no dominator decides its test. */
  ghost predicate Stuck(h: Graph, exits: seq<seq<nat>>, ovals: seq<nat>, c: nat, doms: iset<nat>)
    requires |h| == |exits| == |ovals| && forall b :: 0 <= b < |h| ==> |exits[b]| == N_ATOMS
  {
    c < |h| && h[c].Branch? ==>
      h[c].jt != h[c].jf && forall d :: d in doms && d < 2 * |h| ==> FoldEdge(h, exits, ovals, c, d) == None
  }

  /** The sweep finds no edge to move. */
  ghost predicate NothingMoves(f: Phase)
    requires PhaseSized(f)
  {
    forall b, side :: b in f.reached && b < |f.g1| && f.g1[b].Branch? ==>
                        Stuck(f.g1, f.exits, f.ovals, Successor(f.g1[b], side), Dominators(f.g, f.root, EdgeOf(f.g, b, side)))
  }

  /** The state of the sweep: if the numbers are right, runs have been kept so far. */
  ghost predicate Swept(f: Phase, h: Graph, lv: seq<nat>, l: int) {
    && Sweeping(f, h, lv, l) && Ranked(f.g, lv)
    && (Facts(f) ==> KeepsRuns(f.g, h, lv, f.root))
    && (NothingMoves(f) ==> h == f.g1)
  }

  lemma RedirectedClosed(h: Graph, s: set<nat>, p: nat, side: bool, target: nat)
    requires Closed(h, s) && p in s && p < |h| && h[p].Branch? && target in s
    ensures Closed(Redirected(h, p, side, target), s)
  {
    var h' := Redirected(h, p, side, target);
    forall b | b in s
      ensures ClosedAt(h', s, b)
    {
      assert ClosedAt(h, s, b);
      assert ClosedAt(h, s, p);
    }
  }

  lemma SweepingHas(f: Phase, h: Graph, lv: seq<nat>, l: int, b: nat)
    requires Sweeping(f, h, lv, l) && b in f.reached
    ensures b < |h| == |f.g| == |f.g1| == |lv| && (h[b].Branch? <==> f.g[b].Branch?)
    ensures h[b].Branch? ==> h[b].jt in f.reached && h[b].jt < |h| && lv[h[b].jt] < lv[b]
                             && h[b].jf in f.reached && h[b].jf < |h| && lv[h[b].jf] < lv[b]
  {
    ClosedHas(h, f.reached, b);
  }

  lemma SweepingTests(f: Phase, h: Graph, lv: seq<nat>, l: int)
    requires Sweeping(f, h, lv, l)
    ensures PhaseSized(f) && SameTests(f.g1, h) && Ranked(h, lv) && SameKinds(f.g, h)
  {
  }

  lemma StuckTargets(f: Phase, p: nat, side: bool)
    requires PhaseSized(f) && NothingMoves(f) && p in f.reached && p < |f.g1| && f.g1[p].Branch?
    ensures var c := Successor(f.g1[p], side); c < |f.g1| && f.g1[c].Branch? ==> f.g1[c].jt != f.g1[c].jf
  {
    hide FoldEdge, Dominators;
    assert Stuck(f.g1, f.exits, f.ovals, Successor(f.g1[p], side), Dominators(f.g, f.root, EdgeOf(f.g, p, side)));
  }

  lemma StuckEdge(f: Phase, p: nat, side: bool, d: nat)
    requires PhaseSized(f) && NothingMoves(f) && p in f.reached && p < |f.g1| && f.g1[p].Branch?
    requires d < 2 * |f.g| && d in Dominators(f.g, f.root, EdgeOf(f.g, p, side)) && Successor(f.g1[p], side) < |f.g1|
    ensures FoldEdge(f.g1, f.exits, f.ovals, Successor(f.g1[p], side), d) == None
  {
    hide Dominates;
    assert Stuck(f.g1, f.exits, f.ovals, Successor(f.g1[p], side), Dominators(f.g, f.root, EdgeOf(f.g, p, side)));
  }

  // ---------------------------------------------------------------------
  // Where opt_j moves an edge
  // ---------------------------------------------------------------------

  /** No register used on exit from `t` has another number there than on exit from `p`. */
  ghost predicate MayGoTo(f: Phase, p: nat, t: nat)
    requires PhaseSized(f) && p < |f.g|
  {
    t < |f.g| && !Conflicts(f.exits[p], f.exits[t], f.outUse[t])
  }

  /** Edge dominator `d` of edge (p, side) decides the test of block `c`, without a conflict. */
  ghost predicate Decides(f: Phase, h: Graph, p: nat, side: bool, c: nat, d: nat)
    requires PhaseSized(f) && |h| == |f.g| && p < |h| && c < |h| && d < 2 * |h|
  {
    var t := FoldEdge(h, f.exits, f.ovals, c, d);
    t.Some? && d in Dominators(f.g, f.root, EdgeOf(f.g, p, side)) && MayGoTo(f, p, t.value)
  }

  /** Where the first such dominator from `k` on sends the edge. */
  ghost function FirstFold(f: Phase, h: Graph, p: nat, side: bool, c: nat, k: nat): (t: Option<nat>)
    requires PhaseSized(f) && |h| == |f.g| && p < |h| && c < |h| && k <= 2 * |h|
    ensures t.Some? ==> h[c].Branch? && (t.value == h[c].jt || t.value == h[c].jf)
    decreases 2 * |h| - k
  {
    if k == 2 * |h| then None
    else if Decides(f, h, p, side, c, k) then FoldEdge(h, f.exits, f.ovals, c, k)
    else FirstFold(f, h, p, side, c, k + 1)
  }

  /** Where the edge stops when it is moved past one block after the other, from block `c` on. */
  ghost function FoldedTo(f: Phase, h: Graph, lv: seq<nat>, p: nat, side: bool, c: nat): nat
    requires PhaseSized(f) && |h| == |f.g| && Ranked(h, lv) && p < |h| && c < |h|
    decreases lv[c]
  {
    match FirstFold(f, h, p, side, c, 0)
    case None => c
    case Some(t) => FoldedTo(f, h, lv, p, side, t)
  }

  /** Both sides of block `c` lead to the same block, which edges from `p` may go to. */
  ghost predicate Pointless(f: Phase, h: Graph, p: nat, c: nat)
    requires PhaseSized(f) && |h| == |f.g| && p < |h| && c < |h|
  {
    h[c].Branch? && h[c].jt == h[c].jf && MayGoTo(f, p, h[c].jt)
  }

  /** What opt_j makes of an edge (p, side) into block `c`. */
  ghost function Landing(f: Phase, h: Graph, lv: seq<nat>, p: nat, side: bool, c: nat): nat
    requires PhaseSized(f) && |h| == |f.g| && Ranked(h, lv) && p < |h| && c < |h|
  {
    FoldedTo(f, h, lv, p, side, if Pointless(f, h, p, c) then h[c].jt else c)
  }

  lemma {:induction false} NoFoldLeft(f: Phase, h: Graph, p: nat, side: bool, c: nat, k: nat, d: nat)
    requires PhaseSized(f) && |h| == |f.g| && p < |h| && c < |h| && k <= d < 2 * |h|
    requires FirstFold(f, h, p, side, c, k) == None
    ensures !Decides(f, h, p, side, c, d)
    decreases 2 * |h| - k
  {
    hide FoldEdge, Dominators, MayGoTo;
    if k < d {
      NoFoldLeft(f, h, p, side, c, k + 1, d);
    }
  }

  /** No edge dominator is left that decides the test of the block where an edge stops. */
  lemma {:induction false} FoldedCompletely(f: Phase, h: Graph, lv: seq<nat>, p: nat, side: bool, c: nat, d: nat)
    requires PhaseSized(f) && |h| == |f.g| && Ranked(h, lv) && p < |h| && c < |h| && d < 2 * |h|
    ensures var e := FoldedTo(f, h, lv, p, side, c);
            e < |h| && lv[e] <= lv[c] && !Decides(f, h, p, side, e, d)
    decreases lv[c]
  {
    hide Decides;
    match FirstFold(f, h, p, side, c, 0)
    case None => NoFoldLeft(f, h, p, side, c, 0, d);
    case Some(t) => FoldedCompletely(f, h, lv, p, side, t, d);
  }

  /** The same for opt_j, which also never stops at a block whose sides lead to one block it may go to. */
  lemma LandsCompletely(f: Phase, h: Graph, lv: seq<nat>, p: nat, side: bool, c: nat, d: nat)
    requires PhaseSized(f) && |h| == |f.g| && Ranked(h, lv) && p < |h| && c < |h| && d < 2 * |h|
    ensures var e := Landing(f, h, lv, p, side, c);
            && e < |h| && lv[e] <= lv[c] && !Decides(f, h, p, side, e, d)
            && (Pointless(f, h, p, c) || Decides(f, h, p, side, c, d) ==> lv[e] < lv[c])
  {
    hide Decides, FoldedTo, MayGoTo;
    FoldedCompletely(f, h, lv, p, side, if Pointless(f, h, p, c) then h[c].jt else c, d);
    if !Pointless(f, h, p, c) && Decides(f, h, p, side, c, d) { Departs(f, h, lv, p, side, c, d); }
  }

  lemma LandsWell(f: Phase, h: Graph, lv: seq<nat>, p: nat, side: bool, c: nat)
    requires PhaseSized(f) && |h| == |f.g| && Ranked(h, lv) && p < |h| && c < |h|
    ensures var e := Landing(f, h, lv, p, side, c);
            && e < |h| && (Pointless(f, h, p, c) ==> e != c)
            && forall d :: 0 <= d < 2 * |h| ==> !Decides(f, h, p, side, e, d)
  {
    hide Decides, Landing, Pointless;
    LandsCompletely(f, h, lv, p, side, c, 0);
    forall d | 0 <= d < 2 * |h|
      ensures !Decides(f, h, p, side, Landing(f, h, lv, p, side, c), d)
    {
      LandsCompletely(f, h, lv, p, side, c, d);
    }
  }

  lemma Departs(f: Phase, h: Graph, lv: seq<nat>, p: nat, side: bool, c: nat, d: nat)
    requires PhaseSized(f) && |h| == |f.g| && Ranked(h, lv) && p < |h| && c < |h| && d < 2 * |h|
    requires Decides(f, h, p, side, c, d)
    ensures var e := FoldedTo(f, h, lv, p, side, c); e < |h| && lv[e] < lv[c]
  {
    hide Decides;
    match FirstFold(f, h, p, side, c, 0)
    case None => NoFoldLeft(f, h, p, side, c, 0, d);
    case Some(t) => FoldedCompletely(f, h, lv, p, side, t, 0);
  }

  /** Landings depend on the blocks from `c` down and on the tests of the others. */
  lemma SameFold(f: Phase, h: Graph, h': Graph, c: nat, d: nat)
    requires PhaseSized(f) && SameTests(f.g1, h) && SameTests(f.g1, h') && c < |h| && h[c] == h'[c] && d < 2 * |h|
    ensures FoldEdge(h, f.exits, f.ovals, c, d) == FoldEdge(h', f.exits, f.ovals, c, d)
  {
    var q := Analysis.EdgeSource(|h|, d);
    assert SameTest(f.g1[q], h[q]) && SameTest(f.g1[q], h'[q]);
  }

  lemma {:induction false} SameFirstFold(f: Phase, h: Graph, h': Graph, p: nat, side: bool, c: nat, k: nat)
    requires PhaseSized(f) && SameTests(f.g1, h) && SameTests(f.g1, h') && p < |h| && c < |h| && h[c] == h'[c] && k <= 2 * |h|
    ensures FirstFold(f, h, p, side, c, k) == FirstFold(f, h', p, side, c, k)
    decreases 2 * |h| - k
  {
    hide FoldEdge, Dominators, MayGoTo, SameTest;
    if k < 2 * |h| {
      SameFold(f, h, h', c, k);
      SameFirstFold(f, h, h', p, side, c, k + 1);
    }
  }

  lemma {:induction false} SameFolded(f: Phase, h: Graph, h': Graph, lv: seq<nat>, p: nat, side: bool, c: nat)
    requires PhaseSized(f) && SameTests(f.g1, h) && SameTests(f.g1, h') && Ranked(h, lv) && Ranked(h', lv) && p < |h| && c < |h|
    requires forall b :: 0 <= b < |h| && lv[b] <= lv[c] ==> h[b] == h'[b]
    ensures FoldedTo(f, h, lv, p, side, c) == FoldedTo(f, h', lv, p, side, c)
    decreases lv[c]
  {
    hide FirstFold, SameTest;
    SameFirstFold(f, h, h', p, side, c, 0);
    match FirstFold(f, h, p, side, c, 0)
    case None =>
    case Some(t) => SameFolded(f, h, h', lv, p, side, t);
  }

  lemma SameLanding(f: Phase, h: Graph, h': Graph, lv: seq<nat>, p: nat, side: bool, c: nat)
    requires PhaseSized(f) && SameTests(f.g1, h) && SameTests(f.g1, h') && Ranked(h, lv) && Ranked(h', lv) && p < |h| && c < |h|
    requires forall b :: 0 <= b < |h| && lv[b] <= lv[c] ==> h[b] == h'[b]
    ensures Landing(f, h, lv, p, side, c) == Landing(f, h', lv, p, side, c)
  {
    hide FoldedTo, SameTest, MayGoTo;
    SameFolded(f, h, h', lv, p, side, if Pointless(f, h, p, c) then h[c].jt else c);
  }

  /** opt_j on the edge of `p` named by `side`. */
  method OptJ(ghost f: Phase, h0: Graph, ghost lv: seq<nat>, exits: seq<seq<nat>>, ovals: seq<nat>, edom: seq<set<nat>>,
              outUse: seq<set<nat>>, p: nat, side: bool) returns (h: Graph)
    requires PhaseSized(f) && f.exits == exits && f.ovals == ovals && f.outUse == outUse && EdomRight(f, edom)
    requires p in f.reached && p < |f.g| && f.g[p].Branch? && p < |lv| && Swept(f, h0, lv, lv[p])
    ensures Swept(f, h, lv, lv[p])
    ensures |h0| == |f.g| && Ranked(h0, lv) && h0[p].Branch?
    ensures h == Redirected(h0, p, side, Landing(f, h0, lv, p, side, Successor(h0[p], side)))
    ensures var c0, c := Successor(h0[p], side), Successor(h[p], side);
            && c0 < |h0| && c < |h0|
            && (forall d :: 0 <= d < 2 * |h0| ==> !Decides(f, h0, p, side, c, d))
            && (Pointless(f, h0, p, c0) ==> c != c0)
  {
    hide Sweeping, KeepsRuns, Follow, Facts, Justified, SameKinds, NothingMoves, EdomRight, FoldedTo, Landing, Decides, Pointless,
         MayGoTo;
    h := h0;
    SweepingHas(f, h, lv, lv[p], p);
    SweepingTests(f, h, lv, lv[p]);
    var succ := Successor(h[p], side);
    LandsWell(f, h0, lv, p, side, succ);
    LandsAt(f, h0, lv, p, side, succ);
    SweepingHas(f, h, lv, lv[p], succ);
    if h[succ].Leaf? {
      LeafLands(f, h, lv, p, side, succ);
      return;
    }
    if h[succ].jt == h[succ].jf {
      var target := h[succ].jt;
      var conflict := UseConflict(exits[p], exits[target], outUse[target]);
      if !conflict {
        CommonTargetJustified(f.g, h, f.root, p, side);
        if NothingMoves(f) { StuckTargets(f, p, side); }
        if Facts(f) { MoveKeepsRuns(f, h, lv, p, side, target); }
        MoveSweeps(f, h, lv, p, side, target);
        h, succ := Redirected(h, p, side, target), target;
      }
    }
    SweepingTests(f, h, lv, lv[p]);
    SameFolded(f, h, h0, lv, p, side, succ);
    h := FoldAll(f, h, lv, exits, ovals, edom, outUse, p, side);
  }

  lemma LandsAt(f: Phase, h: Graph, lv: seq<nat>, p: nat, side: bool, c: nat)
    requires PhaseSized(f) && |h| == |f.g| && Ranked(h, lv) && p < |h| && c < |h|
    ensures Landing(f, h, lv, p, side, c) ==
            FoldedTo(f, h, lv, p, side,
                     if h[c].Branch? && h[c].jt == h[c].jf && !Conflicts(f.exits[p], f.exits[h[c].jt], f.outUse[h[c].jt]) then h[c].jt else c)
  {
    hide FoldedTo;
  }

  lemma LeafLands(f: Phase, h: Graph, lv: seq<nat>, p: nat, side: bool, c: nat)
    requires PhaseSized(f) && |h| == |f.g| && Ranked(h, lv) && p < |h| && c < |h| && h[c].Leaf?
    ensures Landing(f, h, lv, p, side, c) == c
  {
    hide FirstFold;
  }

  /** The search of opt_j through the edge dominators, started over after each move. */
  method FoldAll(ghost f: Phase, h0: Graph, ghost lv: seq<nat>, exits: seq<seq<nat>>, ovals: seq<nat>, edom: seq<set<nat>>,
                 outUse: seq<set<nat>>, p: nat, side: bool) returns (h: Graph)
    requires PhaseSized(f) && f.exits == exits && f.ovals == ovals && f.outUse == outUse && EdomRight(f, edom)
    requires p in f.reached && p < |f.g| && f.g[p].Branch? && p < |lv| && Swept(f, h0, lv, lv[p])
    ensures Swept(f, h, lv, lv[p])
    ensures |h0| == |f.g| && Ranked(h0, lv) && h0[p].Branch?
    ensures h == Redirected(h0, p, side, FoldedTo(f, h0, lv, p, side, Successor(h0[p], side)))
  {
    hide Sweeping, KeepsRuns, Follow, Facts, Justified, FoldEdge, SameKinds, NothingMoves, Dominators, FirstFold, MayGoTo,
         SameTests, EdomRight, Swept, Conflicts, Redirected, EdgeOf, Decides;
    h := h0;
    SweptHas(f, h, lv, p);
    EdomSized(f, edom);
    RedirectedNowhere(h, p, side);
    var k, succ := 0, Successor(h[p], side);
    ghost var stop := FoldedTo(f, h0, lv, p, side, succ);
    while k < |edom|
      invariant 0 <= k <= |edom| == 2 * |h| && |h| == |f.g| && h[p].Branch?
      invariant succ == Successor(h[p], side) < |h| && succ in f.reached && h == Redirected(h0, p, side, succ)
      invariant Swept(f, h, lv, lv[p]) && lv[succ] < lv[p]
      invariant forall c :: 0 <= c < |h| && c != p ==> h[c] == h0[c]
      invariant stop == FoldedTo(f, h0, lv, p, side, succ)
      invariant FirstFold(f, h0, p, side, succ, 0) == FirstFold(f, h0, p, side, succ, k)
      decreases lv[succ], |edom| - k
    {
      SweptHas(f, h, lv, p);
      SameFold(f, h, h0, succ, k);
      OneFold(f, h0, p, side, succ, k);
      EdomTells(f, edom, p, side, k);
      DecidesIs(f, h0, h, p, side, succ, k);
      SameEdge(f, h, p, side);
      if k in edom[EdgeOf(h, p, side)] {
        var folded := FoldEdge(h, exits, ovals, succ, k);
        if folded.Some? {
          FoldedIsBelow(h, exits, ovals, succ, k);
          SuccessorsInside(h, lv, succ);
          var target := folded.value;
          var conflict := UseConflict(exits[p], exits[target], outUse[target]);
          MayGoToIs(f, p, target);
          if !conflict {
            FoldSweeps(f, h, lv, p, side, k);
            RedirectedTwice(h0, p, side, succ, target);
            h, succ := Redirected(h, p, side, target), target;
            if h[target].Leaf? {
              LeafStops(f, h0, lv, p, side, target);
              return;
            }
            k := 0;
            continue;
          }
        }
      }
      k := k + 1;
    }
    NoneLeft(f, h0, p, side, succ);
  }

  /** A move that an edge dominator justifies keeps the state of the sweep. */
  lemma FoldSweeps(f: Phase, h: Graph, lv: seq<nat>, p: nat, side: bool, d: nat)
    requires Swept(f, h, lv, if p < |lv| then lv[p] else 0) && p in f.reached && p < |f.g| && |h| == |f.g| && h[p].Branch?
    requires p < |lv| && Successor(h[p], side) < |h| && Successor(h[p], side) in f.reached && d < 2 * |h|
    requires PhaseSized(f) && Decides(f, h, p, side, Successor(h[p], side), d)
    ensures var t := FoldEdge(h, f.exits, f.ovals, Successor(h[p], side), d).value;
            && t < |h| && t in f.reached && |lv| == |h| && lv[t] < lv[Successor(h[p], side)] < lv[p]
            && Swept(f, Redirected(h, p, side, t), lv, lv[p])
  {
    hide Sweeping, KeepsRuns, Follow, Facts, Justified, FoldEdge, SameKinds, NothingMoves, Dominators, SameTests, Ranked;
    var c := Successor(h[p], side);
    SweepingHas(f, h, lv, lv[p], p);
    SweepingHas(f, h, lv, lv[p], c);
    SweepingTests(f, h, lv, lv[p]);
    FoldedIsBelow(h, f.exits, f.ovals, c, d);
    var t := FoldEdge(h, f.exits, f.ovals, c, d).value;
    if NothingMoves(f) { StuckEdge(f, p, side, d); }
    if Facts(f) {
      FoldJustified(f, h, p, side, d);
      MoveKeepsRuns(f, h, lv, p, side, t);
    }
    MoveSweeps(f, h, lv, p, side, t);
  }

  lemma SweptHas(f: Phase, h: Graph, lv: seq<nat>, p: nat)
    requires p in f.reached && p < |lv| && Swept(f, h, lv, lv[p])
    ensures PhaseSized(f) && SameTests(f.g1, h) && Ranked(h, lv) && |h| == |f.g| == |lv|
    ensures f.g[p].Branch? <==> h[p].Branch?
    ensures h[p].Branch? ==> h[p].jt in f.reached && h[p].jt < |h| && lv[h[p].jt] < lv[p]
                             && h[p].jf in f.reached && h[p].jf < |h| && lv[h[p].jf] < lv[p]
  {
    hide Sweeping, KeepsRuns, Facts, NothingMoves;
    SweepingHas(f, h, lv, lv[p], p);
    SweepingTests(f, h, lv, lv[p]);
  }

  lemma SuccessorsInside(h: Graph, lv: seq<nat>, c: nat)
    requires Ranked(h, lv) && c < |h| && h[c].Branch?
    ensures h[c].jt < |h| && h[c].jf < |h|
  {
  }

  lemma DecidesIs(f: Phase, h0: Graph, h: Graph, p: nat, side: bool, c: nat, d: nat)
    requires PhaseSized(f) && |h| == |f.g| == |h0| && p < |h| && c < |h| && d < 2 * |h|
    requires FoldEdge(h, f.exits, f.ovals, c, d) == FoldEdge(h0, f.exits, f.ovals, c, d)
    ensures Decides(f, h0, p, side, c, d) == Decides(f, h, p, side, c, d)
    ensures Decides(f, h0, p, side, c, d) <==>
              var t := FoldEdge(h0, f.exits, f.ovals, c, d);
              t.Some? && d in Dominators(f.g, f.root, EdgeOf(f.g, p, side)) && MayGoTo(f, p, t.value)
  {
    hide FoldEdge, Dominators, MayGoTo;
  }

  lemma SameEdge(f: Phase, h: Graph, p: nat, side: bool)
    requires |h| == |f.g| && p < |h|
    ensures EdgeOf(h, p, side) == EdgeOf(f.g, p, side) < 2 * |h|
  {
  }

  lemma RedirectedNowhere(h: Graph, p: nat, side: bool)
    requires p < |h| && h[p].Branch?
    ensures h == Redirected(h, p, side, Successor(h[p], side))
  {
  }

  lemma RedirectedTwice(h: Graph, p: nat, side: bool, a: nat, b: nat)
    requires p < |h| && h[p].Branch?
    ensures var h' := Redirected(h, p, side, a);
            && |h'| == |h| && h'[p].Branch? && Redirected(h', p, side, b) == Redirected(h, p, side, b)
            && |Redirected(h, p, side, b)| == |h| && Redirected(h, p, side, b)[p].Branch?
            && Successor(Redirected(h, p, side, b)[p], side) == b
            && forall c :: 0 <= c < |h| && c != p ==> Redirected(h, p, side, b)[c] == h[c]
  {
  }

  lemma OneFold(f: Phase, h: Graph, p: nat, side: bool, c: nat, k: nat)
    requires PhaseSized(f) && |h| == |f.g| && p < |h| && c < |h| && k < 2 * |h|
    ensures FirstFold(f, h, p, side, c, k) ==
            if Decides(f, h, p, side, c, k) then FoldEdge(h, f.exits, f.ovals, c, k) else FirstFold(f, h, p, side, c, k + 1)
  {
    hide FoldEdge, Decides;
  }

  lemma NoneLeft(f: Phase, h: Graph, p: nat, side: bool, c: nat)
    requires PhaseSized(f) && |h| == |f.g| && p < |h| && c < |h|
    ensures FirstFold(f, h, p, side, c, 2 * |h|) == None
  {
  }

  lemma LeafStops(f: Phase, h: Graph, lv: seq<nat>, p: nat, side: bool, c: nat)
    requires PhaseSized(f) && |h| == |f.g| && Ranked(h, lv) && p < |h| && c < |h| && h[c].Leaf?
    ensures FoldedTo(f, h, lv, p, side, c) == c
  {
    hide FirstFold;
  }

  lemma MayGoToIs(f: Phase, p: nat, t: nat)
    requires PhaseSized(f) && p < |f.g| && t < |f.g|
    ensures MayGoTo(f, p, t) <==> !Conflicts(f.exits[p], f.exits[t], f.outUse[t])
  {
  }

  lemma EdomSized(f: Phase, edom: seq<set<nat>>)
    requires EdomRight(f, edom)
    ensures |edom| == 2 * |f.g|
  {
  }

  lemma EdomTells(f: Phase, edom: seq<set<nat>>, p: nat, side: bool, d: nat)
    requires EdomRight(f, edom) && p in f.reached && p < |f.g| && d < 2 * |f.g|
    ensures d in edom[EdgeOf(f.g, p, side)] <==> d in Dominators(f.g, f.root, EdgeOf(f.g, p, side))
  {
    hide Dominates;
  }

  lemma FoldedIsBelow(h: Graph, exits: seq<seq<nat>>, ovals: seq<nat>, c: nat, d: nat)
    requires c < |h| == |exits| == |ovals| && d < 2 * |h| && forall b :: 0 <= b < |h| ==> |exits[b]| == N_ATOMS
    ensures var r := FoldEdge(h, exits, ovals, c, d);
            r.Some? ==> h[c].Branch? && (r.value == h[c].jt || r.value == h[c].jf)
  {
  }

  /** Levels as a rank for every block of the graph. */
  ghost function Heights(g: Graph, rank: seq<nat>): (lv: seq<nat>)
    requires Ranked(g, rank)
    ensures |lv| == |g| && forall b :: 0 <= b < |g| ==> lv[b] == Analysis.LevelOf(g, rank, b)
  {
    seq(|g|, b requires 0 <= b < |g| => Analysis.LevelOf(g, rank, b))
  }

  lemma HeightsRank(g: Graph, rank: seq<nat>)
    requires Ranked(g, rank)
    ensures Ranked(g, Heights(g, rank))
  {
    hide Analysis.LevelOf;
    forall b | 0 <= b < |g|
      ensures g[b].Branch? ==> Analysis.LevelOf(g, rank, g[b].jt) < Analysis.LevelOf(g, rank, b)
                               && Analysis.LevelOf(g, rank, g[b].jf) < Analysis.LevelOf(g, rank, b)
    {
      Analysis.LevelStep(g, rank, b);
    }
  }

  lemma SweepUp(f: Phase, h: Graph, lv: seq<nat>, l: int, l': int)
    requires Swept(f, h, lv, l) && l <= l'
    ensures Swept(f, h, lv, l')
  {
  }

  /** The second loop of opt_blks: both edges of every block, from the lowest level up. */
  method Sweep(an: Analysis.Analyzer, ghost f: Phase, g1: Graph, ghost lv: seq<nat>, exits: seq<seq<nat>>, ovals: seq<nat>,
               edom: seq<set<nat>>, outUse: seq<set<nat>>) returns (h: Graph)
    requires an.Leveled() && lv == Heights(an.g, an.rank) && PhaseSized(f) && SameKinds(f.g, g1) && f.g == an.g && f.g1 == g1
    requires f.root == an.root && f.reached == an.reached && Ranked(f.g, lv) && Ranked(g1, lv) && Closed(g1, an.reached)
    requires f.exits == exits && f.ovals == ovals && f.outUse == outUse && EdomRight(f, edom)
    ensures SameKinds(f.g, h) && SameTests(g1, h) && Ranked(h, lv) && Closed(h, an.reached)
    ensures forall b :: 0 <= b < |g1| && b !in an.reached ==> h[b] == g1[b]
    ensures Facts(f) ==> KeepsRuns(f.g, h, lv, an.root)
    ensures NothingMoves(f) ==> h == g1
    ensures forall b :: b in f.reached ==> Threaded(f, h, lv, b)
  {
    hide Analysis.LevelLists, Analysis.LevelOf, Closed, KeepsRuns, Sweeping, Follow, Facts, SameKinds, NothingMoves, EdomRight, Threaded;
    Analysis.LevelListFacts(an.g, an.rank, an.level, an.levels, an.reached);
    h := g1;
    StartSweep(f, lv);
    ghost var done := LeavesThreaded(an, f, lv);
    var l := 1;
    while l <= an.level[an.root]
      invariant 1 <= l && Swept(f, h, lv, l - 1) && Halfway(f, h, lv, done)
      invariant forall b :: b in f.reached ==> (b in done <==> lv[b] < l)
    {
      SweepUp(f, h, lv, l - 1, l);
      ghost var below := done;
      var i := 0;
      while i < |an.levels[l]|
        invariant 0 <= i <= |an.levels[l]| && Swept(f, h, lv, l) && Halfway(f, h, lv, done)
        invariant done == below + Listed(an.levels[l][..i])
        invariant forall b :: b in done && b in f.reached ==> lv[b] <= l
      {
        var p := an.levels[l][i];
        InSweep(an, l, i);
        NotYetListed(an, l, i);
        h := BothEdges(f, h, lv, exits, ovals, edom, outUse, p, done);
        ListedNext(an.levels[l], i);
        done := done + {p};
        i := i + 1;
      }
      LevelListed(an, l, lv);
      assert an.levels[l][..i] == an.levels[l];
      l := l + 1;
    }
    SweepDone(f, h, lv, l - 1);
    assert forall b :: b in f.reached ==> b in done;
  }

  /** The two calls of opt_j for block `p`. */
  method BothEdges(ghost f: Phase, h0: Graph, ghost lv: seq<nat>, exits: seq<seq<nat>>, ovals: seq<nat>, edom: seq<set<nat>>,
                   outUse: seq<set<nat>>, p: nat, ghost done: set<nat>) returns (h: Graph)
    requires PhaseSized(f) && f.exits == exits && f.ovals == ovals && f.outUse == outUse && EdomRight(f, edom)
    requires p in f.reached && p < |f.g| && f.g[p].Branch? && p < |lv| && Swept(f, h0, lv, lv[p])
    requires p !in done && Halfway(f, h0, lv, done) && Ranked(f.g1, lv)
    requires |lv| == |f.g| && forall b :: b in done && b in f.reached && b < |lv| ==> lv[b] <= lv[p]
    ensures Swept(f, h, lv, lv[p]) && Halfway(f, h, lv, done + {p})
  {
    hide Sweeping, KeepsRuns, Facts, NothingMoves, EdomRight, Landing, Decides, Pointless, Halfway, Threaded, SameTests;
    SweptHas(f, h0, lv, p);
    var h1 := OptJ(f, h0, lv, exits, ovals, edom, outUse, p, true);
    SweptHas(f, h1, lv, p);
    h := OptJ(f, h1, lv, exits, ovals, edom, outUse, p, false);
    SweptHas(f, h, lv, p);
    OneMore(f, h0, h1, h, lv, done, p);
  }

  /** Both edges of block `b` lead where opt_j moves them. */
  ghost predicate Threaded(f: Phase, h: Graph, lv: seq<nat>, b: nat) {
    && PhaseSized(f) && |h| == |f.g| && Ranked(h, lv) && b < |h| && SameTest(f.g1[b], h[b])
    && (f.g1[b].Branch? <==> h[b].Branch?)
    && forall side :: f.g1[b].Branch? && Successor(f.g1[b], side) < |h| ==>
                        Successor(h[b], side) == Landing(f, h, lv, b, side, Successor(f.g1[b], side))
  }

  /** The blocks of `done` are finished, the others as they were. */
  ghost predicate Halfway(f: Phase, h: Graph, lv: seq<nat>, done: set<nat>) {
    && |h| == |f.g| == |f.g1|
    && forall b :: b in f.reached && b < |h| ==> if b in done then Threaded(f, h, lv, b) else h[b] == f.g1[b]
  }

  /**
   * After the sweep every edge leads to a return, or to a block whose test is not decided by any edge
   * dominator that names a target without a conflict; and an edge has left the block it led to
   * before, if a dominator decides that block's test, or both its sides lead to one block, without
   * a conflict.
   */
  lemma ThreadedCompletely(f: Phase, h: Graph, lv: seq<nat>, b: nat, side: bool, d: nat)
    requires Threaded(f, h, lv, b) && f.g1[b].Branch? && Successor(f.g1[b], side) < |h| && d < 2 * |h|
    requires d in Dominators(f.g, f.root, EdgeOf(f.g, b, side))
    ensures var c := Successor(h[b], side);
            && c < |h|
            && match FoldEdge(h, f.exits, f.ovals, c, d)
               case None => true
               case Some(t) => t < |h| && Conflicts(f.exits[b], f.exits[t], f.outUse[t])
    ensures var c0 := Successor(f.g1[b], side);
            h[c0].Branch? && h[c0].jt == h[c0].jf && !Conflicts(f.exits[b], f.exits[h[c0].jt], f.outUse[h[c0].jt]) ==>
              Successor(h[b], side) != c0
    ensures var c0 := Successor(f.g1[b], side);
            match FoldEdge(h, f.exits, f.ovals, c0, d)
            case None => true
            case Some(t) => t < |h| && (!Conflicts(f.exits[b], f.exits[t], f.outUse[t]) ==> Successor(h[b], side) != c0)
  {
    hide Landing, Dominators;
    var c0 := Successor(f.g1[b], side);
    LandsCompletely(f, h, lv, b, side, c0, d);
    FoldedIsBelow(h, f.exits, f.ovals, c0, d);
    FoldedIsBelow(h, f.exits, f.ovals, Successor(h[b], side), d);
  }

  /** Every edge dominates itself. */
  lemma DominatesItself(g: Graph, root: nat, e: nat)
    ensures e in Dominators(g, root, e)
  {
    assert forall p :: PathTo(Analysis.Edges(g), RootEdges(g, root), e, p) ==> p[|p| - 1] == e && e in p;
  }

  /**
   * A block that repeats the test of block `b` is skipped by both edges of `b`, and one that compares
   * the same accumulator with another constant is skipped by the true edge, unless a register has
   * another number where the edge would then lead.
   */
  lemma RepeatedTestsSkipped(f: Phase, h: Graph, lv: seq<nat>, b: nat, side: bool)
    requires Threaded(f, h, lv, b) && SameTests(f.g1, h) && f.g1[b].Branch?
    requires var c := Successor(f.g1[b], side);
             && c < |h| && h[c].Branch? && h[c].cmp == h[b].cmp && h[c].src == h[b].src
             && f.exits[c][A_ATOM] == f.exits[b][A_ATOM]
             && if f.ovals[c] == f.ovals[b] then MayGoTo(f, b, Successor(h[c], side))
                else side && h[b].cmp == Jeq && h[b].src == K && MayGoTo(f, b, h[c].jf)
    ensures Successor(h[b], side) != Successor(f.g1[b], side)
  {
    hide Dominators, Threaded, SameTests, Ranked;
    ThreadedShape(f, h, lv, b);
    var e := EdgeOf(f.g, b, side);
    DominatesItself(f.g, f.root, e);
    ThreadedCompletely(f, h, lv, b, side, e);
  }

  lemma ThreadedShape(f: Phase, h: Graph, lv: seq<nat>, b: nat)
    requires Threaded(f, h, lv, b)
    ensures PhaseSized(f) && |h| == |f.g| && b < |h| && Ranked(h, lv) && (f.g1[b].Branch? <==> h[b].Branch?)
  {
    hide Landing, Ranked;
  }

  ghost function Listed(s: seq<nat>): set<nat> { set b | b in s }

  lemma ListedNext(s: seq<nat>, i: nat)
    requires i < |s|
    ensures Listed(s[..i + 1]) == Listed(s[..i]) + {s[i]}
  {
  }


  lemma StartSweep(f: Phase, lv: seq<nat>)
    requires PhaseSized(f) && SameKinds(f.g, f.g1) && Ranked(f.g, lv) && Ranked(f.g1, lv) && Closed(f.g1, f.reached)
    ensures Swept(f, f.g1, lv, 0)
  {
    hide Closed, Follow, NumbersRight, Dominates, SameWay, SameCompared, Distinct, NothingMoves;
    forall env | Facts(f)
      ensures Follow(f.g, f.g1, lv, f.root, env) == Follow(f.g, f.g, lv, f.root, env)
    {
      SameWayFollows(f.g, f.g1, lv, f.root, env);
    }
  }

  lemma {:induction false} SameWayFollows(g: Graph, h: Graph, lv: seq<nat>, b: nat, env: Env)
    requires SameKinds(g, h) && Ranked(g, lv) && Ranked(h, lv) && b < |g|
    requires forall c :: 0 <= c < |g| ==> SameWay(g[c], h[c])
    ensures Follow(g, h, lv, b, env) == Follow(g, g, lv, b, env)
    decreases lv[b]
  {
    hide Passes, Side;
    assert SameWay(g[b], h[b]);
    if Passes(g[b], env) && g[b].Branch? {
      SameWayFollows(g, h, lv, Successor(g[b], Side(g[b], env)), env);
    }
  }

  lemma SweepDone(f: Phase, h: Graph, lv: seq<nat>, l: int)
    requires Sweeping(f, h, lv, l)
    ensures SameKinds(f.g, h) && SameTests(f.g1, h) && Ranked(h, lv) && Closed(h, f.reached)
    ensures forall b :: 0 <= b < |f.g1| && b !in f.reached ==> h[b] == f.g1[b]
  {
  }

  /** Leaves have no edges to move. */
  lemma LeavesThreaded(an: Analysis.Analyzer, f: Phase, lv: seq<nat>) returns (done: set<nat>)
    requires an.Leveled() && lv == Heights(an.g, an.rank) && PhaseSized(f) && SameKinds(f.g, f.g1) && f.g == an.g
    requires f.reached == an.reached && Ranked(f.g1, lv)
    ensures Halfway(f, f.g1, lv, done)
    ensures forall b :: b in f.reached ==> (b in done <==> lv[b] < 1)
  {
    hide Analysis.LevelLists, Analysis.LevelOf, Landing, Closed;
    Analysis.LevelListFacts(an.g, an.rank, an.level, an.levels, an.reached);
    done := set b | b in f.reached && lv[b] == 0;
    forall b | b in done
      ensures Threaded(f, f.g1, lv, b)
    {
      Analysis.LevelStep(an.g, an.rank, b);
    }
  }

  lemma NotYetListed(an: Analysis.Analyzer, l: nat, i: nat)
    requires an.Leveled() && l < |an.g| && i < |an.levels[l]|
    ensures an.levels[l][i] !in an.levels[l][..i]
  {
    hide Analysis.LevelOf, Closed;
  }

  lemma LevelListed(an: Analysis.Analyzer, l: nat, lv: seq<nat>)
    requires an.Leveled() && l < |an.g| && lv == Heights(an.g, an.rank)
    ensures forall b :: b in an.reached ==> (b in Listed(an.levels[l]) <==> lv[b] == l)
  {
    hide Analysis.LevelOf, Closed;
    Analysis.LevelListFacts(an.g, an.rank, an.level, an.levels, an.reached);
    forall b | b in an.reached
      ensures b in Listed(an.levels[l]) <==> lv[b] == l
    {
      assert Analysis.InLevel(an.levels, l, b) <==> an.level[b] == l;
    }
  }

  /** Finishing block `p` leaves the finished blocks below it finished. */
  lemma OneMore(f: Phase, h0: Graph, h1: Graph, h: Graph, lv: seq<nat>, done: set<nat>, p: nat)
    requires PhaseSized(f) && |h0| == |f.g| && p in f.reached && p < |h0| && Ranked(h0, lv) && h0[p].Branch? && p !in done
    requires SameTests(f.g1, h0) && SameTests(f.g1, h) && SameTests(f.g1, h1) && Ranked(h1, lv) && Ranked(h, lv) && Ranked(f.g1, lv)
    requires Halfway(f, h0, lv, done) && forall b :: b in done && b in f.reached && b < |h0| ==> lv[b] <= lv[p]
    requires h1 == Redirected(h0, p, true, Landing(f, h0, lv, p, true, Successor(h0[p], true)))
    requires h == Redirected(h1, p, false, Landing(f, h1, lv, p, false, Successor(h1[p], false)))
    ensures Halfway(f, h, lv, done + {p})
  {
    hide Landing, SameTest;
    forall b | b in f.reached && b < |h|
      ensures if b in done + {p} then Threaded(f, h, lv, b) else h[b] == f.g1[b]
    {
      if b == p {
        SameLanding(f, h0, h, lv, p, true, Successor(h0[p], true));
        SameLanding(f, h1, h, lv, p, false, Successor(h1[p], false));
        assert SameTest(f.g1[p], h[p]);
      } else if b in done {
        StillThreaded(f, h0, h, lv, p, b);
      }
    }
  }

  lemma StillThreaded(f: Phase, h0: Graph, h: Graph, lv: seq<nat>, p: nat, b: nat)
    requires PhaseSized(f) && |h0| == |f.g| && p < |h0| && Ranked(h0, lv) && Ranked(h, lv) && b != p
    requires SameTests(f.g1, h0) && SameTests(f.g1, h) && Threaded(f, h0, lv, b) && lv[b] <= lv[p]
    requires forall c :: 0 <= c < |h| && c != p ==> h[c] == h0[c]
    requires Ranked(f.g1, lv)
    ensures Threaded(f, h, lv, b)
  {
    hide Landing, SameTest;
    forall side | f.g1[b].Branch? && Successor(f.g1[b], side) < |h|
      ensures Successor(h[b], side) == Landing(f, h, lv, b, side, Successor(f.g1[b], side))
    {
      SameLanding(f, h0, h, lv, b, side, Successor(f.g1[b], side));
    }
  }

  lemma InSweep(an: Analysis.Analyzer, l: nat, i: nat)
    requires an.Leveled() && 1 <= l < |an.g| && i < |an.levels[l]|
    ensures var p := an.levels[l][i];
            p in an.reached && p < |an.g| && an.g[p].Branch? && Analysis.LevelOf(an.g, an.rank, p) == l
  {
    hide Analysis.LevelOf, Closed;
    var p := an.levels[l][i];
    assert Analysis.InLevel(an.levels, l, p);
    Analysis.LevelListFacts(an.g, an.rank, an.level, an.levels, an.reached);
    Analysis.LevelStep(an.g, an.rank, p);
  }

  // ---------------------------------------------------------------------
  // The pass
  // ---------------------------------------------------------------------

  /** No branch has its sides exchanged, which would turn its edges round under the edge dominators. */
  ghost predicate Unflipped(c: Setting, p: PassState)
    requires Sized(c, p)
  {
    forall b :: b in c.reached && b < |c.g| && PassedAt(c, p, b) ==> !MergedAt(c, p, b).Mask?
  }

  /** Of two branches with equal opcodes and accumulator numbers, both or neither absorbed a subtraction. */
  ghost predicate Uniform(c: Setting, p: PassState)
    requires Sized(c, p)
  {
    forall b, q :: b in c.reached && b < |c.g| && q in c.reached && q < |c.g| && PassedAt(c, p, b) && PassedAt(c, p, q)
                   && p.g[b].Branch? && p.g[q].Branch? && p.g[b].cmp == p.g[q].cmp && p.g[b].src == p.g[q].src
                   && p.exit[b][A_ATOM] == p.exit[q][A_ATOM] ==>
                     (MergedAt(c, p, b).Keep? <==> MergedAt(c, p, q).Keep?)
  }

  /** What the first loop of the pass hands to the second. */
  ghost function PhaseOf(c: Setting, p: PassState, root: nat): Phase
    requires Passing(c, p, c.reached)
  {
    var avals := seq(|c.g|, b requires 0 <= b < |c.g| => if b in c.reached && PassedAt(c, p, b) then TestNumber(c, p, b) else 0);
    Phase(c.g, p.g, root, c.reached, p.t, p.exit, p.oval, avals, c.outUse)
  }

  lemma PassSameWay(c: Setting, p: PassState, b: nat)
    requires Sized(c, p) && b < |c.g| && PassedAt(c, p, b) && !c.alter && SelfContained(c.g[b]) && !MergedAt(c, p, b).Mask?
    ensures SameWay(c.g[b], p.g[b])
  {
    hide OptList, ExecList, WellNumbered, EdgeInto, EntryOf, Left, PeepBlock, SelfContained, MergedInto, DeadRemoved, LiveIn;
    if c.g[b].Branch? {
      LeftContained(c, p, b);
      NumberedShape(p.t, c.g[b], p.g[b], p.entry[b], p.exit[b], p.oval[b], c.alter, c.outUse[b], p.before[b]);
      forall env | Passes(c.g[b], env)
        ensures Successor(p.g[b], Side(c.g[b], env)) == Successor(c.g[b], Side(c.g[b], env))
      {
        PeepholeRuns(c, p, b, env);
      }
    }
  }

  lemma FactsHold(an: Analysis.Analyzer, c: Setting, p: PassState)
    requires an.Leveled() && AllSelfContained(an.g, an.reached) && Distinct(p.t) && WellNumbered(p.t)
    requires c.g == an.g && c.reached == an.reached && !c.alter && Passing(c, p, c.reached) && Unflipped(c, p) && Uniform(c, p)
    ensures Facts(PhaseOf(c, p, an.root))
  {
    hide Analysis.LevelLists, Analysis.LevelOf, Closed, Dominates, NumbersRight, SameWay, WellNumbered, Passing, SameCompared,
         Unflipped, Uniform, SameKinds, Distinct, AllSelfContained, PhaseOf, PhaseSized;
    Analysis.LevelListFacts(an.g, an.rank, an.level, an.levels, an.reached);
    PhaseShape(an, c, p);
    BlocksHold(c, p, an.root);
    SameComparedHolds(c, p, an.root);
  }

  lemma EdomHolds(an: Analysis.Analyzer, c: Setting, p: PassState)
    requires an.Leveled() && |an.edom| == 2 * |an.g| && c.g == an.g && c.reached == an.reached && Passing(c, p, c.reached)
    requires forall e, a :: 0 <= e < 2 * |an.g| && Analysis.EdgeSource(|an.g|, e) in an.reached && 0 <= a < 2 * |an.g| ==>
               (a in an.edom[e] <==> Dominates(Analysis.Edges(an.g), an.RootEdges(), a, e))
    ensures PhaseSized(PhaseOf(c, p, an.root)) && EdomRight(PhaseOf(c, p, an.root), an.edom)
  {
    hide Analysis.LevelLists, Analysis.LevelOf, Closed, Dominates, Passing, PhaseOf, PhaseSized, SameKinds;
    PhaseShape(an, c, p);
    assert an.RootEdges() == RootEdges(an.g, an.root);
  }

  lemma BlocksHold(c: Setting, p: PassState, root: nat)
    requires AllSelfContained(c.g, c.reached) && WellNumbered(p.t) && !c.alter && Passing(c, p, c.reached) && Unflipped(c, p)
    ensures var f := PhaseOf(c, p, root);
            && |f.avals| == |c.g| == |p.g| == |p.oval|
            && (forall b :: 0 <= b < |c.g| ==> SameWay(c.g[b], p.g[b]))
            && forall b :: b in c.reached && b < |c.g| ==> NumbersRight(p.t, c.g[b], p.g[b], f.avals[b], p.oval[b])
  {
    hide SelfContained, PassedAt, NumbersRight, Live, MergedAt, TestNumber, SameWay, WellNumbered;
    var f := PhaseOf(c, p, root);
    forall b | 0 <= b < |c.g|
      ensures SameWay(c.g[b], p.g[b])
      ensures b in c.reached ==> NumbersRight(p.t, c.g[b], p.g[b], f.avals[b], p.oval[b])
    {
      if b in c.reached {
        assert PassedAt(c, p, b) && SelfContained(c.g[b]);
        NumberedRight(c, p, b);
        PassSameWay(c, p, b);
      } else {
        SameWayHere(c.g[b]);
      }
    }
  }

  lemma SameWayHere(b: Block)
    ensures SameWay(b, b)
  {
  }

  lemma SameComparedHolds(c: Setting, p: PassState, root: nat)
    requires Passing(c, p, c.reached) && Unflipped(c, p) && Uniform(c, p) && PhaseSized(PhaseOf(c, p, root))
    ensures SameCompared(PhaseOf(c, p, root))
  {
    hide PassedAt, Passing, MergedAt, TestNumber, Unflipped, Uniform;
    var f := PhaseOf(c, p, root);
    forall b, q | b in c.reached && b < |c.g| && q in c.reached && q < |c.g| && p.g[b].Branch? && p.g[q].Branch?
                  && p.g[b].cmp == p.g[q].cmp && p.g[b].src == p.g[q].src && p.exit[b][A_ATOM] == p.exit[q][A_ATOM]
      ensures f.avals[b] == f.avals[q]
    {
      PassedHere(c, p, b);
      PassedHere(c, p, q);
      SameTestNumber(c, p, b, q);
    }
  }

  lemma PassedHere(c: Setting, p: PassState, b: nat)
    requires Passing(c, p, c.reached) && b in c.reached && b < |c.g|
    ensures Sized(c, p) && PassedAt(c, p, b)
  {
    hide PassedAt, Live;
  }

  lemma SameTestNumber(c: Setting, p: PassState, b: nat, q: nat)
    requires Sized(c, p) && Unflipped(c, p) && Uniform(c, p) && b in c.reached && b < |c.g| && q in c.reached && q < |c.g|
    requires PassedAt(c, p, b) && PassedAt(c, p, q) && p.g[b].Branch? && p.g[q].Branch?
    requires p.g[b].cmp == p.g[q].cmp && p.g[b].src == p.g[q].src && p.exit[b][A_ATOM] == p.exit[q][A_ATOM]
    ensures TestNumber(c, p, b) == TestNumber(c, p, q)
  {
    hide PassedAt, MergedAt;
  }

  /** The sweep has no edge to move. */
  ghost predicate Unmoved(c: Setting, p: PassState, root: nat)
    requires Sized(c, p)
  {
    forall b, side :: b in c.reached && b < |p.g| && p.g[b].Branch? ==>
                        Stuck(p.g, p.exit, p.oval, Successor(p.g[b], side), Dominators(c.g, root, EdgeOf(c.g, b, side)))
  }

  lemma UnmovedIs(c: Setting, p: PassState, root: nat)
    requires Passing(c, p, c.reached) && Unmoved(c, p, root) && PhaseSized(PhaseOf(c, p, root))
    ensures NothingMoves(PhaseOf(c, p, root))
  {
    hide Passing, Stuck, Dominators;
  }

  /** Returns carry no statements. */
  ghost predicate BareReturns(g: Graph, s: set<nat>) { forall b :: b in s && b < |g| && g[b].Leaf? ==> g[b].stmts == [] }

  /**
   * A pass with do_stmts clear: levels, edge dominators and liveness of the graph as it stands,
   * numbering, peephole rules and dead-store removal block by block, then the sweep, which moves
   * edges without recomputing any of them. It fails only at a return with statements. Every run
   * that does not reject returns the same value, if no branch had its sides exchanged and equal
   * tests were treated alike.
   */
  method ThreadJumps(g: Graph, root: nat, ghost rank: seq<nat>, ghost blocks: set<nat>, maxval: nat)
    returns (ok: bool, h: Graph, ghost c: Setting, ghost p: PassState, ghost lv: seq<nat>)
    requires Ranked(g, rank) && GoodGraph(g) && root < |g|
    requires Closed(g, blocks) && root in blocks && AllSelfContained(g, blocks)
    requires maxval >= 3 * MaxStmts(g, blocks, |g|)
    ensures ok || !BareReturns(g, blocks)
    ensures c.g == g && !c.alter && root in c.reached && c.reached <= blocks && Closed(g, c.reached) && |c.outUse| == |g|
    ensures forall b :: b in c.reached && b < |g| ==> ExactOut(g, c.outUse[b], b)
    ensures ok ==> Passing(c, p, c.reached) && SameTests(p.g, h) && Ranked(h, lv) && Closed(h, c.reached)
    ensures ok ==> AllSelfContained(h, c.reached) && (RootOnTop(g, root) ==> RootOnTop(h, root))
    ensures ok && Unmoved(c, p, root) ==> h == p.g
    ensures ok ==> forall b :: b in c.reached ==> Threaded(PhaseOf(c, p, root), h, lv, b)
    ensures ok && Unflipped(c, p) && Uniform(c, p) ==>
              forall env, st :: !Walk(g, rank, root, env, st).Reject? ==>
                                  Walk(h, lv, root, env, st) == Walk(g, rank, root, env, st)
  {
    hide Analysis.LevelLists, Analysis.LevelOf, Closed, Walk, Live, SelfContained, GoodStmt, Dominates, Passing, Facts, KeepsRuns,
         Follow, SameTest, RootOnTop, Refusal, ExactOut, ExactIn, SameKinds, WellNumbered, Distinct, Unflipped, Uniform, PhaseOf, Unmoved, NothingMoves, EdomRight, Threaded;
    var an := new Analysis.Analyzer(g, root, rank);
    an.FindLevels();
    an.FindEdom();
    var inUse, outUse := FindUd(an);
    MaxStmtsMono(g, g, an.reached, blocks, |g|);
    Analysis.LevelListFacts(g, rank, an.level, an.levels, an.reached);
    var g1, vt, exit, oval;
    ok, g1, vt, exit, oval, p := OptBlks(an, outUse, maxval, false);
    c, h, lv := Setting(g, an.reached, outUse, false), g1, [];
    if !ok {
      ghost var done, b :| Refusal(c, p, done, b);
      RefusalCause(c, p, done, b);
      return;
    }
    lv := Heights(g, rank);
    HeightsRank(g, rank);
    RankedStill(c, p, lv);
    PhaseShape(an, c, p);
    ghost var f := PhaseOf(c, p, root);
    Freshness.SizedPass(c, p);
    if Unmoved(c, p, root) { UnmovedIs(c, p, root); }
    EdomHolds(an, c, p);
    h := Sweep(an, f, g1, lv, exit, oval, an.edom, outUse);
    RootStaysOnTop(an, c, p, h, lv);
    LeftsContained(c, p, h);
    if Unflipped(c, p) && Uniform(c, p) {
      FactsHold(an, c, p);
      LeftsAlike(c, p, h);
      forall env, st | !Walk(g, rank, root, env, st).Reject?
        ensures Walk(h, lv, root, env, st) == Walk(g, rank, root, env, st)
      {
        SweptRuns(c, p, h, rank, lv, root, env, st);
      }
    }
  }

  lemma PhaseShape(an: Analysis.Analyzer, c: Setting, p: PassState)
    requires an.Leveled() && c.g == an.g && c.reached == an.reached && Passing(c, p, c.reached)
    ensures var f := PhaseOf(c, p, an.root);
            && PhaseSized(f) && SameKinds(f.g, f.g1) && Closed(f.g1, f.reached) && f.g == an.g && f.g1 == p.g && f.root == an.root
            && f.reached == an.reached && f.t == p.t && f.exits == p.exit && f.ovals == p.oval && f.outUse == c.outUse
  {
    hide Analysis.LevelLists, Analysis.LevelOf, PassedAt, Live;
    Analysis.LevelListFacts(an.g, an.rank, an.level, an.levels, an.reached);
    assert forall b :: 0 <= b < |c.g| ==> SameShape(c.g[b], p.g[b]);
    forall b | b in c.reached
      ensures ClosedAt(p.g, c.reached, b)
    {
      assert ClosedAt(c.g, c.reached, b);
    }
  }

  lemma RootStaysOnTop(an: Analysis.Analyzer, c: Setting, p: PassState, h: Graph, lv: seq<nat>)
    requires an.Leveled() && lv == Heights(an.g, an.rank) && c.g == an.g && c.reached == an.reached && Passing(c, p, c.reached)
    requires |h| == |an.g| && Ranked(h, lv) && forall b :: 0 <= b < |h| && b !in an.reached ==> h[b] == p.g[b]
    ensures RootOnTop(an.g, an.root) ==> RootOnTop(h, an.root)
  {
    hide Analysis.LevelOf, Analysis.LevelLists, PassedAt, Live;
    if RootOnTop(an.g, an.root) {
      forall b | 0 <= b < |h| && h[b].Branch?
        ensures h[b].jt != an.root && h[b].jf != an.root
      {
        assert b in an.reached ==> lv[b] <= lv[an.root];
        assert SameShape(an.g[b], p.g[b]);
      }
    }
  }

  lemma LeftsContained(c: Setting, p: PassState, h: Graph)
    requires Passing(c, p, c.reached) && !c.alter && AllSelfContained(c.g, c.reached) && SameTests(p.g, h)
    ensures AllSelfContained(h, c.reached)
  {
    hide PassedAt, SelfContained, Live, SameTest, DeadRemoved, LiveIn, Peepholed;
    forall b | b in c.reached && b < |h|
      ensures SelfContained(h[b])
    {
      assert PassedAt(c, p, b) && SelfContained(c.g[b]) && SameTest(p.g[b], h[b]);
      LeftContained(c, p, b);
      StillSelfContained(p.g[b], h[b]);
    }
  }

  lemma StillSelfContained(b: Block, b': Block)
    requires SameTest(b, b') && SelfContained(b)
    ensures SelfContained(b')
  {
    hide Reads, Defines;
    assert forall a :: 0 <= a < N_ATOMS ==> BlockReads(b, a) == BlockReads(b', a);
  }

  lemma LeftsAlike(c: Setting, p: PassState, h: Graph)
    requires Passing(c, p, c.reached) && !c.alter && AllSelfContained(c.g, c.reached) && SameTests(p.g, h) && Unflipped(c, p)
    ensures forall b :: b in c.reached && b < |c.g| ==> TestsAlike(c.g[b], h[b])
  {
    hide PassedAt, SelfContained, Live, SameTest, TestsAlike, MergedAt;
    forall b | b in c.reached && b < |c.g|
      ensures TestsAlike(c.g[b], h[b])
    {
      assert PassedAt(c, p, b) && SelfContained(c.g[b]) && SameTest(p.g[b], h[b]);
      LeftAlike(c, p, b);
      AlikeStill(c.g[b], p.g[b], h[b]);
    }
  }

  lemma AlikeStill(b: Block, b': Block, b'': Block)
    requires TestsAlike(b, b') && SameTest(b', b'')
    ensures TestsAlike(b, b'')
  {
    hide Passes, Side, ExecList, Compare;
    forall env, st | Passes(b, env)
      ensures var e := ExecList(b''.stmts, env, st); e.Next? && (b.Branch? ==> Taken(b'', e.st) == Side(b, env))
    {
      TestsAlikeAt(b, b', env, st);
    }
  }

  lemma SweptRuns(c: Setting, p: PassState, h: Graph, rank: seq<nat>, lv: seq<nat>, root: nat, env: Env, st: State)
    requires Ranked(c.g, rank) && Ranked(c.g, lv) && Ranked(h, lv) && SameKinds(c.g, h) && root in c.reached && root < |c.g|
    requires Closed(c.g, c.reached) && Closed(h, c.reached) && AllSelfContained(c.g, c.reached) && KeepsRuns(c.g, h, lv, root)
    requires forall b :: b in c.reached && b < |c.g| ==> TestsAlike(c.g[b], h[b])
    requires !Walk(c.g, rank, root, env, st).Reject?
    ensures Walk(h, lv, root, env, st) == Walk(c.g, rank, root, env, st)
  {
    hide Walk, Follow, Closed, TestsAlike, SelfContained;
    WalkAnyRank(c.g, rank, lv, root, env, st);
    WalkIsFollow(c.g, lv, c.reached, root, env, st);
    FollowIsWalk(c.g, h, lv, c.reached, root, env, st);
  }

  // ---------------------------------------------------------------------
  // Why the blocks must not read registers of their predecessors
  // ---------------------------------------------------------------------

  /** Block 2 reads the accumulator that block 1 loads. */
  function DependentGraph(): Graph {
    [Branch([Stmt(LdImm, 1)], Jeq, K, 1, 1, 4), Branch([Stmt(LdImm, 2)], Jeq, K, 2, 2, 2),
     Branch([], Jeq, K, 2, 3, 4), Leaf([], 1), Leaf([], 0)]
  }

  lemma LoadOnly(k: u32, env: Env, st: State)
    ensures ExecList([Stmt(LdImm, k)], env, st) == Next(st.(a := k)) && ExecList([], env, st) == Next(st)
  {
    assert [Stmt(LdImm, k)][1..] == [];
  }

  /**
   * The edge from block 0 leads to block 1, whose two sides both lead to block 2, and whatever the
   * numbers are, no register used on exit from block 2 differs: opt_j moves the edge past block 1,
   * and the result changes from 1 to 0.
   */
  lemma BypassFails(env: Env, st: State, exit0: seq<nat>, exit2: seq<nat>)
    requires |exit0| == |exit2| == N_ATOMS
    ensures var g, rank := DependentGraph(), [3, 2, 1, 0, 0];
            var h := Redirected(g, 0, true, 2);
            && Successor(g[0], true) == 1 && g[1].jt == 2 == g[1].jf && ExactOut(g, {}, 2) && !Conflicts(exit0, exit2, {})
            && Ranked(g, rank) && Ranked(h, rank) && !SelfContained(g[2])
            && Walk(g, rank, 0, env, st) == Return(1) && Walk(h, rank, 0, env, st) == Return(0)
  {
    hide Walk, LiveAt, Reads;
    BypassRuns(env, st);
    NothingAfterTwo();
    assert BlockReads(DependentGraph()[2], A_ATOM);
  }

  lemma NothingAfterTwo()
    ensures ExactOut(DependentGraph(), {}, 2)
  {
    hide LiveAt;
    var g := DependentGraph();
    forall a: nat
      ensures !LiveAt(g, 3, a) && !LiveAt(g, 4, a)
    {
      LiveAtStep(g, 3, a);
      LiveAtStep(g, 4, a);
    }
  }

  lemma BypassRuns(env: Env, st: State)
    ensures var g, rank := DependentGraph(), [3, 2, 1, 0, 0];
            var h := Redirected(g, 0, true, 2);
            && Ranked(g, rank) && Ranked(h, rank)
            && Walk(g, rank, 0, env, st) == Return(1) && Walk(h, rank, 0, env, st) == Return(0)
  {
    hide ExecList;
    var g, rank := DependentGraph(), [3, 2, 1, 0, 0];
    var h := Redirected(g, 0, true, 2);
    LoadOnly(1, env, st);
    LoadOnly(2, env, st.(a := 1));
    LoadOnly(2, env, st.(a := 2));
    assert Walk(g, rank, 2, env, st.(a := 2)) == Walk(g, rank, 3, env, st.(a := 2));
    assert Walk(g, rank, 1, env, st.(a := 1)) == Walk(g, rank, 2, env, st.(a := 2));
    assert Walk(g, rank, 0, env, st) == Walk(g, rank, 1, env, st.(a := 1));
    assert Walk(h, rank, 2, env, st.(a := 1)) == Walk(h, rank, 4, env, st.(a := 1));
    assert Walk(h, rank, 0, env, st) == Walk(h, rank, 2, env, st.(a := 1));
  }
}
