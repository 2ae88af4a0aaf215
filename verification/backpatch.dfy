/**
 * Boolean code generation: blocks whose unresolved exits are threaded through
 * their own JT/JF fields (backpatch, merge, gen_and, gen_or, gen_not of gencode.c).
 */
module Backpatch {
  import opened Words
  import opened Bpf
  import opened Cfg

  /**
   * `struct block` during code generation. An unresolved JT or JF holds the next block of
   * the exit list it is on; `sense` says which of the two fields is the link.
   */
  datatype GenBlock =
    | Test(stmts: seq<Stmt>, cmp: Cmp, src: Src, k: u32,
           jt: Option<nat>, jf: Option<nat>, sense: bool, head: nat)
    | Ret(k: u32)

  type Arena = seq<GenBlock>

  function Field(b: GenBlock, side: bool): Option<nat>
    requires b.Test?
  {
    if side then b.jt else b.jf
  }

  function SetField(b: GenBlock, side: bool, v: Option<nat>): GenBlock
    requires b.Test?
  {
    if side then b.(jt := v) else b.(jf := v)
  }

  /** The field `sense` designates. */
  function Link(b: GenBlock): Option<nat>
    requires b.Test?
  {
    Field(b, !b.sense)
  }

  function SetLink(b: GenBlock, v: Option<nat>): GenBlock
    requires b.Test?
  {
    SetField(b, !b.sense, v)
  }

  function Flip(b: GenBlock): GenBlock
    requires b.Test?
  {
    b.(sense := !b.sense)
  }

  // ---------------------------------------------------------------------
  // Fragments
  // ---------------------------------------------------------------------

  /**
   * A piece of code under construction, known by its representative block: the exit
   * lists starting there, and a rank that decreases along resolved edges.
   */
  datatype Fragment = Fragment(rep: nat, trues: seq<nat>, falses: seq<nat>, rank: map<nat, nat>, hi: nat)

  /** The block at position `i` of an exit list links to the next one, or ends the list. */
  ghost predicate LinkedAt(bs: Arena, list: seq<nat>, i: nat)
    requires i < |list|
  {
    && list[i] < |bs| && bs[list[i]].Test?
    && Link(bs[list[i]]) == if i + 1 < |list| then Some(list[i + 1]) else None
  }

  /** `list` is what following the links from its first block visits. */
  ghost predicate Chain(bs: Arena, list: seq<nat>) {
    Distinct(list) && forall i :: 0 <= i < |list| ==> LinkedAt(bs, list, i)
  }

  /** Which exit a side of block `p` is: to true, to false, or (None) a resolved edge. */
  ghost function ExitOf(bs: Arena, f: Fragment, p: nat, side: bool): Option<bool>
    requires p < |bs| && bs[p].Test?
  {
    if p in f.trues && side == !bs[p].sense then Some(true)
    else if p in f.falses && side == (if p == f.rep then bs[p].sense else !bs[p].sense) then Some(false)
    else None
  }

  ghost predicate InArena(bs: Arena, f: Fragment) {
    forall p :: p in f.rank ==> p < |bs| && bs[p].Test?
  }

  /**
   * The representation invariant: both lists start at the representative and share nothing
   * else, and every side of every block is on exactly one list or resolved inside the fragment.
   */
  ghost predicate Wellformed(bs: Arena, f: Fragment) {
    && InArena(bs, f)
    && f.rep in f.rank && bs[f.rep].head in f.rank
    && |f.trues| > 0 && |f.falses| > 0 && f.trues[0] == f.rep == f.falses[0]
    && (forall i :: 0 <= i < |f.trues| ==> f.trues[i] in f.rank)
    && (forall i :: 0 <= i < |f.falses| ==> f.falses[i] in f.rank)
    && (forall i, j :: 0 < i < |f.trues| && 0 < j < |f.falses| ==> f.trues[i] != f.falses[j])
    && Chain(bs, f.trues)
    && Chain(FlipAt(bs, f.rep), f.falses)
    && (forall p, side :: p in f.rank && ExitOf(bs, f, p, side) == None ==>
          Field(bs[p], side).Some? && Field(bs[p], side).value in f.rank
          && f.rank[Field(bs[p], side).value] < f.rank[p])
    && (forall p :: p in f.rank ==> f.rank[p] <= f.rank[bs[f.rep].head] < f.hi)
  }

  ghost predicate SameTest(a: GenBlock, b: GenBlock) {
    a.Test? && b.Test? && a.stmts == b.stmts && a.cmp == b.cmp && a.src == b.src && a.k == b.k
  }

  // ---------------------------------------------------------------------
  // Meaning
  // ---------------------------------------------------------------------

  datatype FragmentOutcome = Exit(b: bool, st: State) | Refused | Broken

  /** Run the fragment from block `p` until it leaves through an unresolved exit. */
  ghost function RunFrag(bs: Arena, f: Fragment, p: nat, env: Env, st: State): FragmentOutcome
    requires Wellformed(bs, f) && p in f.rank
    decreases f.rank[p]
  {
    match ExecList(bs[p].stmts, env, st)
    case Rejected => Refused
    case Undefined => Broken
    case Next(st') =>
      var side := Bpf.Test(bs[p].cmp, bs[p].src, bs[p].k, st');
      match ExitOf(bs, f, p, side)
      case Some(b) => Exit(b, st')
      case None => RunFrag(bs, f, Field(bs[p], side).value, env, st')
  }

  /** What joining does to a side of a block of the first fragment. */
  ghost predicate FirstSide(bs: Arena, f: Fragment, target: nat, bs': Arena, r: Fragment, p: nat, side: bool) {
    && p < |bs| && p < |bs'| && SameTest(bs[p], bs'[p])
    && match ExitOf(bs, f, p, side)
       case None => ExitOf(bs', r, p, side) == None && Field(bs'[p], side) == Field(bs[p], side)
       case Some(b) =>
         if b then ExitOf(bs', r, p, side) == None && Field(bs'[p], side) == Some(target)
         else ExitOf(bs', r, p, side) == Some(b)
  }

  /** ... and of the second. */
  ghost predicate SecondSide(bs: Arena, g: Fragment, bs': Arena, r: Fragment, p: nat, side: bool) {
    && p < |bs| && p < |bs'| && SameTest(bs[p], bs'[p])
    && ExitOf(bs', r, p, side) == ExitOf(bs, g, p, side)
    && (ExitOf(bs, g, p, side) == None ==> Field(bs'[p], side) == Field(bs[p], side))
  }

  /**
   * `bs'`/`r` is the fragment in which the true exits of `f` lead to the head of `g` and its
   * false exits join the exits of `g`.
   */
  ghost predicate Joined(bs: Arena, f: Fragment, g: Fragment, bs': Arena, r: Fragment)
    requires Wellformed(bs, f) && Wellformed(bs, g) && Wellformed(bs', r)
  {
    && f.rank.Keys !! g.rank.Keys && r.rank.Keys == f.rank.Keys + g.rank.Keys
    && bs'[r.rep].head == bs[f.rep].head
    && (forall p, side :: p in f.rank ==> FirstSide(bs, f, bs[g.rep].head, bs', r, p, side))
    && (forall p, side :: p in g.rank ==> SecondSide(bs, g, bs', r, p, side))
  }

  lemma {:induction false} RunSecond(bs: Arena, f: Fragment, g: Fragment, bs': Arena, r: Fragment,
                                     p: nat, env: Env, st: State)
    requires Wellformed(bs, f) && Wellformed(bs, g) && Wellformed(bs', r)
    requires Joined(bs, f, g, bs', r) && p in g.rank
    ensures RunFrag(bs', r, p, env, st) == RunFrag(bs, g, p, env, st)
    decreases g.rank[p]
  {
    hide ExecList, Compare, ExitOf;
    assert SecondSide(bs, g, bs', r, p, true);
    var e := ExecList(bs[p].stmts, env, st);
    if e.Next? {
      var side := Bpf.Test(bs[p].cmp, bs[p].src, bs[p].k, e.st);
      assert SecondSide(bs, g, bs', r, p, side);
      if ExitOf(bs, g, p, side) == None {
        RunSecond(bs, f, g, bs', r, Field(bs[p], side).value, env, e.st);
      }
    }
  }

  /** Sequential composition: leave `f` by a true exit and run `g`, or leave altogether. */
  lemma {:induction false} RunFirst(bs: Arena, f: Fragment, g: Fragment, bs': Arena, r: Fragment,
                                    p: nat, env: Env, st: State)
    requires Wellformed(bs, f) && Wellformed(bs, g) && Wellformed(bs', r)
    requires Joined(bs, f, g, bs', r) && p in f.rank
    ensures RunFrag(bs', r, p, env, st) ==
            match RunFrag(bs, f, p, env, st)
            case Exit(b, st') => if b then RunFrag(bs, g, bs[g.rep].head, env, st') else Exit(b, st')
            case o => o
    decreases f.rank[p]
  {
    hide ExecList, Compare, ExitOf;
    assert FirstSide(bs, f, bs[g.rep].head, bs', r, p, true);
    var e := ExecList(bs[p].stmts, env, st);
    if e.Next? {
      var side := Bpf.Test(bs[p].cmp, bs[p].src, bs[p].k, e.st);
      assert FirstSide(bs, f, bs[g.rep].head, bs', r, p, side);
      match ExitOf(bs, f, p, side)
      case None => RunFirst(bs, f, g, bs', r, Field(bs[p], side).value, env, e.st);
      case Some(b) =>
        if b {
          RunSecond(bs, f, g, bs', r, bs[g.rep].head, env, e.st);
        }
    }
  }

  // ---------------------------------------------------------------------
  // What the operations do to the arena
  // ---------------------------------------------------------------------

  function Patched(bs: Arena, list: seq<nat>, v: Option<nat>): (r: Arena)
    ensures |r| == |bs|
  {
    seq(|bs|, i requires 0 <= i < |bs| => if i in list && bs[i].Test? then SetLink(bs[i], v) else bs[i])
  }

  function FlipAt(bs: Arena, p: nat): Arena
    requires p < |bs| && bs[p].Test?
  {
    bs[p := Flip(bs[p])]
  }

  function LinkAt(bs: Arena, p: nat, v: Option<nat>): Arena
    requires p < |bs| && bs[p].Test?
  {
    bs[p := SetLink(bs[p], v)]
  }

  function Last(s: seq<nat>): nat
    requires |s| > 0
  {
    s[|s| - 1]
  }

  /** gen_and, as the sequence of updates it performs. */
  ghost function AndArena(bs: Arena, f: Fragment, g: Fragment): Arena
    requires Wellformed(bs, f) && Wellformed(bs, g) && f.rank.Keys !! g.rank.Keys
  {
    var b1 := Patched(bs, f.trues, Some(bs[g.rep].head));
    var b2 := FlipAt(FlipAt(b1, f.rep), g.rep);
    var b3 := LinkAt(b2, Last(g.falses), Some(f.rep));
    var b4 := FlipAt(b3, g.rep);
    b4[g.rep := b4[g.rep].(head := b4[f.rep].head)]
  }

  ghost function AndFragment(f: Fragment, g: Fragment): Fragment {
    Fragment(g.rep, g.trues, g.falses + f.falses, JoinRanks(f, g), f.hi + g.hi)
  }

  ghost function JoinRanks(f: Fragment, g: Fragment): map<nat, nat> {
    map p | p in f.rank.Keys + g.rank.Keys :: if p in g.rank then g.rank[p] else f.rank[p] + g.hi
  }

  /** The same, block by block. */
  ghost function AndBlock(bs: Arena, f: Fragment, g: Fragment, p: nat): GenBlock
    requires Wellformed(bs, f) && Wellformed(bs, g) && p < |bs|
  {
    var b := bs[p];
    var target := Some(bs[g.rep].head);
    if p == f.rep then Flip(SetLink(b, target))
    else if p in f.trues then SetLink(b, target)
    else if p == g.rep then
      (if p == Last(g.falses) then SetField(b, b.sense, Some(f.rep)) else b).(head := bs[f.rep].head)
    else if p == Last(g.falses) then SetLink(b, Some(f.rep))
    else b
  }

  lemma AndBlocks(bs: Arena, f: Fragment, g: Fragment, p: nat)
    requires Wellformed(bs, f) && Wellformed(bs, g) && f.rank.Keys !! g.rank.Keys && p < |bs|
    ensures |AndArena(bs, f, g)| == |bs| && AndArena(bs, f, g)[p] == AndBlock(bs, f, g, p)
  {
  }

  lemma AndExitFirst(bs: Arena, f: Fragment, g: Fragment, p: nat, side: bool)
    requires Wellformed(bs, f) && Wellformed(bs, g) && f.rank.Keys !! g.rank.Keys && p in f.rank
    ensures FirstSide(bs, f, bs[g.rep].head, AndArena(bs, f, g), AndFragment(f, g), p, side)
  {
    hide AndArena, Chain;
    AndBlocks(bs, f, g, p);
    assert p !in g.trues && p !in g.falses;
  }

  lemma AndExitSecond(bs: Arena, f: Fragment, g: Fragment, p: nat, side: bool)
    requires Wellformed(bs, f) && Wellformed(bs, g) && f.rank.Keys !! g.rank.Keys && p in g.rank
    ensures SecondSide(bs, g, AndArena(bs, f, g), AndFragment(f, g), p, side)
  {
    hide AndArena, Chain;
    AndBlocks(bs, f, g, p);
    assert p !in f.trues && p !in f.falses;
  }

  lemma AndTrues(bs: Arena, f: Fragment, g: Fragment)
    requires Wellformed(bs, f) && Wellformed(bs, g) && f.rank.Keys !! g.rank.Keys
    ensures Chain(AndArena(bs, f, g), g.trues)
  {
    hide AndArena;
    forall i | 0 <= i < |g.trues|
      ensures LinkedAt(AndArena(bs, f, g), g.trues, i)
    {
      assert LinkedAt(bs, g.trues, i);
      AndBlocks(bs, f, g, g.trues[i]);
      assert g.trues[i] !in f.trues;
    }
  }

  lemma AndFalses(bs: Arena, f: Fragment, g: Fragment)
    requires Wellformed(bs, f) && Wellformed(bs, g) && f.rank.Keys !! g.rank.Keys
    ensures var bs' := AndArena(bs, f, g);
            |bs'| == |bs| && bs'[g.rep].Test? && Chain(FlipAt(bs', g.rep), g.falses + f.falses)
  {
    hide AndArena;
    AndBlocks(bs, f, g, g.rep);
    var bs' := FlipAt(AndArena(bs, f, g), g.rep);
    var list := g.falses + f.falses;
    assert Distinct(list) by {
      assert forall i :: 0 <= i < |list| ==> (list[i] in g.rank <==> i < |g.falses|);
    }
    forall i | 0 <= i < |list|
      ensures LinkedAt(bs', list, i)
    {
      AndBlocks(bs, f, g, list[i]);
      if i < |g.falses| {
        assert list[i] !in f.trues;
        AndFalsesSecond(bs, f, g, i);
      } else {
        AndFalsesFirst(bs, f, g, i - |g.falses|);
      }
    }
  }

  lemma AndFalsesSecond(bs: Arena, f: Fragment, g: Fragment, i: nat)
    requires Wellformed(bs, f) && Wellformed(bs, g) && f.rank.Keys !! g.rank.Keys && i < |g.falses|
    ensures var p := g.falses[i];
            var b := AndBlock(bs, f, g, p);
            Link(if p == g.rep then Flip(b) else b)
            == if i + 1 < |g.falses| then Some(g.falses[i + 1]) else Some(f.rep)
  {
    var p := g.falses[i];
    assert p !in f.trues && p != f.rep;
    assert LinkedAt(FlipAt(bs, g.rep), g.falses, i);
    assert p == Last(g.falses) <==> i + 1 == |g.falses|;
  }

  lemma AndFalsesFirst(bs: Arena, f: Fragment, g: Fragment, i: nat)
    requires Wellformed(bs, f) && Wellformed(bs, g) && f.rank.Keys !! g.rank.Keys && i < |f.falses|
    ensures var p := f.falses[i];
            p != g.rep && Link(AndBlock(bs, f, g, p))
                          == if i + 1 < |f.falses| then Some(f.falses[i + 1]) else None
  {
    var p := f.falses[i];
    assert p in f.rank && p != Last(g.falses);
    assert LinkedAt(FlipAt(bs, f.rep), f.falses, i);
    assert p == f.rep <==> i == 0;
    assert i > 0 ==> p !in f.trues;
  }

  /** gen_and keeps the representation invariant and composes the two fragments. */
  lemma AndJoins(bs: Arena, f: Fragment, g: Fragment)
    requires Wellformed(bs, f) && Wellformed(bs, g) && f.rank.Keys !! g.rank.Keys
    ensures var bs', r := AndArena(bs, f, g), AndFragment(f, g);
            Wellformed(bs', r) && Joined(bs, f, g, bs', r)
  {
    hide AndArena, Chain, ExitOf;
    var bs', r := AndArena(bs, f, g), AndFragment(f, g);
    AndTrues(bs, f, g);
    AndFalses(bs, f, g);
    AndHead(bs, f, g);
    forall p | p in r.rank
      ensures p < |bs'| && SameTest(bs[p], bs'[p])
    {
      if p in f.rank { AndExitFirst(bs, f, g, p, true); } else { AndExitSecond(bs, f, g, p, true); }
    }
    forall p, side | p in r.rank && ExitOf(bs', r, p, side) == None
      ensures Field(bs'[p], side).Some? && Field(bs'[p], side).value in r.rank
              && r.rank[Field(bs'[p], side).value] < r.rank[p]
    {
      if p in f.rank { AndExitFirst(bs, f, g, p, side); } else { AndExitSecond(bs, f, g, p, side); }
    }
    assert forall i, j :: 0 < i < |r.trues| && 0 < j < |r.falses| ==> r.trues[i] != r.falses[j] by {
      assert forall j :: 0 <= j < |r.falses| ==> (r.falses[j] in g.rank <==> j < |g.falses|);
    }
    assert Wellformed(bs', r);
    forall p, side | p in f.rank
      ensures FirstSide(bs, f, bs[g.rep].head, bs', r, p, side)
    {
      AndExitFirst(bs, f, g, p, side);
    }
    forall p, side | p in g.rank
      ensures SecondSide(bs, g, bs', r, p, side)
    {
      AndExitSecond(bs, f, g, p, side);
    }
  }

  lemma AndHead(bs: Arena, f: Fragment, g: Fragment)
    requires Wellformed(bs, f) && Wellformed(bs, g) && f.rank.Keys !! g.rank.Keys
    ensures |AndArena(bs, f, g)| == |bs| && AndArena(bs, f, g)[g.rep].Test?
    ensures AndArena(bs, f, g)[g.rep].head == bs[f.rep].head
  {
    hide AndArena;
    AndBlocks(bs, f, g, g.rep);
    assert g.rep !in f.trues;
  }

  // ---------------------------------------------------------------------
  // Negation and framing
  // ---------------------------------------------------------------------

  ghost function NotFragment(f: Fragment): Fragment {
    Fragment(f.rep, f.falses, f.trues, f.rank, f.hi)
  }

  function NotOutcome(o: FragmentOutcome): FragmentOutcome {
    if o.Exit? then Exit(!o.b, o.st) else o
  }

  ghost predicate Agree(bs: Arena, bs': Arena, s: set<nat>) {
    forall p :: p in s ==> p < |bs| && p < |bs'| && bs[p] == bs'[p]
  }

  lemma NotExit(bs: Arena, f: Fragment, p: nat, side: bool)
    requires Wellformed(bs, f) && p in f.rank
    ensures ExitOf(FlipAt(bs, f.rep), NotFragment(f), p, side) ==
            match ExitOf(bs, f, p, side) case Some(b) => Some(!b) case None => None
  {
    hide Chain;
  }

  /** gen_not, by flipping one bit, swaps the two exit lists. */
  lemma NotWellformed(bs: Arena, f: Fragment)
    requires Wellformed(bs, f)
    ensures Wellformed(FlipAt(bs, f.rep), NotFragment(f))
  {
    hide Chain, ExitOf;
    assert FlipAt(FlipAt(bs, f.rep), f.rep) == bs;
    forall p, side | p in f.rank
      ensures ExitOf(FlipAt(bs, f.rep), NotFragment(f), p, side) == None ==> ExitOf(bs, f, p, side) == None
    {
      NotExit(bs, f, p, side);
    }
  }

  lemma {:induction false} NotRuns(bs: Arena, f: Fragment, p: nat, env: Env, st: State)
    requires Wellformed(bs, f) && Wellformed(FlipAt(bs, f.rep), NotFragment(f)) && p in f.rank
    ensures RunFrag(FlipAt(bs, f.rep), NotFragment(f), p, env, st) == NotOutcome(RunFrag(bs, f, p, env, st))
    decreases f.rank[p]
  {
    hide ExecList, Compare, ExitOf, Chain;
    var e := ExecList(bs[p].stmts, env, st);
    if e.Next? {
      var side := Bpf.Test(bs[p].cmp, bs[p].src, bs[p].k, e.st);
      NotExit(bs, f, p, side);
      if ExitOf(bs, f, p, side) == None {
        NotRuns(bs, f, Field(bs[p], side).value, env, e.st);
      }
    }
  }

  lemma ChainFrame(bs: Arena, bs': Arena, list: seq<nat>)
    requires Chain(bs, list)
    requires forall i :: 0 <= i < |list| ==> list[i] < |bs| && list[i] < |bs'| && bs[list[i]] == bs'[list[i]]
    ensures Chain(bs', list)
  {
    forall i | 0 <= i < |list|
      ensures LinkedAt(bs', list, i)
    {
      assert LinkedAt(bs, list, i);
    }
  }

  /** A fragment depends on its own blocks only. */
  lemma FrameWellformed(bs: Arena, bs': Arena, f: Fragment)
    requires Wellformed(bs, f) && Agree(bs, bs', f.rank.Keys)
    ensures Wellformed(bs', f)
  {
    hide Chain;
    ChainFrame(bs, bs', f.trues);
    ChainFrame(FlipAt(bs, f.rep), FlipAt(bs', f.rep), f.falses);
    forall p, side | p in f.rank
      ensures ExitOf(bs', f, p, side) == ExitOf(bs, f, p, side)
    {
    }
  }

  lemma {:induction false} FrameRuns(bs: Arena, bs': Arena, f: Fragment, p: nat, env: Env, st: State)
    requires Wellformed(bs, f) && Wellformed(bs', f) && Agree(bs, bs', f.rank.Keys) && p in f.rank
    ensures RunFrag(bs', f, p, env, st) == RunFrag(bs, f, p, env, st)
    decreases f.rank[p]
  {
    hide ExecList, Compare, Chain;
    var e := ExecList(bs[p].stmts, env, st);
    if e.Next? {
      var side := Bpf.Test(bs[p].cmp, bs[p].src, bs[p].k, e.st);
      if ExitOf(bs, f, p, side) == None {
        FrameRuns(bs, bs', f, Field(bs[p], side).value, env, e.st);
      }
    }
  }

  // ---------------------------------------------------------------------
  // Disjunction
  // ---------------------------------------------------------------------

  /** gen_or, as the updates it performs. */
  ghost function OrArena(bs: Arena, f: Fragment, g: Fragment): Arena
    requires Wellformed(bs, f) && Wellformed(bs, g) && f.rank.Keys !! g.rank.Keys
  {
    var b1 := Patched(FlipAt(bs, f.rep), f.falses, Some(bs[g.rep].head));
    var b2 := FlipAt(b1, f.rep);
    var b3 := LinkAt(b2, Last(g.trues), Some(f.rep));
    b3[g.rep := b3[g.rep].(head := b3[f.rep].head)]
  }

  ghost function OrFragment(f: Fragment, g: Fragment): Fragment {
    NotFragment(AndFragment(NotFragment(f), NotFragment(g)))
  }

  ghost function BothFlipped(bs: Arena, f: Fragment, g: Fragment): Arena
    requires Wellformed(bs, f) && Wellformed(bs, g) && f.rank.Keys !! g.rank.Keys
  {
    FlipAt(FlipAt(bs, f.rep), g.rep)
  }

  lemma BothFlippedWellformed(bs: Arena, f: Fragment, g: Fragment)
    requires Wellformed(bs, f) && Wellformed(bs, g) && f.rank.Keys !! g.rank.Keys
    ensures Wellformed(BothFlipped(bs, f, g), NotFragment(f))
    ensures Wellformed(BothFlipped(bs, f, g), NotFragment(g))
  {
    hide Wellformed;
    WellformedRep(bs, f);
    WellformedRep(bs, g);
    NotWellformed(bs, f);
    NotWellformed(bs, g);
    WellformedArena(bs, f);
    WellformedArena(bs, g);
    FrameWellformed(FlipAt(bs, f.rep), BothFlipped(bs, f, g), NotFragment(f));
    FrameWellformed(FlipAt(bs, g.rep), BothFlipped(bs, f, g), NotFragment(g));
  }

  lemma WellformedRep(bs: Arena, f: Fragment)
    requires Wellformed(bs, f)
    ensures f.rep in f.rank && f.rep < |bs| && bs[f.rep].Test? && bs[f.rep].head in f.rank
  {
  }

  lemma WellformedArena(bs: Arena, f: Fragment)
    requires Wellformed(bs, f)
    ensures forall p :: p in f.rank ==> p < |bs| && bs[p].Test?
  {
  }

  ghost function OrBlock(bs: Arena, f: Fragment, g: Fragment, p: nat): GenBlock
    requires Wellformed(bs, f) && Wellformed(bs, g) && p < |bs|
  {
    var b := bs[p];
    var target := Some(bs[g.rep].head);
    if p == f.rep then SetField(b, b.sense, target)
    else if p in f.falses then SetLink(b, target)
    else
      var c := if p == Last(g.trues) then SetLink(b, Some(f.rep)) else b;
      if p == g.rep then c.(head := bs[f.rep].head) else c
  }

  lemma OrBlocks(bs: Arena, f: Fragment, g: Fragment, p: nat)
    requires Wellformed(bs, f) && Wellformed(bs, g) && f.rank.Keys !! g.rank.Keys && p < |bs|
    ensures |OrArena(bs, f, g)| == |bs| && OrArena(bs, f, g)[p] == OrBlock(bs, f, g, p)
  {
    hide Chain, ExitOf;
  }

  /** gen_or is gen_and between negations. */
  lemma OrIsNegatedAnd(bs: Arena, f: Fragment, g: Fragment)
    requires Wellformed(bs, f) && Wellformed(bs, g) && f.rank.Keys !! g.rank.Keys
    requires Wellformed(BothFlipped(bs, f, g), NotFragment(f))
    requires Wellformed(BothFlipped(bs, f, g), NotFragment(g))
    requires var a := AndArena(BothFlipped(bs, f, g), NotFragment(f), NotFragment(g));
             |a| == |bs| && a[g.rep].Test?
    ensures OrArena(bs, f, g)
         == FlipAt(AndArena(BothFlipped(bs, f, g), NotFragment(f), NotFragment(g)), g.rep)
  {
    hide AndArena, OrArena, Chain, ExitOf;
    var bf := BothFlipped(bs, f, g);
    var a := FlipAt(AndArena(bf, NotFragment(f), NotFragment(g)), g.rep);
    if |bs| > 0 { OrBlocks(bs, f, g, 0); }
    forall p | 0 <= p < |bs|
      ensures OrArena(bs, f, g)[p] == a[p]
    {
      AndBlocks(bf, NotFragment(f), NotFragment(g), p);
      OrBlocks(bs, f, g, p);
    }
  }

  lemma OrDecomposes(bs: Arena, f: Fragment, g: Fragment)
    requires Wellformed(bs, f) && Wellformed(bs, g) && f.rank.Keys !! g.rank.Keys
    ensures Wellformed(BothFlipped(bs, f, g), NotFragment(f)) && Wellformed(BothFlipped(bs, f, g), NotFragment(g))
    ensures var a := AndArena(BothFlipped(bs, f, g), NotFragment(f), NotFragment(g));
            && |a| == |bs| && a[g.rep].Test? && OrArena(bs, f, g) == FlipAt(a, g.rep)
            && a[g.rep].head == bs[f.rep].head
  {
    hide Wellformed, AndArena, OrArena;
    var bf, nf, ng := BothFlipped(bs, f, g), NotFragment(f), NotFragment(g);
    BothFlippedWellformed(bs, f, g);
    WellformedRep(bs, f);
    WellformedRep(bs, g);
    AndHead(bf, nf, ng);
    OrIsNegatedAnd(bs, f, g);
  }

  /** gen_or keeps the representation invariant. */
  lemma OrWellformed(bs: Arena, f: Fragment, g: Fragment)
    requires Wellformed(bs, f) && Wellformed(bs, g) && f.rank.Keys !! g.rank.Keys
    ensures |OrArena(bs, f, g)| == |bs| && Wellformed(OrArena(bs, f, g), OrFragment(f, g))
    ensures OrArena(bs, f, g)[g.rep].Test? && OrArena(bs, f, g)[g.rep].head == bs[f.rep].head
    ensures bs[f.rep].head in OrFragment(f, g).rank && OrFragment(f, g).rep == g.rep
  {
    hide Wellformed, AndArena, OrArena;
    var bf, nf, ng := BothFlipped(bs, f, g), NotFragment(f), NotFragment(g);
    OrDecomposes(bs, f, g);
    WellformedRep(bs, f);
    WellformedRep(bs, g);
    AndJoins(bf, nf, ng);
    NotWellformed(AndArena(bf, nf, ng), AndFragment(nf, ng));
  }

  /** Leave by a true exit of `f`, or run `g` after a false one. */
  lemma OrRuns(bs: Arena, f: Fragment, g: Fragment, env: Env, st: State)
    requires Wellformed(bs, f) && Wellformed(bs, g) && f.rank.Keys !! g.rank.Keys
    requires Wellformed(OrArena(bs, f, g), OrFragment(f, g))
    requires bs[f.rep].head in OrFragment(f, g).rank
    ensures RunFrag(OrArena(bs, f, g), OrFragment(f, g), bs[f.rep].head, env, st) ==
            match RunFrag(bs, f, bs[f.rep].head, env, st)
            case Exit(b, st') => if b then Exit(b, st') else RunFrag(bs, g, bs[g.rep].head, env, st')
            case o => o
  {
    hide Wellformed, AndArena, OrArena, RunFrag, JoinRanks;
    var bf, nf, ng := BothFlipped(bs, f, g), NotFragment(f), NotFragment(g);
    WellformedRep(bs, f);
    WellformedRep(bs, g);
    OrDecomposes(bs, f, g);
    AndJoins(bf, nf, ng);
    var a, r := AndArena(bf, nf, ng), AndFragment(nf, ng);
    NotRuns(a, r, bs[f.rep].head, env, st);
    RunFirst(bf, nf, ng, a, r, bs[f.rep].head, env, st);
    NegatedRuns(bs, f, g, f, env, st);
    var o := RunFrag(bs, f, bs[f.rep].head, env, st);
    if o.Exit? {
      NegatedRuns(bs, f, g, g, env, o.st);
    }
  }

  lemma NegatedRuns(bs: Arena, f: Fragment, g: Fragment, x: Fragment, env: Env, st: State)
    requires Wellformed(bs, f) && Wellformed(bs, g) && f.rank.Keys !! g.rank.Keys && (x == f || x == g)
    ensures var bf := BothFlipped(bs, f, g);
            && Wellformed(bf, NotFragment(x)) && bf[x.rep].head == bs[x.rep].head && bs[x.rep].head in x.rank
            && RunFrag(bf, NotFragment(x), bs[x.rep].head, env, st)
               == NotOutcome(RunFrag(bs, x, bs[x.rep].head, env, st))
  {
    hide Wellformed, RunFrag;
    var bf := BothFlipped(bs, f, g);
    WellformedRep(bs, f);
    WellformedRep(bs, g);
    WellformedArena(bs, f);
    WellformedArena(bs, g);
    BothFlippedWellformed(bs, f, g);
    NotWellformed(bs, x);
    NotRuns(bs, x, bs[x.rep].head, env, st);
    FrameRuns(FlipAt(bs, x.rep), bf, NotFragment(x), bs[x.rep].head, env, st);
  }
}
