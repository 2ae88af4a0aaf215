/**
 * The intermediate representation: a graph of blocks, each a list of statements
 * followed by a conditional branch, or by a return at a leaf (gencode.h).
 */
module Cfg {
  import opened Words
  import opened Bpf

  /** `struct stmt`; a deleted statement has the opcode `Nop`. */
  datatype Stmt = Stmt(op: Op, k: u32)

  /** `struct block`. A leaf is `ret #k`; a branch names its JT and JF successors by index. */
  datatype Block =
    | Leaf(stmts: seq<Stmt>, k: u32)
    | Branch(stmts: seq<Stmt>, cmp: Cmp, src: Src, k: u32, jt: nat, jf: nat)

  type Graph = seq<Block>

  /** Statements that may appear inside a block and whose effect C defines. */
  predicate GoodStmt(s: Stmt) {
    match s.op
    case Ja => false
    case Jcc(_, _) => false
    case RetK => false
    case RetA => false
    case LdMem => s.k < MEMWORDS
    case LdxMem => s.k < MEMWORDS
    case St => s.k < MEMWORDS
    case Stx => s.k < MEMWORDS
    case Alu(o, K) => GoodConstant(o, s.k)
    case _ => true
  }

  predicate GoodList(ss: seq<Stmt>) { forall i :: 0 <= i < |ss| ==> GoodStmt(ss[i]) }

  predicate GoodGraph(g: Graph) { forall b :: 0 <= b < |g| ==> GoodList(g[b].stmts) }

  /** Every successor exists and has a smaller rank: `rank` witnesses that the graph is acyclic. */
  ghost predicate Ranked(g: Graph, rank: seq<nat>) {
    && |rank| == |g|
    && forall b :: 0 <= b < |g| && g[b].Branch? ==>
         && g[b].jt < |g| && rank[g[b].jt] < rank[b]
         && g[b].jf < |g| && rank[g[b].jf] < rank[b]
  }

  /** No edge leads to the root. */
  ghost predicate RootOnTop(g: Graph, root: nat) {
    root < |g| && forall b :: 0 <= b < |g| && g[b].Branch? ==> g[b].jt != root && g[b].jf != root
  }

  ghost function BlockSuccessors(b: Block): set<nat> {
    if b.Leaf? then {} else {b.jt, b.jf}
  }

  /** A set of blocks closed under successors. */
  ghost predicate Closed(g: Graph, s: set<nat>) {
    && (forall b :: b in s ==> b < |g|)
    && (forall b {:trigger ClosedAt(g, s, b)} :: b in s ==> ClosedAt(g, s, b))
  }

  ghost predicate ClosedAt(g: Graph, s: set<nat>, b: nat) {
    b < |g| && BlockSuccessors(g[b]) <= s
  }

  lemma ClosedMembers(g: Graph, s: set<nat>)
    requires Closed(g, s)
    ensures forall b :: b in s ==> b < |g|
  {
  }

  lemma ClosedAdd(g: Graph, s: set<nat>, b: nat)
    requires Closed(g, s) && b < |g| && BlockSuccessors(g[b]) <= s + {b}
    ensures Closed(g, s + {b})
  {
    forall c | c in s + {b}
      ensures ClosedAt(g, s + {b}, c)
    {
      assert c != b ==> ClosedAt(g, s, c);
    }
  }

  lemma ClosedHas(g: Graph, s: set<nat>, b: nat)
    requires Closed(g, s) && b in s
    ensures b < |g| && BlockSuccessors(g[b]) <= s
  {
    assert ClosedAt(g, s, b);
  }

  function ExecList(ss: seq<Stmt>, env: Env, st: State): Effect {
    if ss == [] then Next(st)
    else match Exec(ss[0].op, ss[0].k, env, st)
      case Next(st') => ExecList(ss[1..], env, st')
      case e => e
  }

  /** Does a branch block, left in state `st`, take its JT edge? */
  predicate Taken(b: Block, st: State)
    requires b.Branch?
  {
    Test(b.cmp, b.src, b.k, st)
  }

  function Successor(b: Block, side: bool): nat
    requires b.Branch?
  {
    if side then b.jt else b.jf
  }

  /** Reference semantics: follow the graph from block `b`. */
  ghost function Walk(g: Graph, rank: seq<nat>, b: nat, env: Env, st: State): Outcome
    requires Ranked(g, rank) && b < |g|
    decreases rank[b]
  {
    match ExecList(g[b].stmts, env, st)
    case Rejected => Reject
    case Undefined => Stuck
    case Next(st') =>
      if g[b].Leaf? then Return(g[b].k)
      else Walk(g, rank, Successor(g[b], Taken(g[b], st')), env, st')
  }

  /** The rank is only a termination witness. */
  lemma {:induction false} WalkAnyRank(g: Graph, r1: seq<nat>, r2: seq<nat>, b: nat, env: Env, st: State)
    requires Ranked(g, r1) && Ranked(g, r2) && b < |g|
    ensures Walk(g, r1, b, env, st) == Walk(g, r2, b, env, st)
    decreases r1[b]
  {
    var e := ExecList(g[b].stmts, env, st);
    if e.Next? && g[b].Branch? {
      WalkAnyRank(g, r1, r2, Successor(g[b], Taken(g[b], e.st)), env, e.st);
    }
  }

  lemma {:induction false} ExecConcat(s: seq<Stmt>, t: seq<Stmt>, env: Env, st: State)
    ensures ExecList(s + t, env, st) == match ExecList(s, env, st)
                                        case Next(st') => ExecList(t, env, st')
                                        case e => e
  {
    hide Exec;
    if s == [] {
      assert s + t == t;
    } else {
      assert (s + t)[1..] == s[1..] + t;
      var e := Exec(s[0].op, s[0].k, env, st);
      if e.Next? {
        ExecConcat(s[1..], t, env, e.st);
      }
    }
  }

  lemma {:induction false} GoodListRuns(ss: seq<Stmt>, env: Env, st: State)
    requires GoodList(ss)
    ensures !ExecList(ss, env, st).Undefined?
  {
    if ss != [] {
      var e := Exec(ss[0].op, ss[0].k, env, st);
      assert GoodStmt(ss[0]) && !e.Undefined?;
      if e.Next? {
        GoodListRuns(ss[1..], env, e.st);
      }
    }
  }

  /** The statements `slength` counts: those not deleted. */
  function Live(ss: seq<Stmt>): (r: seq<Stmt>)
    ensures forall i :: 0 <= i < |r| ==> r[i].op != Nop && r[i] in ss
    ensures |r| <= |ss|
  {
    if ss == [] then [] else (if ss[0].op == Nop then [] else [ss[0]]) + Live(ss[1..])
  }

  lemma {:induction false} LiveExec(ss: seq<Stmt>, env: Env, st: State)
    ensures ExecList(Live(ss), env, st) == ExecList(ss, env, st)
  {
    hide Exec;
    if ss != [] {
      var e := Exec(ss[0].op, ss[0].k, env, st);
      if ss[0].op == Nop {
        NopSkips(ss[0], env, st);
        assert Live(ss) == Live(ss[1..]);
        LiveExec(ss[1..], env, st);
      } else {
        assert Live(ss)[1..] == Live(ss[1..]);
        if e.Next? {
          LiveExec(ss[1..], env, e.st);
        }
      }
    }
  }

  lemma NopSkips(s: Stmt, env: Env, st: State)
    requires s.op == Nop
    ensures Exec(s.op, s.k, env, st) == Next(st)
  {
  }
}
