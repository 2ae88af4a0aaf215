/**
 * The statement half of an optimizer pass: the hash table behind F, opt_stmt on the
 * blocks from the root down, and the merging of value numbers at joins (opt_blk and
 * opt_blks of optimize.c).
 */
module StatementPass {
  import opened Words
  import opened Bpf
  import opened Cfg
  import opened Liveness
  import opened ValueNumbers
  import opened Peephole
  import Analysis

  /** Number of hash chains. */
  const MODULUS: nat := 213

  function Hash(n: Node): (h: nat)
    requires n.op != Nop
    ensures h < MODULUS
  {
    var word := (Wrap(Encode(n.op)) as bv32) ^ ((Wrap(n.v0) as bv32) << 4) ^ ((Wrap(n.v1) as bv32) << 8);
    word as int % MODULUS
  }

  /** `struct valnode`. */
  datatype Entry = Entry(node: Node, val: nat)

  lemma FindIs(t: seq<Node>, i: nat)
    requires Distinct(t) && i < |t|
    ensures Find(t, t[i]) == i
  {
  }

  /** The value-number part of `opt_state_t`. */
  class ValueTable {
    const maxval: nat
    var curval: nat
    var vmap: seq<Option<u32>>
    var hashtbl: seq<seq<Entry>>
    /** The entries in the order of their numbers. */
    ghost var table: seq<Node>

    ghost predicate Valid()
      reads this
    {
      && |table| == curval && |vmap| == maxval && curval < maxval && |hashtbl| == MODULUS
      && WellNumbered(table) && Distinct(table)
      && Mapped(table, vmap) && Chained(table, hashtbl) && AllFiled(table, hashtbl)
    }

    /** init_val. */
    constructor (maxval: nat)
      requires maxval > 0
      ensures Valid() && table == [] && this.maxval == maxval
    {
      this.maxval, curval, table := maxval, 0, [];
      vmap := seq(maxval, _ => None);
      hashtbl := seq(MODULUS, _ => []);
    }

    /** F: find the entry in its chain, or add it with the next number. */
    method F(op: Op, v0: nat, v1: nat) returns (val: nat)
      requires Valid() && op != Nop && curval + 1 < maxval && OperandsBelow(Node(op, v0, v1), curval + 1)
      modifies this`curval, this`vmap, this`hashtbl, this`table
      ensures Valid()
      ensures table == Enter(old(table), Node(op, v0, v1)) && val == Number(old(table), Node(op, v0, v1))
    {
      hide Hash, WellNumbered, Mapped, AllFiled, Distinct;
      var n := Node(op, v0, v1);
      var hash := Hash(n);
      var chain := hashtbl[hash];
      var i := 0;
      while i < |chain|
        invariant 0 <= i <= |chain| && forall j :: 0 <= j < i ==> chain[j].node != n
      {
        if chain[i].node == n {
          assert chain[i] in hashtbl[hash];
          FindIs(table, chain[i].val - 1);
          return chain[i].val;
        }
        i := i + 1;
      }
      NotFiled(table, hashtbl, n);
      EnterWellNumbered(table, n);
      DistinctStill(table, n);
      MappedStill(table, vmap, n);
      val := curval + 1;
      curval := val;
      if op == LdImm {
        vmap := vmap[val := Some(Wrap(v0))];
      }
      FiledStill(table, hashtbl, n);
      ChainedStill(table, hashtbl, n);
      hashtbl := hashtbl[hash := [Entry(n, val)] + chain];
      table := table + [n];
      assert table == Enter(old(table), n);
    }

    /** The number of a constant. */
    method Constant(k: u32) returns (val: nat)
      requires Valid() && curval + 1 < maxval
      modifies this`curval, this`vmap, this`hashtbl, this`table
      ensures Valid()
      ensures table == Enter(old(table), ConstNode(k)) && val == Number(old(table), ConstNode(k))
    {
      val := F(LdImm, k, 0);
    }

    method StoreF(s: Stmt, val: seq<nat>, atom: nat, n: Node, alter: bool) returns (r: (Stmt, seq<nat>))
      requires Valid() && n.op != Nop && curval + 1 < maxval && OperandsBelow(n, curval + 1) && atom < |val|
      modifies this`curval, this`vmap, this`hashtbl, this`table
      ensures Valid() && Done(table, r.0, r.1) == StoreNew(old(table), s, val, atom, n, alter)
    {
      var v := F(n.op, n.v0, n.v1);
      r := StoreV(s, val, atom, v, alter);
    }

    /** vstore. */
    method StoreV(s: Stmt, val: seq<nat>, atom: nat, v: nat, alter: bool) returns (r: (Stmt, seq<nat>))
      requires atom < |val|
      ensures Done(table, r.0, r.1) == Vstore(table, s, val, atom, v, alter)
    {
      if alter && v != UNKNOWN && val[atom] == v {
        r := (s.(op := Nop), val);
      } else {
        r := (s, val[atom := v]);
      }
    }

    /** The constant cases of opt_stmt for `alu k`. */
    method RewriteAluK(o: AluOp, k: u32, val: seq<nat>, alter: bool) returns (ok: bool, r: (Stmt, seq<nat>))
      requires Valid() && InTable(table, val) && GoodConstant(o, k) && curval + 2 < maxval
      modifies this`curval, this`vmap, this`hashtbl, this`table
      ensures Valid() && ok == OptAluK(old(table), o, k, val, alter).Done?
      ensures ok ==> Done(table, r.0, r.1) == OptAluK(old(table), o, k, val, alter)
    {
      hide WellNumbered, Enter, Number, AluX, Distinct, ConstOf, AllFiled;
      ok, r := true, (Stmt(Alu(o, K), k), val);
      if alter {
        if k == 0 {
          if o == Add || o == Lsh || o == Rsh || o == Or || o == Xor {
            r := (r.0.(op := Nop), val);
            return;
          }
          if o == Mul || o == And {
            var v := Constant(0);
            r := (Stmt(LdImm, 0), val[A_ATOM := v]);
            return;
          }
        }
        var c := vmap[val[A_ATOM]];
        if c.Some? {
          EnterGrows(table, ConstNode(k));
          var kv := Constant(k);
          var folded := FoldOp(o, c.value, k);
          if folded == None {
            ok := false;
            return;
          }
          var v := Constant(folded.value);
          r := (Stmt(LdImm, folded.value), val[A_ATOM := v]);
          return;
        }
      }
      EnterGrows(table, ConstNode(k));
      var kv := Constant(k);
      var v := F(Alu(o, K), val[A_ATOM], kv);
      r := (r.0, val[A_ATOM := v]);
    }

    /** ... and for `alu x`. */
    method RewriteAluX(o: AluOp, k: u32, val: seq<nat>, alter: bool) returns (ok: bool, r: (Stmt, seq<nat>))
      requires Valid() && InTable(table, val) && curval + 2 < maxval
      modifies this`curval, this`vmap, this`hashtbl, this`table
      ensures Valid() && ok == OptAluX(old(table), o, k, val, alter).Done?
      ensures ok ==> Done(table, r.0, r.1) == OptAluX(old(table), o, k, val, alter)
    {
      hide WellNumbered, Enter, Number, AluX, Distinct, ConstOf, AllFiled;
      ok, r := true, (Stmt(Alu(o, X), k), val);
      var ca, cx := vmap[val[A_ATOM]], vmap[val[X_ATOM]];
      if alter && cx.Some? {
        if ca.Some? {
          var folded := FoldOp(o, ca.value, cx.value);
          if folded == None {
            ok := false;
            return;
          }
          var v := Constant(folded.value);
          r := (Stmt(LdImm, folded.value), val[A_ATOM := v]);
          return;
        }
        if (o == Lsh || o == Rsh) && cx.value > 31 {
          ok := false;
          return;
        }
        EnterGrows(table, ConstNode(cx.value));
        var kv := Constant(cx.value);
        var v := F(Alu(o, K), val[A_ATOM], kv);
        r := (Stmt(Alu(o, K), cx.value), val[A_ATOM := v]);
        return;
      }
      if alter && ca == Some(0) {
        if o == Add || o == Or || o == Xor {
          r := StoreV(Stmt(Txa, k), val, A_ATOM, val[X_ATOM], alter);
          return;
        } else if o != Sub {
          r := StoreF(Stmt(LdImm, 0), val, A_ATOM, ConstNode(0), alter);
          return;
        }
      }
      var v := F(Alu(o, X), val[A_ATOM], val[X_ATOM]);
      r := (r.0, val[A_ATOM := v]);
    }

    /** opt_stmt. */
    method RewriteStmt(s: Stmt, val: seq<nat>, alter: bool) returns (ok: bool, r: (Stmt, seq<nat>))
      requires Valid() && InTable(table, val) && GoodStmt(s) && curval + Cost(s) < maxval
      modifies this`curval, this`vmap, this`hashtbl, this`table
      ensures Valid() && ok == OptStmt(old(table), s, val, alter).Done?
      ensures ok ==> Done(table, r.0, r.1) == OptStmt(old(table), s, val, alter)
    {
      hide WellNumbered, Enter, Number, Distinct, ConstOf, AllFiled, OptAluK, OptAluX, StoreNew, Vstore;
      ok, r := true, (s, val);
      match s.op
      case LdAbs(_) => r := StoreF(s, val, A_ATOM, Node(s.op, s.k, 0), alter);
      case LdInd(size) =>
        var c := vmap[val[X_ATOM]];
        if alter && c.Some? {
          var s' := Stmt(LdAbs(size), Plus(s.k, c.value));
          r := StoreF(s', val, A_ATOM, Node(s'.op, s'.k, 0), alter);
        } else {
          r := StoreF(s, val, A_ATOM, Node(s.op, s.k, val[X_ATOM]), alter);
        }
      case LdLen => r := StoreF(s, val, A_ATOM, Node(LdLen, 0, 0), alter);
      case LdImm => r := StoreF(s, val, A_ATOM, ConstNode(s.k), alter);
      case LdxImm => r := StoreF(s, val, X_ATOM, ConstNode(s.k), alter);
      case LdxMsh => r := StoreF(s, val, X_ATOM, Node(LdxMsh, s.k, 0), alter);
      case Neg =>
        var c := vmap[val[A_ATOM]];
        if alter && c.Some? {
          var k := Minus(0, c.value);
          var v := Constant(k);
          r := (Stmt(LdImm, k), val[A_ATOM := v]);
        } else {
          var v := F(Neg, val[A_ATOM], 0);
          r := (s, val[A_ATOM := v]);
        }
      case Alu(o, K) => ok, r := RewriteAluK(o, s.k, val, alter);
      case Alu(o, X) => ok, r := RewriteAluX(o, s.k, val, alter);
      case Txa => r := StoreV(s, val, A_ATOM, val[X_ATOM], alter);
      case Tax => r := StoreV(s, val, X_ATOM, val[A_ATOM], alter);
      case LdMem =>
        var c := vmap[val[s.k]];
        r := StoreV(if alter && c.Some? then Stmt(LdImm, c.value) else s, val, A_ATOM, val[s.k], alter);
      case LdxMem =>
        var c := vmap[val[s.k]];
        r := StoreV(if alter && c.Some? then Stmt(LdxImm, c.value) else s, val, X_ATOM, val[s.k], alter);
      case St => r := StoreV(s, val, s.k, val[A_ATOM], alter);
      case Stx => r := StoreV(s, val, s.k, val[X_ATOM], alter);
      case _ =>
    }
  }

  /** vmap marks exactly the constants. */
  ghost predicate Mapped(t: seq<Node>, vmap: seq<Option<u32>>) {
    forall v :: 0 <= v < |vmap| ==> vmap[v] == ConstOf(t, v)
  }

  lemma MappedStill(t: seq<Node>, vmap: seq<Option<u32>>, n: Node)
    requires Mapped(t, vmap) && |t| + 1 < |vmap|
    ensures Mapped(t + [n], if n.op == LdImm then vmap[|t| + 1 := Some(Wrap(n.v0))] else vmap)
  {
  }

  lemma DistinctStill(t: seq<Node>, n: Node)
    requires Distinct(t) && n !in t
    ensures Distinct(t + [n])
  {
  }

  /** The chains hold entries of the table under their numbers. */
  ghost predicate Chained(t: seq<Node>, hashtbl: seq<seq<Entry>>) {
    forall h, e :: 0 <= h < |hashtbl| && e in hashtbl[h] ==> 1 <= e.val <= |t| && t[e.val - 1] == e.node
  }

  lemma ChainedStill(t: seq<Node>, hashtbl: seq<seq<Entry>>, n: Node)
    requires |hashtbl| == MODULUS && n.op != Nop && Chained(t, hashtbl)
    ensures Chained(t + [n], hashtbl[Hash(n) := [Entry(n, |t| + 1)] + hashtbl[Hash(n)]])
  {
    hide Hash;
    var tbl := hashtbl[Hash(n) := [Entry(n, |t| + 1)] + hashtbl[Hash(n)]];
    forall h, e: Entry | 0 <= h < |tbl| && e in tbl[h]
      ensures 1 <= e.val <= |t| + 1 && (t + [n])[e.val - 1] == e.node
    {
      assert e in hashtbl[h] || e == Entry(n, |t| + 1);
    }
  }

  /** Entry `i` of the table is in its hash chain. */
  ghost predicate Filed(t: seq<Node>, hashtbl: seq<seq<Entry>>, i: nat)
    requires i < |t| && |hashtbl| == MODULUS
  {
    t[i].op != Nop && Entry(t[i], i + 1) in hashtbl[Hash(t[i])]
  }

  ghost predicate AllFiled(t: seq<Node>, hashtbl: seq<seq<Entry>>) {
    |hashtbl| == MODULUS && forall i :: 0 <= i < |t| ==> Filed(t, hashtbl, i)
  }

  lemma NotFiled(t: seq<Node>, hashtbl: seq<seq<Entry>>, n: Node)
    requires |hashtbl| == MODULUS && n.op != Nop && AllFiled(t, hashtbl)
    requires forall j :: 0 <= j < |hashtbl[Hash(n)]| ==> hashtbl[Hash(n)][j].node != n
    ensures n !in t
  {
    hide Hash;
    forall i | 0 <= i < |t|
      ensures t[i] != n
    {
      assert Filed(t, hashtbl, i);
    }
  }

  lemma FiledStill(t: seq<Node>, hashtbl: seq<seq<Entry>>, n: Node)
    requires |hashtbl| == MODULUS && n.op != Nop && AllFiled(t, hashtbl)
    ensures AllFiled(t + [n], hashtbl[Hash(n) := [Entry(n, |t| + 1)] + hashtbl[Hash(n)]])
  {
    hide Hash;
    var tbl := hashtbl[Hash(n) := [Entry(n, |t| + 1)] + hashtbl[Hash(n)]];
    forall i | 0 <= i < |t + [n]|
      ensures Filed(t + [n], tbl, i)
    {
      assert i < |t| ==> Filed(t, hashtbl, i);
    }
  }

  // ---------------------------------------------------------------------
  // One block
  // ---------------------------------------------------------------------

  /** opt_stmt over the statements of a block. */
  method RewriteList(vt: ValueTable, ss: seq<Stmt>, val: seq<nat>, alter: bool)
    returns (ok: bool, ss': seq<Stmt>, val': seq<nat>)
    requires vt.Valid() && InTable(vt.table, val) && GoodList(ss) && vt.curval + 2 * |Live(ss)| < vt.maxval
    modifies vt`curval, vt`vmap, vt`hashtbl, vt`table
    ensures vt.Valid() && ok == OptList(old(vt.table), ss, val, alter).DoneList?
    ensures ok ==> DoneList(vt.table, ss', val') == OptList(old(vt.table), ss, val, alter)
  {
    hide WellNumbered, OptStmt, Distinct, AllFiled;
    ok, ss', val' := true, [], val;
    ghost var whole := OptList(vt.table, ss, val, alter);
    var i := 0;
    while i < |ss|
      invariant 0 <= i <= |ss| && vt.Valid() && InTable(vt.table, val')
      invariant vt.curval + 2 * |Live(ss[i..])| < vt.maxval
      invariant whole == Resumed(ss', OptList(vt.table, ss[i..], val', alter))
    {
      var s := ss[i];
      ghost var t, rest := vt.table, ss[i..];
      assert rest[0] == s && rest[1..] == ss[i + 1..] && GoodStmt(s) && GoodList(rest);
      OptStmtShape(t, s, val', alter);
      var r;
      ok, r := vt.RewriteStmt(s, val', alter);
      if !ok { return; }
      assert whole == Resumed(ss' + [r.0], OptList(vt.table, ss[i + 1..], r.1, alter)) by {
        ResumedStep(ss', r.0, OptList(vt.table, ss[i + 1..], r.1, alter));
      }
      ss', val' := ss' + [r.0], r.1;
      i := i + 1;
    }
    assert ss[i..] == [];
  }

  /** The result of a list whose first statements were rewritten to `done`. */
  function Resumed(done: seq<Stmt>, r: NumberedList): NumberedList {
    match r case FailedList => FailedList case DoneList(t, ss, val) => DoneList(t, done + ss, val)
  }

  lemma ResumedStep(done: seq<Stmt>, s: Stmt, r: NumberedList)
    ensures Resumed(done + [s], r) == Resumed(done, Resumed([s], r))
  {
    if r.DoneList? {
      assert done + [s] + r.ss == done + ([s] + r.ss);
    }
  }

  /** opt_blk drops the statements of a return, and of a block that changes nothing anyone uses. */
  predicate Cleared(b: Block, entry: seq<nat>, exit: seq<nat>, alter: bool, outUse: set<nat>)
    requires |entry| == |exit| == N_ATOMS
  {
    alter && (b.Leaf? || (outUse == {} && entry[A_ATOM] != UNKNOWN && exit[A_ATOM] == entry[A_ATOM]
                          && entry[X_ATOM] != UNKNOWN && exit[X_ATOM] == entry[X_ATOM]))
  }

  /** What opt_blk leaves of a block whose statements were rewritten to `rw`, with numbers `exit`. */
  ghost predicate Left(t: seq<Node>, b: Block, rw: seq<Stmt>, b': Block, entry: seq<nat>, exit: seq<nat>, alter: bool,
                       outUse: set<nat>)
    requires |entry| == |exit| == N_ATOMS
  {
    if Cleared(b, entry, exit, alter, outUse) then b' == WithStmts(b, [])
    else
      && !PeepAborts(t, WithStmts(b, rw), exit)
      && var f := PeepBlock(t, WithStmts(b, rw), exit, outUse);
         b' == WithStmts(f, Strip(f.stmts, BranchUses(f) + outUse))
  }

  /** What opt_blk makes of a block that it numbers in the table `before`. */
  ghost predicate BlockNumbered(t: seq<Node>, b: Block, b': Block, entry: seq<nat>, exit: seq<nat>, oval: nat,
                                alter: bool, outUse: set<nat>, before: seq<Node>) {
    && WellNumbered(before) && InTable(before, entry) && GoodList(b.stmts)
    && var r := OptList(before, b.stmts, entry, alter);
       && r.DoneList? && before <= t && r.t <= t && exit == r.val && InTable(t, exit)
       && Left(r.t, b, r.ss, b', entry, exit, alter, outUse)
       && (if b'.Branch? && b'.src == X then oval == exit[X_ATOM] else 1 <= oval <= |t| && t[oval - 1] == ConstNode(b'.k))
  }

  lemma StillNumbered(t: seq<Node>, t': seq<Node>, b: Block, b': Block, entry: seq<nat>, exit: seq<nat>, oval: nat,
                      alter: bool, outUse: set<nat>, before: seq<Node>)
    requires BlockNumbered(t, b, b', entry, exit, oval, alter, outUse, before) && t <= t'
    ensures BlockNumbered(t', b, b', entry, exit, oval, alter, outUse, before)
  {
    hide OptList, WellNumbered, Left;
  }

  /** The block is rewritten without an error, and opt_peep does not abort on it. */
  predicate Finishes(before: seq<Node>, b: Block, entry: seq<nat>, alter: bool)
    requires WellNumbered(before) && InTable(before, entry) && GoodList(b.stmts)
  {
    OptListShape(before, b.stmts, entry, alter);
    var r := OptList(before, b.stmts, entry, alter);
    r.DoneList? && (alter || !PeepAborts(r.t, b, r.val))
  }

  /**
   * opt_blk: rewrite the statements, then clear the block, or apply the peephole rules and delete
   * its dead stores, and number the branch operand. It fails exactly when the rewriting does, or
   * the peephole step meets a return with statements and a known accumulator.
   */
  method OptBlk(vt: ValueTable, b: Block, entry: seq<nat>, alter: bool, outUse: set<nat>)
    returns (ok: bool, b': Block, exit: seq<nat>, oval: nat)
    requires vt.Valid() && InTable(vt.table, entry) && GoodList(b.stmts)
    requires vt.curval + 2 * |Live(b.stmts)| + 1 < vt.maxval
    modifies vt`curval, vt`vmap, vt`hashtbl, vt`table
    ensures vt.Valid() && ok == Finishes(old(vt.table), b, entry, alter)
    ensures ok ==> old(vt.table) <= vt.table && vt.curval <= old(vt.curval) + 2 * |Live(b.stmts)| + 1
    ensures ok ==> BlockNumbered(vt.table, b, b', entry, exit, oval, alter, outUse, old(vt.table))
    ensures ok ==> |Live(b'.stmts)| <= |Live(b.stmts)|
  {
    hide WellNumbered, OptList, Distinct, AllFiled, ConstOf, Strip, Mapped, Chained, Live, PeepBlock, PeepAborts, Left;
    OptListShape(vt.table, b.stmts, entry, alter);
    var stmts;
    ghost var t0 := vt.table;
    b', oval := b, 0;
    ok, stmts, exit := RewriteList(vt, b.stmts, entry, alter);
    if !ok { return; }
    OptListLeaner(t0, b.stmts, entry, alter);
    LeanerInRange(b.stmts, stmts);
    ok, b' := FinishBlk(vt, b, stmts, entry, exit, alter, outUse);
    if !ok { return; }
    if b'.Branch? && b'.src == X {
      oval := exit[X_ATOM];
    } else {
      oval := vt.Constant(b'.k);
    }
  }

  /** opt_blk after the rewriting: clear the block, or apply opt_peep and opt_deadstores. */
  method FinishBlk(vt: ValueTable, b: Block, stmts: seq<Stmt>, entry: seq<nat>, exit: seq<nat>, alter: bool, outUse: set<nat>)
    returns (ok: bool, b': Block)
    requires vt.Valid() && InTable(vt.table, entry) && InTable(vt.table, exit) && ListInRange(stmts) && |stmts| == |b.stmts|
    ensures ok == (alter || !PeepAborts(vt.table, b, exit))
    ensures ok ==> Left(vt.table, b, stmts, b', entry, exit, alter, outUse) && |Live(b'.stmts)| <= |Live(stmts)|
  {
    hide WellNumbered, Distinct, AllFiled, Strip, Mapped, Chained, PeepBlock, PeepBranch;
    if Cleared(b, entry, exit, alter, outUse) {
      StripShortens(stmts, {});
      return true, WithStmts(b, []);
    }
    if b.Leaf? && stmts != [] && Known(vt, exit[A_ATOM]).Some? {
      return false, b;
    }
    var f := OptPeep(vt, WithStmts(b, stmts), exit, outUse);
    PeepShape(vt.table, WithStmts(b, stmts), exit, outUse);
    PeepInRange(WithStmts(b, stmts), f);
    var left := OptDeadstores(f, outUse);
    ok, b' := true, WithStmts(f, left);
    StripShortens(f.stmts, BranchUses(f) + outUse);
  }

  /** vmap. */
  function Known(vt: ValueTable, v: nat): (c: Option<u32>)
    reads vt
    requires vt.Valid() && v <= vt.curval
    ensures c == ConstOf(vt.table, v)
  {
    hide WellNumbered, Distinct, AllFiled, Chained;
    vt.vmap[v]
  }

  /** opt_peep. */
  method OptPeep(vt: ValueTable, b: Block, val: seq<nat>, outUse: set<nat>) returns (b': Block)
    requires vt.Valid() && InTable(vt.table, val)
    ensures b' == PeepBlock(vt.table, b, val, outUse)
  {
    hide WellNumbered, Distinct, AllFiled, Mapped, Chained, PeepFrom, LastFrom, ConstOf;
    if b.stmts == [] { return b; }
    PeepEnds(b.stmts);
    var stmts, last := PeepList(b.stmts);
    b' := WithStmts(b, stmts);
    if b.Leaf? { return; }
    var x, a := Known(vt, val[X_ATOM]), Known(vt, val[A_ATOM]);
    var s := stmts[last];
    if b'.cmp == Jeq && b'.src == K && A_ATOM !in outUse {
      if s.op == Alu(Sub, X) {
        if x.Some? {
          b' := b'.(stmts := stmts[last := s.(op := Nop)], k := Plus(b'.k, x.value));
        } else if b'.k == 0 {
          b' := b'.(stmts := stmts[last := s.(op := Nop)], src := X);
        }
      } else if s.op == Alu(Sub, K) {
        b' := b'.(stmts := stmts[last := s.(op := Nop)], k := Plus(b'.k, s.k));
      } else if s.op == Alu(And, K) && b'.k == 0 {
        b' := b'.(stmts := stmts[last := s.(op := Nop)], cmp := Jset, k := s.k, jt := b'.jf, jf := b'.jt);
      }
    }
    if b'.cmp == Jset && b'.src == K && b'.k == 0 {
      b' := b'.(jt := b'.jf);
    }
    if x.Some? && b'.src == X {
      b' := b'.(src := K, k := x.value);
    }
    if a.Some? && b'.src == K {
      b' := if Compare(b'.cmp, a.value, b'.k) then b'.(jf := b'.jt) else b'.(jt := b'.jf);
    }
  }

  lemma PeepInRange(b: Block, b': Block)
    requires Peeped(b, b') && ListInRange(b.stmts)
    ensures ListInRange(b'.stmts) && |Live(b'.stmts)| <= |Live(b.stmts)|
  {
    forall i | 0 <= i < |b'.stmts|
      ensures InRange(b'.stmts[i])
    {
      assert InRange(b.stmts[i]);
      assert b'.stmts[i].op == Nop || ReworkedAt(b.stmts[i], b'.stmts[i]);
    }
    NopsShorten(b.stmts, b'.stmts);
  }

  lemma {:induction false} NopsShorten(ss: seq<Stmt>, left: seq<Stmt>)
    requires |left| == |ss| && forall i :: 0 <= i < |ss| && ss[i].op == Nop ==> left[i].op == Nop
    ensures |Live(left)| <= |Live(ss)|
    decreases |ss|
  {
    if ss != [] {
      NopsShorten(ss[1..], left[1..]);
    }
  }

  lemma LeanerInRange(ss: seq<Stmt>, left: seq<Stmt>)
    requires |left| == |ss| && forall i :: 0 <= i < |ss| ==> Leaner(ss[i], left[i])
    ensures ListInRange(left)
  {
    forall i | 0 <= i < |left|
      ensures InRange(left[i])
    {
      assert Leaner(ss[i], left[i]);
    }
  }

  lemma {:induction false} StripShortens(ss: seq<Stmt>, out: set<nat>)
    ensures Live([]) == [] && |Live(Strip(ss, out))| <= |Live(ss)|
    decreases |ss|
  {
    hide LiveIn;
    if ss != [] {
      StripTail(ss, 1, out);
      StripShortens(ss[1..], out);
    }
  }

  // ---------------------------------------------------------------------
  // Joins
  // ---------------------------------------------------------------------

  /** Edge `e` leaves a block of `s` and enters `c`. */
  ghost predicate EdgeInto(g: Graph, s: set<nat>, e: nat, c: nat) {
    && e < 2 * |g|
    && var b := Analysis.EdgeSource(|g|, e);
       b in s && g[b].Branch? && Successor(g[b], e < |g|) == c
  }

  ghost predicate InEdges(g: Graph, s: set<nat>, inEdges: seq<seq<nat>>) {
    |inEdges| == |g| && forall c, e: nat :: 0 <= c < |g| ==> (e in inEdges[c] <==> EdgeInto(g, s, e, c))
  }

  /** link_inedge for both edges of a block. */
  method LinkBlock(g: Graph, b: nat, inEdges0: seq<seq<nat>>, ghost s: set<nat>) returns (inEdges: seq<seq<nat>>)
    requires b < |g| && b !in s && g[b].Branch? && g[b].jt < |g| && g[b].jf < |g| && InEdges(g, s, inEdges0)
    ensures InEdges(g, s + {b}, inEdges)
  {
    var t, f := g[b].jt, g[b].jf;
    inEdges := inEdges0[t := [b] + inEdges0[t]];
    inEdges := inEdges[f := [|g| + b] + inEdges[f]];
    forall c, e: nat | 0 <= c < |g|
      ensures e in inEdges[c] <==> EdgeInto(g, s + {b}, e, c)
    {
      assert e in inEdges[c] <==> e in inEdges0[c] || (c == t && e == b) || (c == f && e == |g| + b);
    }
  }

  /** find_inedges. */
  method FindInedges(an: Analysis.Analyzer) returns (inEdges: seq<seq<nat>>)
    requires an.Leveled()
    ensures InEdges(an.g, an.reached, inEdges)
  {
    hide Analysis.LevelLists, Analysis.LevelOf, EdgeInto;
    var g := an.g;
    Analysis.LevelListFacts(g, an.rank, an.level, an.levels, an.reached);
    inEdges := seq(|g|, _ => []);
    ghost var done: set<nat> := {};
    NoEdges(g, inEdges);
    var l := an.level[an.root];
    while l > 0
      invariant 0 <= l < |g| && an.DoneIs(done, l, 0) && InEdges(g, done, inEdges)
    {
      var i := 0;
      while i < |an.levels[l]|
        invariant 0 <= i <= |an.levels[l]| && an.DoneIs(done, l, i) && InEdges(g, done, inEdges)
      {
        an.NextIsReady(done, l, i);
        Analysis.LevelStep(g, an.rank, an.levels[l][i]);
        NotYet(an, done, l, i);
        inEdges := LinkBlock(g, an.levels[l][i], inEdges, done);
        done := done + {an.levels[l][i]};
        i := i + 1;
      }
      an.LevelFinished(done, l);
      l := l - 1;
    }
    OnlyLeavesLeft(an, done, inEdges);
  }

  lemma NoEdges(g: Graph, inEdges: seq<seq<nat>>)
    requires |inEdges| == |g| && forall c :: 0 <= c < |g| ==> inEdges[c] == []
    ensures InEdges(g, {}, inEdges)
  {
  }

  lemma NotYet(an: Analysis.Analyzer, done: set<nat>, l: nat, i: nat)
    requires an.Leveled() && l < |an.g| && i < |an.levels[l]| && an.DoneIs(done, l, i)
    ensures an.levels[l][i] !in done
  {
    hide Analysis.LevelOf;
    var b := an.levels[l][i];
    assert Analysis.InLevel(an.levels, l, b);
    assert Distinct(an.levels[l]);
  }

  lemma OnlyLeavesLeft(an: Analysis.Analyzer, done: set<nat>, inEdges: seq<seq<nat>>)
    requires an.Leveled() && an.DoneIs(done, 0, 0) && InEdges(an.g, done, inEdges)
    ensures InEdges(an.g, an.reached, inEdges)
  {
    hide Analysis.LevelLists, Analysis.LevelOf;
    var g := an.g;
    Analysis.LevelListFacts(g, an.rank, an.level, an.levels, an.reached);
    forall c, e: nat | 0 <= c < |g|
      ensures e in inEdges[c] <==> EdgeInto(g, an.reached, e, c)
    {
      assert e in inEdges[c] <==> EdgeInto(g, done, e, c);
      if e < 2 * |g| {
        Analysis.LevelStep(g, an.rank, Analysis.EdgeSource(|g|, e));
      }
    }
  }

  /** The number with which the source of edge `e` leaves for atom `a`. */
  function ExitNumber(exits: seq<seq<nat>>, e: nat, a: nat): nat {
    var b := Analysis.EdgeSource(|exits|, e);
    if 0 <= b < |exits| && a < |exits[b]| then exits[b][a] else UNKNOWN
  }

  /** The edges agree on `v` for atom `a`, and there is one. */
  ghost predicate Common(edges: seq<nat>, exits: seq<seq<nat>>, a: nat, v: nat) {
    edges != [] && forall i :: 0 <= i < |edges| ==> ExitNumber(exits, edges[i], a) == v
  }

  ghost predicate MergedFrom(val: seq<nat>, edges: seq<nat>, exits: seq<seq<nat>>) {
    |val| == N_ATOMS
    && forall a, v: nat :: 0 <= a < N_ATOMS && v != UNKNOWN ==> (val[a] == v <==> Common(edges, exits, a, v))
  }

  /** The numbers on entry to a block with the given incoming edges: those common to all of them. */
  method MergeIn(edges: seq<nat>, exits: seq<seq<nat>>, ghost t: seq<Node>) returns (val: seq<nat>)
    requires forall e :: e in edges ==> e < 2 * |exits| && InTable(t, exits[Analysis.EdgeSource(|exits|, e)])
    ensures InTable(t, val) && MergedFrom(val, edges, exits)
  {
    if edges == [] {
      return seq(N_ATOMS, _ => UNKNOWN);
    }
    val := exits[Analysis.EdgeSource(|exits|, edges[0])];
    var i := 1;
    while i < |edges|
      invariant 1 <= i <= |edges| && InTable(t, val) && MergedFrom(val, edges[..i], exits)
    {
      var p := exits[Analysis.EdgeSource(|exits|, edges[i])];
      MergeStep(edges, i, exits, val);
      val := Agreeing(val, p);
      i := i + 1;
    }
    assert edges[..i] == edges;
  }

  lemma MergeStep(edges: seq<nat>, i: nat, exits: seq<seq<nat>>, val: seq<nat>)
    requires 0 < i < |edges| && edges[i] < 2 * |exits| && MergedFrom(val, edges[..i], exits)
    requires |exits[Analysis.EdgeSource(|exits|, edges[i])]| == N_ATOMS
    ensures MergedFrom(Agreeing(val, exits[Analysis.EdgeSource(|exits|, edges[i])]), edges[..i + 1], exits)
  {
    var r, first := Agreeing(val, exits[Analysis.EdgeSource(|exits|, edges[i])]), edges[..i];
    assert edges[..i + 1] == first + [edges[i]];
    forall a, v: nat | 0 <= a < N_ATOMS && v != UNKNOWN
      ensures r[a] == v <==> Common(first + [edges[i]], exits, a, v)
    {
      assert val[a] == v <==> Common(first, exits, a, v);
      CommonNext(first, edges[i], exits, a, v);
    }
  }

  lemma CommonNext(edges: seq<nat>, e: nat, exits: seq<seq<nat>>, a: nat, v: nat)
    requires edges != []
    ensures Common(edges + [e], exits, a, v) <==> Common(edges, exits, a, v) && ExitNumber(exits, e, a) == v
  {
    hide ExitNumber;
    if Common(edges + [e], exits, a, v) {
      assert (edges + [e])[|edges|] == e;
      forall i | 0 <= i < |edges|
        ensures ExitNumber(exits, edges[i], a) == v
      {
        assert (edges + [e])[i] == edges[i];
      }
    }
  }

  /** Atoms on which the two differ become unknown. */
  function Agreeing(val: seq<nat>, other: seq<nat>): (r: seq<nat>)
    requires |val| == |other| == N_ATOMS
    ensures |r| == N_ATOMS
    ensures forall a :: 0 <= a < N_ATOMS ==> r[a] == if val[a] == other[a] then val[a] else UNKNOWN
  {
    seq(N_ATOMS, a requires 0 <= a < N_ATOMS => if val[a] == other[a] then val[a] else UNKNOWN)
  }

  // ---------------------------------------------------------------------
  // The pass
  // ---------------------------------------------------------------------

  /** max_stmts of opt_init: statements and branches of the blocks in `s`. */
  function MaxStmts(g: Graph, s: set<nat>, n: nat): nat
    requires n <= |g|
  {
    if n == 0 then 0 else MaxStmts(g, s, n - 1) + if n - 1 in s then |Live(g[n - 1].stmts)| + 1 else 0
  }

  lemma {:induction false} MaxStmtsAdd(g: Graph, s: set<nat>, b: nat, n: nat)
    requires b !in s && n <= |g|
    ensures MaxStmts(g, s + {b}, n) == MaxStmts(g, s, n) + if b < n then |Live(g[b].stmts)| + 1 else 0
  {
    hide Live;
    if n > 0 { MaxStmtsAdd(g, s, b, n - 1); }
  }

  lemma {:induction false} MaxStmtsMono(g: Graph, g': Graph, s: set<nat>, s': set<nat>, n: nat)
    requires s <= s' && n <= |g| == |g'|
    requires forall b :: b in s && b < |g| ==> |Live(g[b].stmts)| <= |Live(g'[b].stmts)|
    ensures MaxStmts(g, s, n) <= MaxStmts(g', s', n)
  {
    hide Live;
    if n > 0 { MaxStmtsMono(g, g', s, s', n - 1); }
  }

  /** What a pass starts from: the graph, its reachable blocks, their out_use, and do_stmts. */
  datatype Setting = Setting(g: Graph, reached: set<nat>, outUse: seq<set<nat>>, alter: bool)

  /** What it builds up: blocks, value table, and for every block the numbers it was given. */
  datatype PassState = PassState(g: Graph, t: seq<Node>, entry: seq<seq<nat>>, exit: seq<seq<nat>>, oval: seq<nat>,
                                 before: seq<seq<Node>>)

  predicate Sized(c: Setting, p: PassState) {
    && |c.outUse| == |c.g| == |p.g| == |p.entry| == |p.exit| == |p.oval| == |p.before|
    && forall b :: 0 <= b < |c.g| ==> |p.exit[b]| == N_ATOMS
  }

  /** All edges into `b` leave with number `v` for atom `a`, and there is one. */
  ghost predicate CommonNumber(c: Setting, p: PassState, b: nat, a: nat, v: nat)
    requires Sized(c, p) && a < N_ATOMS
  {
    && (exists e: nat :: EdgeInto(c.g, c.reached, e, b))
    && forall e: nat :: EdgeInto(c.g, c.reached, e, b) ==> p.exit[Analysis.EdgeSource(|c.g|, e)][a] == v
  }

  /** A number is known on entry exactly when all predecessors leave with it. */
  ghost predicate EntryOf(c: Setting, p: PassState, b: nat, entry: seq<nat>)
    requires Sized(c, p)
  {
    |entry| == N_ATOMS
    && forall a, v: nat :: 0 <= a < N_ATOMS && v != UNKNOWN ==> (entry[a] == v <==> CommonNumber(c, p, b, a, v))
  }

  /** Block `b` has been processed. */
  ghost predicate PassedAt(c: Setting, p: PassState, b: nat)
    requires Sized(c, p) && b < |c.g|
  {
    && BlockNumbered(p.t, c.g[b], p.g[b], p.entry[b], p.exit[b], p.oval[b], c.alter, c.outUse[b], p.before[b])
    && EntryOf(c, p, b, p.entry[b])
    && forall e: nat :: EdgeInto(c.g, c.reached, e, b) ==> Analysis.EdgeSource(|c.g|, e) != b
  }

  /** A return stays what it is, and a branch keeps its successors or loses one. */
  ghost predicate SameShape(b: Block, b': Block) {
    if b.Leaf? then b' == WithStmts(b, b'.stmts) else b'.Branch? && IsSuccessor(b, b'.jt) && IsSuccessor(b, b'.jf)
  }

  /** The state of the pass when the blocks in `done` have been processed. */
  ghost predicate Passing(c: Setting, p: PassState, done: set<nat>) {
    && Sized(c, p)
    && (forall b :: b in done && b < |c.g| ==> PassedAt(c, p, b))
    && (forall b :: 0 <= b < |c.g| ==>
          && SameShape(c.g[b], p.g[b]) && |Live(p.g[b].stmts)| <= |Live(c.g[b].stmts)|
          && (b !in done ==> p.g[b] == c.g[b]))
  }

  /**
   * The pass stops at block `b`, whose predecessors are done, because a statement is refused or, if
   * no statement may be altered, because the block is a return with statements that leave a known
   * accumulator.
   */
  ghost predicate Refusal(c: Setting, p: PassState, done: set<nat>, b: nat) {
    && Passing(c, p, done) && b in c.reached && b < |c.g| && b !in done
    && (forall e: nat :: EdgeInto(c.g, c.reached, e, b) ==> Analysis.EdgeSource(|c.g|, e) in done)
    && EntryOf(c, p, b, p.entry[b]) && WellNumbered(p.t) && InTable(p.t, p.entry[b]) && GoodList(c.g[b].stmts)
    && ((exists i :: 0 <= i < |c.g[b].stmts| && RefusedAt(p.t, c.g[b].stmts, p.entry[b], c.alter, i))
        || (!c.alter && c.g[b].Leaf? && c.g[b].stmts != [] && !Finishes(p.t, c.g[b], p.entry[b], c.alter)))
  }

  /** The state after block `b` has been processed. */
  function Advance(p: PassState, b: nat, b': Block, t: seq<Node>, entry: seq<nat>, exit: seq<nat>, oval: nat): PassState
    requires b < |p.g| == |p.entry| == |p.exit| == |p.oval| == |p.before|
  {
    PassState(p.g[b := b'], t, p.entry[b := entry], p.exit[b := exit], p.oval[b := oval], p.before[b := p.t])
  }

  /** No processed block has `b` as a predecessor. */
  ghost predicate NoneAfter(c: Setting, done: set<nat>, b: nat) {
    forall d, e: nat :: d in done && EdgeInto(c.g, c.reached, e, d) ==> Analysis.EdgeSource(|c.g|, e) != b
  }

  lemma SameEntry(c: Setting, p: PassState, p': PassState, d: nat, entry: seq<nat>)
    requires Sized(c, p) && Sized(c, p') && EntryOf(c, p, d, entry)
    requires forall e: nat :: EdgeInto(c.g, c.reached, e, d) ==>
               var b := Analysis.EdgeSource(|c.g|, e); 0 <= b < |c.g| && p'.exit[b] == p.exit[b]
    ensures EntryOf(c, p', d, entry)
  {
    hide EdgeInto;
    forall a, v: nat | 0 <= a < N_ATOMS && v != UNKNOWN
      ensures entry[a] == v <==> CommonNumber(c, p', d, a, v)
    {
      assert entry[a] == v <==> CommonNumber(c, p, d, a, v);
    }
  }

  lemma PassStep(c: Setting, p: PassState, done: set<nat>, b: nat, b': Block, t: seq<Node>, en: seq<nat>, ex: seq<nat>, ov: nat)
    requires Passing(c, p, done) && b < |c.g| && b !in done && p.t <= t
    requires BlockNumbered(t, c.g[b], b', en, ex, ov, c.alter, c.outUse[b], p.t) && |Live(b'.stmts)| <= |Live(c.g[b].stmts)|
    requires EntryOf(c, p, b, en) && NoneAfter(c, done + {b}, b)
    ensures Passing(c, Advance(p, b, b', t, en, ex, ov), done + {b})
  {
    hide BlockNumbered, EdgeInto, Live, EntryOf;
    var p' := Advance(p, b, b', t, en, ex, ov);
    NumberedShape(t, c.g[b], b', en, ex, ov, c.alter, c.outUse[b], p.t);
    forall d, e: nat | EdgeInto(c.g, c.reached, e, d)
      ensures 0 <= Analysis.EdgeSource(|c.g|, e) < |c.g|
    {
      EdgeSourceExists(c.g, c.reached, e, d);
    }
    forall d | d in done + {b} && d < |c.g|
      ensures PassedAt(c, p', d)
    {
      if d != b {
        assert PassedAt(c, p, d);
        StillNumbered(p.t, t, c.g[d], p.g[d], p.entry[d], p.exit[d], p.oval[d], c.alter, c.outUse[d], p.before[d]);
      }
      SameEntry(c, p, p', d, p'.entry[d]);
    }
  }

  lemma EdgeSourceExists(g: Graph, s: set<nat>, e: nat, c: nat)
    requires EdgeInto(g, s, e, c)
    ensures 0 <= Analysis.EdgeSource(|g|, e) < |g|
  {
  }

  lemma NumberedShape(t: seq<Node>, b: Block, b': Block, entry: seq<nat>, exit: seq<nat>, oval: nat,
                      alter: bool, outUse: set<nat>, before: seq<Node>)
    requires BlockNumbered(t, b, b', entry, exit, oval, alter, outUse, before)
    ensures SameShape(b, b') && InTable(t, exit)
  {
    hide OptList, WellNumbered, Strip, PeepBlock;
    var r := OptList(before, b.stmts, entry, alter);
    PeepShape(r.t, WithStmts(b, r.ss), exit, outUse);
  }

  lemma StartPass(c: Setting, p: PassState)
    requires Sized(c, p) && p.g == c.g
    ensures Passing(c, p, {})
  {
  }

  /** The next block has its predecessors processed, and is no predecessor of a processed block. */
  lemma PassReady(an: Analysis.Analyzer, c: Setting, p: PassState, done: set<nat>, l: nat, i: nat, inEdges: seq<seq<nat>>)
    requires an.Leveled() && l < |an.g| && i < |an.levels[l]| && an.DoneIs(done, l, i) && GoodGraph(an.g)
    requires c.g == an.g && c.reached == an.reached && InEdges(c.g, c.reached, inEdges) && Passing(c, p, done)
    ensures Sized(c, p) && an.levels[l][i] < |c.g| == |inEdges|
    ensures var b := an.levels[l][i];
            && GoodList(c.g[b].stmts) && NoneAfter(c, done + {b}, b)
            && (forall e: nat :: e in inEdges[b] <==> EdgeInto(c.g, c.reached, e, b))
            && (forall e: nat :: EdgeInto(c.g, c.reached, e, b) ==>
                  var q := Analysis.EdgeSource(|c.g|, e); 0 <= q < |c.g| && q in done && InTable(p.t, p.exit[q]))
  {
    hide Analysis.LevelLists, Analysis.LevelOf, BlockNumbered, Live, Closed, EntryOf, GoodStmt;
    var b := an.levels[l][i];
    an.NextIsReady(done, l, i);
    Analysis.LevelListFacts(c.g, an.rank, an.level, an.levels, an.reached);
    forall d, e: nat | (d == b || d in done) && EdgeInto(c.g, c.reached, e, d)
      ensures var q := Analysis.EdgeSource(|c.g|, e); 0 <= q < |c.g| && q != b && q in done
    {
      DoneLevel(an, done, l, i, d);
      Analysis.LevelStep(c.g, an.rank, Analysis.EdgeSource(|c.g|, e));
    }
    forall e: nat | EdgeInto(c.g, c.reached, e, b)
      ensures InTable(p.t, p.exit[Analysis.EdgeSource(|c.g|, e)])
    {
      var q := Analysis.EdgeSource(|c.g|, e);
      assert PassedAt(c, p, q);
      NumberedShape(p.t, c.g[q], p.g[q], p.entry[q], p.exit[q], p.oval[q], c.alter, c.outUse[q], p.before[q]);
    }
  }

  lemma DoneLevel(an: Analysis.Analyzer, done: set<nat>, l: nat, i: nat, c: nat)
    requires an.Leveled() && l < |an.g| && i < |an.levels[l]| && an.DoneIs(done, l, i)
    requires c == an.levels[l][i] || c in done
    ensures c < |an.g| && c in an.reached && l <= an.level[c]
  {
    hide Analysis.LevelOf, Closed;
    assert Analysis.InLevel(an.levels, l, c) <==> c in an.levels[l];
    assert c in an.levels[l][..i] ==> c in an.levels[l];
    Analysis.LevelListFacts(an.g, an.rank, an.level, an.levels, an.reached);
  }

  /** MergeIn over the incoming edges gives the entry numbers. */
  lemma MergedIsEntry(c: Setting, p: PassState, b: nat, edges: seq<nat>, entry: seq<nat>)
    requires Sized(c, p) && |entry| == N_ATOMS
    requires forall e :: e in edges ==> e < 2 * |p.exit|
    requires forall e: nat :: e in edges <==> EdgeInto(c.g, c.reached, e, b)
    requires MergedFrom(entry, edges, p.exit)
    ensures EntryOf(c, p, b, entry)
  {
    hide EdgeInto;
    forall e: nat | EdgeInto(c.g, c.reached, e, b)
      ensures 0 <= Analysis.EdgeSource(|c.g|, e) < |c.g|
    {
      EdgeSourceExists(c.g, c.reached, e, b);
    }
    forall a, v: nat | 0 <= a < N_ATOMS && v != UNKNOWN
      ensures entry[a] == v <==> CommonNumber(c, p, b, a, v)
    {
      assert entry[a] == v <==> Common(edges, p.exit, a, v);
      if edges != [] { assert edges[0] in edges; }
      if Common(edges, p.exit, a, v) {
        forall e: nat | EdgeInto(c.g, c.reached, e, b)
          ensures p.exit[Analysis.EdgeSource(|c.g|, e)][a] == v
        {
          var i :| 0 <= i < |edges| && edges[i] == e;
        }
      }
      if CommonNumber(c, p, b, a, v) {
        var e: nat :| EdgeInto(c.g, c.reached, e, b);
        assert e in edges;
        forall i | 0 <= i < |edges|
          ensures ExitNumber(p.exit, edges[i], a) == v
        {
          assert edges[i] in edges;
        }
      }
    }
  }

  /** The body of the loop. */
  method PassBlock(an: Analysis.Analyzer, vt: ValueTable, inEdges: seq<seq<nat>>, alter: bool, outUse: seq<set<nat>>,
                   ghost c: Setting, ghost p0: PassState, ghost done: set<nat>, l: nat, i: nat,
                   g0: Graph, exit0: seq<seq<nat>>, oval0: seq<nat>)
    returns (ok: bool, g': Graph, exit: seq<seq<nat>>, oval: seq<nat>, ghost p: PassState)
    requires an.Leveled() && l < |an.g| && i < |an.levels[l]| && an.DoneIs(done, l, i) && GoodGraph(an.g)
    requires c == Setting(an.g, an.reached, outUse, alter) && Passing(c, p0, done)
    requires p0.g == g0 && p0.exit == exit0 && p0.oval == oval0 && p0.t == vt.table
    requires InEdges(an.g, an.reached, inEdges) && vt.Valid() && vt.maxval >= 3 * MaxStmts(an.g, an.reached, |an.g|)
    requires vt.curval <= 3 * MaxStmts(an.g, done, |an.g|)
    modifies vt`curval, vt`vmap, vt`hashtbl, vt`table
    ensures vt.Valid() && (!ok ==> Refusal(c, p, done, an.levels[l][i]))
    ensures ok ==> Passing(c, p, done + {an.levels[l][i]})
    ensures ok ==> p.g == g' && p.exit == exit && p.oval == oval && p.t == vt.table
    ensures ok ==> vt.curval <= 3 * MaxStmts(an.g, done + {an.levels[l][i]}, |an.g|)
  {
    hide Analysis.LevelLists, Analysis.LevelOf, WellNumbered, Distinct, AllFiled, Passing, BlockNumbered, Live,
         Analysis.PredsDone, EdgeInto, Mapped, Chained, EntryOf, RefusedAt, OptList;
    var g, b := an.g, an.levels[l][i];
    g', exit, oval, p := g0, exit0, oval0, p0;
    an.NextIsReady(done, l, i);
    NotYet(an, done, l, i);
    PassReady(an, c, p, done, l, i, inEdges);
    MaxStmtsAdd(g, done, b, |g|);
    MaxStmtsMono(g, g, done + {b}, an.reached, |g|);
    var en := MergeIn(inEdges[b], exit, vt.table);
    MergedIsEntry(c, p, b, inEdges[b], en);
    var b', ex, ov;
    ok, b', ex, ov := OptBlk(vt, g[b], en, alter, outUse[b]);
    if !ok {
      WhyNot(p.t, g[b], en, alter);
      p := p.(entry := p.entry[b := en]);
      StillPassing(c, p0, done, b, en);
      return;
    }
    PassStep(c, p, done, b, b', vt.table, en, ex, ov);
    g', exit, oval := g'[b := b'], exit[b := ex], oval[b := ov];
    p := Advance(p, b, b', vt.table, en, ex, ov);
  }

  lemma WhyNot(before: seq<Node>, b: Block, entry: seq<nat>, alter: bool)
    requires WellNumbered(before) && InTable(before, entry) && GoodList(b.stmts) && !Finishes(before, b, entry, alter)
    ensures || (exists i :: 0 <= i < |b.stmts| && RefusedAt(before, b.stmts, entry, alter, i))
            || (!alter && b.Leaf? && b.stmts != [])
  {
    hide OptList, RefusedAt, WellNumbered;
    OptListFails(before, b.stmts, entry, alter);
  }

  lemma StillPassing(c: Setting, p: PassState, done: set<nat>, b: nat, en: seq<nat>)
    requires Passing(c, p, done) && b < |c.g| && b !in done && EntryOf(c, p, b, en)
    ensures var p' := p.(entry := p.entry[b := en]); Passing(c, p', done) && EntryOf(c, p', b, en)
  {
    hide BlockNumbered, EdgeInto, Live, EntryOf;
    var p' := p.(entry := p.entry[b := en]);
    forall d, e: nat | EdgeInto(c.g, c.reached, e, d)
      ensures 0 <= Analysis.EdgeSource(|c.g|, e) < |c.g|
    {
      EdgeSourceExists(c.g, c.reached, e, d);
    }
    SameEntry(c, p, p', b, en);
    forall d | d in done && d < |c.g|
      ensures PassedAt(c, p', d)
    {
      assert PassedAt(c, p, d);
      SameEntry(c, p, p', d, p.entry[d]);
    }
  }

  /**
   * The first loop of opt_blks. Either every reachable block is processed, or the pass stops at a
   * block that has a refused statement. The table never outgrows the `maxval` entries opt_init
   * allocates: every call of F in the pass is made with room to spare.
   */
  method OptBlks(an: Analysis.Analyzer, outUse: seq<set<nat>>, maxval: nat, alter: bool)
    returns (ok: bool, g': Graph, vt: ValueTable, exit: seq<seq<nat>>, oval: seq<nat>, ghost p: PassState)
    requires an.Leveled() && GoodGraph(an.g) && |outUse| == |an.g| && maxval >= 3 * MaxStmts(an.g, an.reached, |an.g|)
    ensures fresh(vt) && vt.Valid() && vt.maxval == maxval && vt.curval < maxval
    ensures var c := Setting(an.g, an.reached, outUse, alter);
            if ok then Passing(c, p, an.reached) && p.g == g' && p.exit == exit && p.oval == oval && p.t == vt.table
            else exists done, b :: Refusal(c, p, done, b)
  {
    hide Analysis.LevelLists, Analysis.LevelOf, WellNumbered, Distinct, AllFiled, Passing, BlockNumbered, Live,
         Analysis.PredsDone, Refusal, Mapped, Chained;
    var g := an.g;
    ghost var c := Setting(g, an.reached, outUse, alter);
    Analysis.LevelListFacts(g, an.rank, an.level, an.levels, an.reached);
    MaxStmtsAdd(g, {}, an.root, |g|);
    MaxStmtsMono(g, g, {} + {an.root}, an.reached, |g|);
    vt := new ValueTable(maxval);
    var inEdges := FindInedges(an);
    g', ok := g, true;
    exit, oval := seq(|g|, _ => seq(N_ATOMS, _ => UNKNOWN)), seq(|g|, _ => UNKNOWN);
    p := PassState(g, [], exit, exit, oval, seq(|g|, _ => []));
    ghost var done: set<nat> := {};
    StartPass(c, p);
    var l := an.level[an.root];
    while l >= 0
      invariant -1 <= l < |g| && an.DoneIs(done, l, 0) && vt.Valid() && fresh(vt) && vt.maxval == maxval && ok
      invariant Passing(c, p, done) && p.g == g' && p.exit == exit && p.oval == oval && p.t == vt.table
      invariant vt.curval <= 3 * MaxStmts(g, done, |g|)
    {
      var i := 0;
      while i < |an.levels[l]|
        invariant 0 <= i <= |an.levels[l]| && an.DoneIs(done, l, i) && vt.Valid() && fresh(vt) && vt.maxval == maxval && ok
        invariant Passing(c, p, done) && p.g == g' && p.exit == exit && p.oval == oval && p.t == vt.table
        invariant vt.curval <= 3 * MaxStmts(g, done, |g|)
      {
        var b := an.levels[l][i];
        an.NextIsReady(done, l, i);
        ok, g', exit, oval, p := PassBlock(an, vt, inEdges, alter, outUse, c, p, done, l, i, g', exit, oval);
        if !ok { return; }
        done := done + {b};
        i := i + 1;
      }
      an.LevelFinished(done, l);
      l := l - 1;
    }
    assert done == an.reached;
  }
}
