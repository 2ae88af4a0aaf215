/**
 * Value numbering and the statement rewrites based on it: F, vstore, fold_op and
 * opt_stmt of optimize.c, as functions on the table of numbered values.
 */
module ValueNumbers {
  import opened Words
  import opened Bpf
  import opened Cfg
  import opened Liveness
  import Analysis

  /** An entry of the value table; the entry at index i has value number i + 1. */
  datatype Node = Node(op: Op, v0: nat, v1: nat)

  /** VAL_UNKNOWN. */
  const UNKNOWN: nat := 0

  /** Position of the first entry equal to `n`, or the length of the table. */
  function Find(t: seq<Node>, n: Node): (i: nat)
    ensures i <= |t| && (i < |t| ==> t[i] == n) && (i == |t| <==> n !in t)
  {
    if t == [] then 0 else if t[0] == n then 0 else 1 + Find(t[1..], n)
  }

  /** The number F hands back, and the table it leaves. */
  function Number(t: seq<Node>, n: Node): nat { Find(t, n) + 1 }

  function Enter(t: seq<Node>, n: Node): (r: seq<Node>)
    ensures t <= r && |r| <= |t| + 1 && Number(t, n) <= |r| && r[Number(t, n) - 1] == n
  {
    if n in t then t else t + [n]
  }

  /** vmap: the constant a number is known to stand for. */
  function ConstOf(t: seq<Node>, v: nat): Option<u32> {
    if 1 <= v <= |t| && t[v - 1].op == LdImm then Some(Wrap(t[v - 1].v0)) else None
  }

  /** Constants are numbered through the load-immediate opcode. */
  function ConstNode(k: u32): Node { Node(LdImm, k, 0) }

  lemma {:induction false} FindStays(t: seq<Node>, u: seq<Node>, n: Node)
    requires t <= u && n in t
    ensures Find(u, n) == Find(t, n)
    decreases |t|
  {
    if t[0] != n {
      assert t[1..] <= u[1..];
      FindStays(t[1..], u[1..], n);
    }
  }

  lemma {:induction false} FindEntered(t: seq<Node>, n: Node)
    ensures Find(Enter(t, n), n) == Find(t, n) && n in Enter(t, n)
    decreases |t|
  {
    if n !in t {
      if t == [] {
        assert [] + [n] == [n];
      } else {
        assert (t + [n])[1..] == t[1..] + [n];
        FindEntered(t[1..], n);
      }
    }
  }

  /** A number is the same at whatever stage of the table it is asked for. */
  lemma NumberIs(t: seq<Node>, u: seq<Node>, n: Node)
    requires Enter(t, n) <= u
    ensures Number(t, n) == Number(u, n)
  {
    hide Find;
    FindEntered(t, n);
    FindStays(Enter(t, n), u, n);
  }

  /** An entry keeps its number in every table that goes on from the one it was found in. */
  lemma NumberStays(t: seq<Node>, u: seq<Node>, n: Node)
    requires t <= u && n in t
    ensures Number(u, n) == Number(t, n) && Enter(u, n) == u
  {
    hide Find;
    FindStays(t, u, n);
  }

  // ---------------------------------------------------------------------
  // What a number stands for
  // ---------------------------------------------------------------------

  function OrZero(v: Option<u32>): u32 { if v.Some? then v.value else 0 }

  /** The run-time value of an entry whose operand numbers stand for `a` and `b`. */
  function NodeValue(n: Node, env: Env, a: u32, b: u32): u32 {
    match n.op
    case LdAbs(s) => OrZero(Load(env.pkt, n.v0, s))
    case LdInd(s) => OrZero(Load(env.pkt, b + n.v0, s))
    case LdLen => env.wirelen
    case LdImm => Wrap(n.v0)
    case LdxMsh => if n.v0 < |env.pkt| then env.pkt[n.v0] % 16 * 4 else 0
    case Neg => Minus(0, a)
    case Alu(o, _) => OrZero(AluX(o, a, b))
    case _ => 0
  }

  /** Denotation of a value number for one packet. */
  function Den(t: seq<Node>, env: Env, v: nat): u32
    decreases v
  {
    if v == 0 || v > |t| then 0
    else
      var n := t[v - 1];
      NodeValue(n, env, if n.v0 < v then Den(t, env, n.v0) else 0, if n.v1 < v then Den(t, env, n.v1) else 0)
  }

  /** The operand numbers of an entry are below `v`. */
  predicate OperandsBelow(n: Node, v: nat) {
    && (n.op.Neg? || n.op.Alu? ==> n.v0 < v)
    && (n.op.LdInd? || n.op.Alu? ==> n.v1 < v)
  }

  predicate WellNumbered(t: seq<Node>) { forall i :: 0 <= i < |t| ==> OperandsBelow(t[i], i + 1) }

  lemma EnterWellNumbered(t: seq<Node>, n: Node)
    requires WellNumbered(t) && OperandsBelow(n, |t| + 1)
    ensures WellNumbered(Enter(t, n))
  {
  }

  lemma {:induction false} DenPrefix(t: seq<Node>, t': seq<Node>, env: Env, v: nat)
    requires t <= t' && v <= |t|
    ensures Den(t', env, v) == Den(t, env, v)
    decreases v
  {
    hide NodeValue;
    if v > 0 {
      var n := t[v - 1];
      assert t'[v - 1] == n;
      if n.v0 < v { DenPrefix(t, t', env, n.v0); }
      if n.v1 < v { DenPrefix(t, t', env, n.v1); }
    }
  }

  lemma ArgsMatter(n: Node, env: Env, a: u32, b: u32, a': u32, b': u32)
    requires n.op.Neg? || n.op.Alu? ==> a == a'
    requires n.op.LdInd? || n.op.Alu? ==> b == b'
    ensures NodeValue(n, env, a, b) == NodeValue(n, env, a', b')
  {
    hide AluX, Load;
  }

  /** The number F returns stands for the entry's value, whether the entry is new or was found. */
  lemma DenNumber(t: seq<Node>, n: Node, env: Env)
    requires WellNumbered(t) && OperandsBelow(n, |t| + 1)
    ensures Den(Enter(t, n), env, Number(t, n)) == NodeValue(n, env, Den(t, env, n.v0), Den(t, env, n.v1))
  {
    hide NodeValue;
    var t', v := Enter(t, n), Number(t, n);
    EnterWellNumbered(t, n);
    assert OperandsBelow(t'[v - 1], v);
    var a := if n.v0 < v then Den(t', env, n.v0) else 0;
    var b := if n.v1 < v then Den(t', env, n.v1) else 0;
    assert Den(t', env, v) == NodeValue(n, env, a, b);
    if n.v0 <= |t| { DenPrefix(t, t', env, n.v0); }
    if n.v1 <= |t| { DenPrefix(t, t', env, n.v1); }
    ArgsMatter(n, env, a, b, Den(t, env, n.v0), Den(t, env, n.v1));
  }

  /** A number marked constant stands for that constant, for every packet. */
  lemma ConstDen(t: seq<Node>, env: Env, v: nat)
    ensures ConstOf(t, v).Some? ==> Den(t, env, v) == ConstOf(t, v).value
  {
  }

  // ---------------------------------------------------------------------
  // opt_stmt
  // ---------------------------------------------------------------------

  datatype Numbered = Done(t: seq<Node>, s: Stmt, val: seq<nat>) | Failed

  /** vstore. */
  function Vstore(t: seq<Node>, s: Stmt, val: seq<nat>, atom: nat, v: nat, alter: bool): (r: Numbered)
    requires atom < |val|
    ensures r.Done? && r.val == val[atom := v] && (!alter ==> r.s == s) && (r.s == s || r.s == s.(op := Nop))
  {
    if alter && v != UNKNOWN && val[atom] == v then Done(t, s.(op := Nop), val)
    else Done(t, s, val[atom := v])
  }

  /** Number an entry and vstore it. */
  function StoreNew(t: seq<Node>, s: Stmt, val: seq<nat>, atom: nat, n: Node, alter: bool): (r: Numbered)
    requires atom < |val|
    ensures r.Done? && r.val == val[atom := Number(t, n)] && (!alter ==> r.s == s) && (r.s == s || r.s == s.(op := Nop))
  {
    Vstore(Enter(t, n), s, val, atom, Number(t, n), alter)
  }

  /** Number an entry and assign it to the accumulator outright. */
  function SetNew(t: seq<Node>, s: Stmt, val: seq<nat>, n: Node): (r: Numbered)
    requires |val| == N_ATOMS
    ensures r.Done? && r.val == val[A_ATOM := Number(t, n)] && r.s == s
  {
    Done(Enter(t, n), s, val[A_ATOM := Number(t, n)])
  }

  function Fold(t: seq<Node>, val: seq<nat>, k: u32): (r: Numbered)
    requires |val| == N_ATOMS
    ensures r.Done? && r.val == val[A_ATOM := Number(t, ConstNode(k))] && r.s == Stmt(LdImm, k)
  {
    SetNew(t, Stmt(LdImm, k), val, ConstNode(k))
  }

  /** fold_op; `None` is its error exit. */
  function FoldOp(o: AluOp, a: u32, b: u32): Option<u32> { AluX(o, a, b) }

  function OptAluK(t: seq<Node>, o: AluOp, k: u32, val: seq<nat>, alter: bool): Numbered
    requires |val| == N_ATOMS
  {
    var s, c := Stmt(Alu(o, K), k), ConstOf(t, val[A_ATOM]);
    var t1, kv := Enter(t, ConstNode(k)), Number(t, ConstNode(k));
    if alter && k == 0 && (o == Add || o == Lsh || o == Rsh || o == Or || o == Xor) then Done(t, s.(op := Nop), val)
    else if alter && k == 0 && (o == Mul || o == And) then Fold(t, val, 0)
    else if alter && k == 0 && (o == Div || o == Mod) then Failed
    else if alter && c.Some? then
      match FoldOp(o, c.value, k) case Some(v) => Fold(t1, val, v) case None => Failed
    else SetNew(t1, s, val, Node(s.op, val[A_ATOM], kv))
  }

  function OptAluX(t: seq<Node>, o: AluOp, k: u32, val: seq<nat>, alter: bool): Numbered
    requires |val| == N_ATOMS
  {
    var s, ca, cx := Stmt(Alu(o, X), k), ConstOf(t, val[A_ATOM]), ConstOf(t, val[X_ATOM]);
    if alter && cx.Some? then
      if ca.Some? then
        match FoldOp(o, ca.value, cx.value) case Some(v) => Fold(t, val, v) case None => Failed
      else if (o == Lsh || o == Rsh) && cx.value > 31 then Failed
      else
        SetNew(Enter(t, ConstNode(cx.value)), Stmt(Alu(o, K), cx.value), val,
               Node(Alu(o, K), val[A_ATOM], Number(t, ConstNode(cx.value))))
    else if alter && ca == Some(0) && (o == Add || o == Or || o == Xor) then
      Vstore(t, Stmt(Txa, k), val, A_ATOM, val[X_ATOM], alter)
    else if alter && ca == Some(0) && o != Sub then
      StoreNew(t, Stmt(LdImm, 0), val, A_ATOM, ConstNode(0), alter)
    else SetNew(t, s, val, Node(s.op, val[A_ATOM], val[X_ATOM]))
  }

  /** opt_stmt. The opcode `ldx len` is missing from its switch. */
  function OptStmt(t: seq<Node>, s: Stmt, val: seq<nat>, alter: bool): Numbered
    requires |val| == N_ATOMS && GoodStmt(s)
  {
    match s.op
    case LdAbs(_) => StoreNew(t, s, val, A_ATOM, Node(s.op, s.k, 0), alter)
    case LdInd(size) =>
      var c := ConstOf(t, val[X_ATOM]);
      if alter && c.Some? then
        StoreNew(t, Stmt(LdAbs(size), Plus(s.k, c.value)), val, A_ATOM,
                 Node(LdAbs(size), Plus(s.k, c.value), 0), alter)
      else StoreNew(t, s, val, A_ATOM, Node(s.op, s.k, val[X_ATOM]), alter)
    case LdLen => StoreNew(t, s, val, A_ATOM, Node(LdLen, 0, 0), alter)
    case LdImm => StoreNew(t, s, val, A_ATOM, ConstNode(s.k), alter)
    case LdxImm => StoreNew(t, s, val, X_ATOM, ConstNode(s.k), alter)
    case LdxMsh => StoreNew(t, s, val, X_ATOM, Node(LdxMsh, s.k, 0), alter)
    case Neg =>
      var c := ConstOf(t, val[A_ATOM]);
      if alter && c.Some? then Fold(t, val, Minus(0, c.value))
      else SetNew(t, s, val, Node(Neg, val[A_ATOM], 0))
    case Alu(o, K) => OptAluK(t, o, s.k, val, alter)
    case Alu(o, X) => OptAluX(t, o, s.k, val, alter)
    case Txa => Vstore(t, s, val, A_ATOM, val[X_ATOM], alter)
    case Tax => Vstore(t, s, val, X_ATOM, val[A_ATOM], alter)
    case LdMem =>
      var c := ConstOf(t, val[s.k]);
      Vstore(t, if alter && c.Some? then Stmt(LdImm, c.value) else s, val, A_ATOM, val[s.k], alter)
    case LdxMem =>
      var c := ConstOf(t, val[s.k]);
      Vstore(t, if alter && c.Some? then Stmt(LdxImm, c.value) else s, val, X_ATOM, val[s.k], alter)
    case St => Vstore(t, s, val, s.k, val[A_ATOM], alter)
    case Stx => Vstore(t, s, val, s.k, val[X_ATOM], alter)
    case _ => Done(t, s, val)
  }

  // ---------------------------------------------------------------------
  // Soundness of one statement
  // ---------------------------------------------------------------------

  /** Every number held for an atom names an entry of the table. */
  predicate InTable(t: seq<Node>, val: seq<nat>) {
    |val| == N_ATOMS && forall a :: 0 <= a < N_ATOMS ==> val[a] <= |t|
  }

  /** The known numbers of the atoms in `on` are right in state `st`. */
  ghost predicate Sound(t: seq<Node>, env: Env, val: seq<nat>, st: State, on: set<nat>)
    requires |val| == N_ATOMS
  {
    forall a :: a in on && 0 <= a < N_ATOMS && val[a] != UNKNOWN ==> AtomValue(st, a) == Den(t, env, val[a])
  }

  ghost function AllAtoms(): set<nat> { Analysis.UpTo(N_ATOMS) }

  /** Atoms whose number becomes an operand of a table entry. */
  function Operands(s: Stmt): set<nat> {
    match s.op
    case LdInd(_) => {X_ATOM}
    case Alu(_, X) => {A_ATOM, X_ATOM}
    case Alu(_, K) => {A_ATOM}
    case Neg => {A_ATOM}
    case _ => {}
  }

  /** The statements opt_stmt numbers correctly: `ldx len` is not one. */
  predicate Handled(s: Stmt, val: seq<nat>)
    requires |val| == N_ATOMS
  {
    GoodStmt(s) && s.op != LdxLen && forall a :: a in Operands(s) ==> val[a] != UNKNOWN
  }

  function SetAtom(st: State, a: nat, w: u32): State {
    if a < MEMWORDS then st.(mem := st.mem[a := w]) else if a == A_ATOM then st.(a := w) else st.(x := w)
  }

  lemma SetAtomValue(st: State, a: nat, w: u32, c: nat)
    requires a < N_ATOMS && c < N_ATOMS
    ensures AtomValue(SetAtom(st, a, w), c) == if c == a then w else AtomValue(st, c)
    ensures SetAtom(st, a, AtomValue(st, a)) == st
  {
    if a < MEMWORDS {
      assert st.mem[a := st.mem[a]] == st.mem;
    }
  }

  lemma SoundAt(t: seq<Node>, env: Env, val: seq<nat>, st: State, on: set<nat>, a: nat)
    requires |val| == N_ATOMS && Sound(t, env, val, st, on) && a in on && a < N_ATOMS && val[a] != UNKNOWN
    ensures AtomValue(st, a) == Den(t, env, val[a])
  {
  }

  lemma SoundPrefix(t: seq<Node>, t': seq<Node>, env: Env, val: seq<nat>, st: State, on: set<nat>)
    requires InTable(t, val) && t <= t'
    ensures Sound(t', env, val, st, on) <==> Sound(t, env, val, st, on)
  {
    hide Den;
    forall a | 0 <= a < N_ATOMS
      ensures Den(t, env, val[a]) == Den(t', env, val[a])
    {
      DenPrefix(t, t', env, val[a]);
    }
  }

  /** Assigning a number to the atom a statement defines. */
  lemma AssignSound(t: seq<Node>, env: Env, val: seq<nat>, st: State, on: set<nat>, atom: nat, v: nat, w: u32)
    requires InTable(t, val) && atom < N_ATOMS && Sound(t, env, val, st, on)
    requires v != UNKNOWN ==> w == Den(t, env, v)
    ensures Sound(t, env, val[atom := v], SetAtom(st, atom, w), on + {atom})
  {
    hide Den;
    forall a | a in on + {atom} && 0 <= a < N_ATOMS && val[atom := v][a] != UNKNOWN
      ensures AtomValue(SetAtom(st, atom, w), a) == Den(t, env, val[atom := v][a])
    {
      SetAtomValue(st, atom, w, a);
    }
  }

  /** The statement is correctly rewritten to `r.s` and numbered by `r.val`. */
  ghost predicate Right(r: Numbered, s: Stmt, env: Env, st: State, on: set<nat>)
    requires Exec(s.op, s.k, env, st).Next? && r.Done? && |r.val| == N_ATOMS
  {
    var st' := Exec(s.op, s.k, env, st).st;
    Exec(r.s.op, r.s.k, env, st) == Next(st') && Sound(r.t, env, r.val, st', on)
  }

  lemma VstoreRight(t: seq<Node>, s: Stmt, s': Stmt, val: seq<nat>, atom: nat, v: nat, alter: bool,
                    env: Env, st: State, on: set<nat>, w: u32)
    requires InTable(t, val) && atom < N_ATOMS && Sound(t, env, val, st, on) && (alter ==> atom in on)
    requires Exec(s.op, s.k, env, st) == Next(SetAtom(st, atom, w)) == Exec(s'.op, s'.k, env, st)
    requires v != UNKNOWN ==> w == Den(t, env, v)
    ensures Right(Vstore(t, s', val, atom, v, alter), s, env, st, on + {atom})
  {
    hide Den, Exec;
    AssignSound(t, env, val, st, on, atom, v, w);
    SetAtomValue(st, atom, w, atom);
    NopSkips(s'.(op := Nop), env, st);
    if alter && v != UNKNOWN && val[atom] == v {
      assert AtomValue(st, atom) == w;
      assert SetAtom(st, atom, w) == st;
    }
  }

  lemma StoreNewRight(t: seq<Node>, s: Stmt, s': Stmt, val: seq<nat>, atom: nat, n: Node, alter: bool,
                      env: Env, st: State, on: set<nat>, w: u32)
    requires WellNumbered(t) && InTable(t, val) && OperandsBelow(n, |t| + 1)
    requires atom < N_ATOMS && Sound(t, env, val, st, on) && (alter ==> atom in on)
    requires Exec(s.op, s.k, env, st) == Next(SetAtom(st, atom, w)) == Exec(s'.op, s'.k, env, st)
    requires w == NodeValue(n, env, Den(t, env, n.v0), Den(t, env, n.v1))
    ensures Right(StoreNew(t, s', val, atom, n, alter), s, env, st, on + {atom})
  {
    hide Den, NodeValue, Exec;
    DenNumber(t, n, env);
    SoundPrefix(t, Enter(t, n), env, val, st, on);
    VstoreRight(Enter(t, n), s, s', val, atom, Number(t, n), alter, env, st, on, w);
  }

  lemma SetNewRight(t: seq<Node>, s: Stmt, s': Stmt, val: seq<nat>, n: Node,
                    env: Env, st: State, on: set<nat>, w: u32)
    requires WellNumbered(t) && InTable(t, val) && OperandsBelow(n, |t| + 1) && Sound(t, env, val, st, on)
    requires Exec(s.op, s.k, env, st) == Next(SetAtom(st, A_ATOM, w)) == Exec(s'.op, s'.k, env, st)
    requires w == NodeValue(n, env, Den(t, env, n.v0), Den(t, env, n.v1))
    ensures Right(SetNew(t, s', val, n), s, env, st, on + {A_ATOM})
  {
    hide Den, NodeValue, Exec;
    DenNumber(t, n, env);
    SoundPrefix(t, Enter(t, n), env, val, st, on);
    AssignSound(Enter(t, n), env, val, st, on, A_ATOM, Number(t, n), w);
  }

  // Identities behind the rules for a zero operand.

  lemma ZeroRight(o: AluOp, a: u32)
    requires o == Add || o == Lsh || o == Rsh || o == Or || o == Xor
    ensures AluX(o, a, 0) == Some(a)
  {
    hide BitOr, BitXor, BitAnd, ShiftLeft, ShiftRight;
    BitsZero(a);
  }

  lemma ZeroAbsorbs(o: AluOp, a: u32)
    requires o == Mul || o == And
    ensures AluX(o, a, 0) == Some(0)
  {
    hide BitOr, BitXor, BitAnd, ShiftLeft, ShiftRight;
    BitsZero(a);
  }

  lemma ZeroLeft(o: AluOp, b: u32)
    requires AluX(o, 0, b).Some?
    ensures o == Add || o == Or || o == Xor ==> AluX(o, 0, b) == Some(b)
    ensures o != Add && o != Or && o != Xor && o != Sub ==> AluX(o, 0, b) == Some(0)
  {
    hide BitOr, BitXor, BitAnd, ShiftLeft, ShiftRight;
    BitsZero(b);
    if o == Div {
      QuotientBound(0, b);
    } else if o == Lsh || o == Rsh {
      ZeroShift(b);
    }
  }

  lemma BitsZero(a: u32)
    ensures BitOr(a, 0) == a == BitOr(0, a) && BitXor(a, 0) == a == BitXor(0, a)
    ensures BitAnd(a, 0) == 0 == BitAnd(0, a)
    ensures ShiftLeft(a, 0) == a == ShiftRight(a, 0)
  {
    hide Word, Value, AndW, OrW, XorW, ShlW, ShrW;
    WordValue(a);
    ZeroWord();
    WordZero(Word(a));
  }

  lemma ZeroWord()
    ensures Word(0) == 0 && Value(0) == 0
  {
  }

  lemma WordZero(x: bv32)
    ensures OrW(x, 0) == x == OrW(0, x) && XorW(x, 0) == x == XorW(0, x) && AndW(x, 0) == 0 == AndW(0, x)
    ensures ShlW(x, 0) == x == ShrW(x, 0)
  {
  }

  lemma ZeroShift(n: u32)
    ensures n < 32 ==> ShiftLeft(0, n) == 0 == ShiftRight(0, n)
  {
    hide Word, Value, ShlW, ShrW;
    if n < 32 {
      ZeroWord();
      SmallWord(n);
      NothingShifts(Word(n));
    }
  }

  lemma NothingShifts(n: bv32)
    requires n < 32
    ensures ShlW(0, n) == 0 == ShrW(0, n)
  {
  }

  /** An ALU statement that does not reject sets A to the operator's value. */
  lemma AluExec(o: AluOp, src: Src, k: u32, env: Env, st: State)
    requires Exec(Alu(o, src), k, env, st).Next?
    ensures var v := AluX(o, st.a, if src == X then st.x else k);
            v.Some? && Exec(Alu(o, src), k, env, st) == Next(SetAtom(st, A_ATOM, v.value))
  {
    hide AluX;
  }

  lemma ImmExec(k: u32, env: Env, st: State)
    ensures Exec(LdImm, k, env, st) == Next(SetAtom(st, A_ATOM, k))
    ensures Exec(LdxImm, k, env, st) == Next(SetAtom(st, X_ATOM, k))
  {
  }

  lemma FoldRight(t: seq<Node>, s: Stmt, val: seq<nat>, k: u32, env: Env, st: State, on: set<nat>)
    requires WellNumbered(t) && InTable(t, val) && Sound(t, env, val, st, on)
    requires Exec(s.op, s.k, env, st) == Next(SetAtom(st, A_ATOM, k))
    ensures Right(Fold(t, val, k), s, env, st, on + {A_ATOM})
  {
    hide Den, Exec, AluX;
    ImmExec(k, env, st);
    SetNewRight(t, s, Stmt(LdImm, k), val, ConstNode(k), env, st, on, k);
  }

  /** Numbering the constant first and then the operation on it. */
  lemma AluConstRight(t: seq<Node>, s: Stmt, o: AluOp, k: u32, val: seq<nat>, env: Env, st: State, on: set<nat>)
    requires WellNumbered(t) && InTable(t, val) && Sound(t, env, val, st, on)
    requires A_ATOM in on && val[A_ATOM] != UNKNOWN && GoodConstant(o, k)
    requires AluX(o, st.a, k).Some? && Exec(s.op, s.k, env, st) == Next(SetAtom(st, A_ATOM, AluX(o, st.a, k).value))
    ensures Right(SetNew(Enter(t, ConstNode(k)), Stmt(Alu(o, K), k), val,
                         Node(Alu(o, K), val[A_ATOM], Number(t, ConstNode(k)))), s, env, st, on + {A_ATOM})
  {
    hide Den, AluX;
    var t1, n := Enter(t, ConstNode(k)), Node(Alu(o, K), val[A_ATOM], Number(t, ConstNode(k)));
    EnterWellNumbered(t, ConstNode(k));
    DenNumber(t, ConstNode(k), env);
    SoundPrefix(t, t1, env, val, st, on);
    assert AtomValue(st, A_ATOM) == Den(t1, env, val[A_ATOM]);
    SetNewRight(t1, s, Stmt(Alu(o, K), k), val, n, env, st, on, AluX(o, st.a, k).value);
  }

  lemma OptAluKRight(t: seq<Node>, o: AluOp, k: u32, val: seq<nat>, alter: bool, env: Env, st: State, on: set<nat>)
    requires WellNumbered(t) && InTable(t, val) && Sound(t, env, val, st, on)
    requires A_ATOM in on && val[A_ATOM] != UNKNOWN && GoodConstant(o, k)
    requires Exec(Alu(o, K), k, env, st).Next? && OptAluK(t, o, k, val, alter).Done?
    ensures Right(OptAluK(t, o, k, val, alter), Stmt(Alu(o, K), k), env, st, on + {A_ATOM})
  {
    hide Den, AluX, Exec, Enter, Number, SetNew, Fold;
    var s, c, t1 := Stmt(Alu(o, K), k), ConstOf(t, val[A_ATOM]), Enter(t, ConstNode(k));
    AluExec(o, K, k, env, st);
    var r := OptAluK(t, o, k, val, alter);
    ConstDen(t, env, val[A_ATOM]);
    assert AtomValue(st, A_ATOM) == Den(t, env, val[A_ATOM]);
    if alter && k == 0 && (o == Add || o == Lsh || o == Rsh || o == Or || o == Xor) {
      ZeroRight(o, st.a);
      NopSkips(r.s, env, st);
      assert SetAtom(st, A_ATOM, st.a) == st;
    } else if alter && k == 0 && (o == Mul || o == And) {
      ZeroAbsorbs(o, st.a);
      FoldRight(t, s, val, 0, env, st, on);
    } else if alter && c.Some? {
      EnterGrows(t, ConstNode(k));
      EnterWellNumbered(t, ConstNode(k));
      SoundPrefix(t, t1, env, val, st, on);
      FoldRight(t1, s, val, FoldOp(o, c.value, k).value, env, st, on);
    } else {
      AluConstRight(t, s, o, k, val, env, st, on);
    }
  }

  lemma EnterGrows(t: seq<Node>, n: Node)
    ensures t <= Enter(t, n) && |Enter(t, n)| <= |t| + 1
  {
  }

  lemma OptAluXRight(t: seq<Node>, o: AluOp, k: u32, val: seq<nat>, alter: bool, env: Env, st: State, on: set<nat>)
    requires WellNumbered(t) && InTable(t, val) && Sound(t, env, val, st, on)
    requires A_ATOM in on && val[A_ATOM] != UNKNOWN && X_ATOM in on && val[X_ATOM] != UNKNOWN
    requires Exec(Alu(o, X), k, env, st).Next? && OptAluX(t, o, k, val, alter).Done?
    ensures Right(OptAluX(t, o, k, val, alter), Stmt(Alu(o, X), k), env, st, on + {A_ATOM})
  {
    hide Den, AluX, Exec, Enter, Number, SetNew, Fold, Vstore, StoreNew;
    var s, ca, cx := Stmt(Alu(o, X), k), ConstOf(t, val[A_ATOM]), ConstOf(t, val[X_ATOM]);
    AluExec(o, X, k, env, st);
    var w := AluX(o, st.a, st.x).value;
    ConstDen(t, env, val[A_ATOM]);
    ConstDen(t, env, val[X_ATOM]);
    assert AtomValue(st, A_ATOM) == Den(t, env, val[A_ATOM]);
    assert AtomValue(st, X_ATOM) == Den(t, env, val[X_ATOM]);
    if alter && cx.Some? {
      if ca.Some? {
        FoldRight(t, s, val, w, env, st, on);
      } else {
        DivisorNotZero(o, st.a, st.x);
        AluConstRight(t, s, o, cx.value, val, env, st, on);
      }
    } else if alter && ca == Some(0) && (o == Add || o == Or || o == Xor) {
      ZeroLeft(o, st.x);
      TxaExec(k, env, st);
      VstoreRight(t, s, Stmt(Txa, k), val, A_ATOM, val[X_ATOM], alter, env, st, on, w);
    } else if alter && ca == Some(0) && o != Sub {
      ZeroLeft(o, st.x);
      ImmExec(0, env, st);
      StoreNewRight(t, s, Stmt(LdImm, 0), val, A_ATOM, ConstNode(0), alter, env, st, on, 0);
    } else {
      SetNewRight(t, s, s, val, Node(s.op, val[A_ATOM], val[X_ATOM]), env, st, on, w);
    }
  }

  lemma TxaExec(k: u32, env: Env, st: State)
    ensures Exec(Txa, k, env, st) == Next(SetAtom(st, A_ATOM, st.x))
  {
  }

  lemma DivisorNotZero(o: AluOp, a: u32, b: u32)
    requires AluX(o, a, b).Some? && !((o == Lsh || o == Rsh) && b > 31)
    ensures GoodConstant(o, b)
  {
  }

  /** The value a non-rejecting simple load or copy gives to the atom it defines. */
  function Loaded(s: Stmt, env: Env, st: State): u32
    requires GoodStmt(s)
  {
    match s.op
    case LdAbs(size) => OrZero(Load(env.pkt, s.k, size))
    case LdInd(size) => OrZero(Load(env.pkt, st.x + s.k, size))
    case LdLen => env.wirelen
    case LdImm => s.k
    case LdxImm => s.k
    case LdxMsh => if s.k < |env.pkt| then env.pkt[s.k] % 16 * 4 else 0
    case Neg => Minus(0, st.a)
    case Txa => st.x
    case Tax => st.a
    case LdMem => st.mem[s.k]
    case LdxMem => st.mem[s.k]
    case St => st.a
    case Stx => st.x
    case _ => 0
  }

  lemma LoadExec(s: Stmt, env: Env, st: State)
    requires GoodStmt(s) && Exec(s.op, s.k, env, st).Next? && !s.op.Alu? && s.op != LdxLen && s.op != Nop
    ensures Defs(s).Some? && Defs(s).value < N_ATOMS
    ensures Exec(s.op, s.k, env, st) == Next(SetAtom(st, Defs(s).value, Loaded(s, env, st)))
  {
    hide Load;
  }

  /** An indexed load from a known index is the absolute load at the sum, which cannot wrap. */
  lemma IndIsAbs(size: Size, k: u32, env: Env, st: State)
    requires Exec(LdInd(size), k, env, st).Next?
    ensures Exec(LdAbs(size), Plus(k, st.x), env, st) == Exec(LdInd(size), k, env, st)
    ensures OrZero(Load(env.pkt, Plus(k, st.x), size)) == OrZero(Load(env.pkt, st.x + k, size))
  {
    assert st.x + k + Width(size) <= |env.pkt| by { LoadInside(env.pkt, st.x + k, size); }
    NoWrap(k, st.x);
    hide Load;
  }

  lemma LoadInside(p: Packet, off: nat, size: Size)
    requires Load(p, off, size).Some?
    ensures off + Width(size) <= |p|
  {
  }

  ghost predicate StmtReady(t: seq<Node>, s: Stmt, val: seq<nat>, alter: bool, on: set<nat>) {
    && WellNumbered(t) && InTable(t, val) && Handled(s, val)
    && Uses(s) <= on && (alter ==> AllAtoms() <= on)
  }

  lemma OptLoadRight(t: seq<Node>, s: Stmt, val: seq<nat>, alter: bool, env: Env, st: State, on: set<nat>)
    requires StmtReady(t, s, val, alter, on) && Sound(t, env, val, st, on)
    requires s.op.LdAbs? || s.op.LdInd? || s.op.LdLen? || s.op.LdImm? || s.op.LdxImm? || s.op.LdxMsh?
    requires Exec(s.op, s.k, env, st).Next?
    ensures OptStmt(t, s, val, alter).Done?
    ensures Right(OptStmt(t, s, val, alter), s, env, st, on + {Defs(s).value})
  {
    hide Den, Exec, Enter, Number, Vstore, StoreNew, Load, WellNumbered, Right, Sound, SetAtom;
    LoadExec(s, env, st);
    var w, atom := Loaded(s, env, st), Defs(s).value;
    if s.op.LdInd? {
      var c := ConstOf(t, val[X_ATOM]);
      ConstDen(t, env, val[X_ATOM]);
      SoundAt(t, env, val, st, on, X_ATOM);
      if alter && c.Some? {
        IndIsAbs(s.op.size, s.k, env, st);
        var s' := Stmt(LdAbs(s.op.size), Plus(s.k, c.value));
        StoreNewRight(t, s, s', val, A_ATOM, Node(s'.op, s'.k, 0), alter, env, st, on, w);
      } else {
        StoreNewRight(t, s, s, val, A_ATOM, Node(s.op, s.k, val[X_ATOM]), alter, env, st, on, w);
      }
    } else {
      var n := if s.op.LdLen? then Node(LdLen, 0, 0) else if s.op.LdxImm? then ConstNode(s.k) else Node(s.op, s.k, 0);
      StoreNewRight(t, s, s, val, atom, n, alter, env, st, on, w);
    }
  }

  lemma OptCopyRight(t: seq<Node>, s: Stmt, val: seq<nat>, alter: bool, env: Env, st: State, on: set<nat>)
    requires StmtReady(t, s, val, alter, on) && Sound(t, env, val, st, on)
    requires s.op.Txa? || s.op.Tax? || s.op.LdMem? || s.op.LdxMem? || s.op.St? || s.op.Stx?
    requires Exec(s.op, s.k, env, st).Next?
    ensures OptStmt(t, s, val, alter).Done?
    ensures Right(OptStmt(t, s, val, alter), s, env, st, on + {Defs(s).value})
  {
    hide Den, Exec, Vstore, WellNumbered, Right;
    LoadExec(s, env, st);
    var w, atom := Loaded(s, env, st), Defs(s).value;
    var from := if s.op.Txa? || s.op.Stx? then X_ATOM else if s.op.Tax? || s.op.St? then A_ATOM else s.k;
    var v := val[from];
    assert from in Uses(s) && AtomValue(st, from) == w;
    ConstDen(t, env, v);
    ImmExec(w, env, st);
    var c := ConstOf(t, v);
    var s' := if alter && c.Some? && s.op.LdMem? then Stmt(LdImm, c.value)
              else if alter && c.Some? && s.op.LdxMem? then Stmt(LdxImm, c.value) else s;
    VstoreRight(t, s, s', val, atom, v, alter, env, st, on, w);
  }

  lemma OptNegRight(t: seq<Node>, s: Stmt, val: seq<nat>, alter: bool, env: Env, st: State, on: set<nat>)
    requires StmtReady(t, s, val, alter, on) && Sound(t, env, val, st, on) && s.op.Neg?
    ensures Exec(s.op, s.k, env, st).Next? && OptStmt(t, s, val, alter).Done?
    ensures Right(OptStmt(t, s, val, alter), s, env, st, on + {A_ATOM})
  {
    hide Den, SetNew, Fold, WellNumbered, Right;
    LoadExec(s, env, st);
    ConstDen(t, env, val[A_ATOM]);
    assert AtomValue(st, A_ATOM) == Den(t, env, val[A_ATOM]);
    if alter && ConstOf(t, val[A_ATOM]).Some? {
      FoldRight(t, s, val, Minus(0, st.a), env, st, on);
    } else {
      SetNewRight(t, s, s, val, Node(Neg, val[A_ATOM], 0), env, st, on, Minus(0, st.a));
    }
  }

  /** The atoms whose numbers are right after a statement. */
  function After(s: Stmt, on: set<nat>): set<nat> { if Defs(s).Some? then on + {Defs(s).value} else on }

  /** opt_stmt: the rewritten statement has the same effect, and the new numbers are right. */
  lemma OptStmtRight(t: seq<Node>, s: Stmt, val: seq<nat>, alter: bool, env: Env, st: State, on: set<nat>)
    requires StmtReady(t, s, val, alter, on) && Sound(t, env, val, st, on)
    requires Exec(s.op, s.k, env, st).Next? && OptStmt(t, s, val, alter).Done?
    ensures |OptStmt(t, s, val, alter).val| == N_ATOMS
    ensures Right(OptStmt(t, s, val, alter), s, env, st, After(s, on))
  {
    hide Den, OptAluK, OptAluX, Right, WellNumbered, Exec, Enter, Number, Vstore, StoreNew, SetNew, Fold;
    OptStmtShape(t, s, val, alter);
    match s.op
    case Alu(o, K) =>
      OptAluKRight(t, o, s.k, val, alter, env, st, on);
    case Alu(o, X) =>
      OptAluXRight(t, o, s.k, val, alter, env, st, on);
    case Neg => OptNegRight(t, s, val, alter, env, st, on);
    case Nop =>
      NopSkips(s, env, st);
      KeepRight(t, s, val, env, st, on);
    case _ =>
      if s.op.Txa? || s.op.Tax? || s.op.LdMem? || s.op.LdxMem? || s.op.St? || s.op.Stx? {
        OptCopyRight(t, s, val, alter, env, st, on);
      } else {
        OptLoadRight(t, s, val, alter, env, st, on);
      }
  }

  lemma KeepRight(t: seq<Node>, s: Stmt, val: seq<nat>, env: Env, st: State, on: set<nat>)
    requires |val| == N_ATOMS && Sound(t, env, val, st, on) && Exec(s.op, s.k, env, st) == Next(st)
    ensures Right(Done(t, s, val), s, env, st, on)
  {
  }

  // ---------------------------------------------------------------------
  // The shape of the result, and how many entries a statement adds
  // ---------------------------------------------------------------------

  /** At most two new entries, none for a deleted statement. */
  function Cost(s: Stmt): nat { if s.op == Nop then 0 else 2 }

  ghost predicate Shape(t: seq<Node>, s: Stmt, val: seq<nat>, alter: bool, r: Numbered) {
    && Grown(t, r, Cost(s))
    && (s.op == Nop ==> r.s.op == Nop)
    && (!alter ==> r.s == s)
  }

  /** `r` is a proper result whose table extends `t` by at most `n` entries. */
  predicate Grown(t: seq<Node>, r: Numbered, n: nat) {
    r.Done? && WellNumbered(r.t) && InTable(r.t, r.val) && t <= r.t && |r.t| <= |t| + n
  }

  lemma StoreNewGrows(t: seq<Node>, s: Stmt, val: seq<nat>, atom: nat, n: Node, alter: bool)
    requires WellNumbered(t) && InTable(t, val) && OperandsBelow(n, |t| + 1) && atom < N_ATOMS
    ensures Grown(t, StoreNew(t, s, val, atom, n, alter), 1)
  {
    hide Number, WellNumbered;
    EnterWellNumbered(t, n);
  }

  lemma SetNewGrows(t: seq<Node>, s: Stmt, val: seq<nat>, n: Node)
    requires WellNumbered(t) && InTable(t, val) && OperandsBelow(n, |t| + 1)
    ensures Grown(t, SetNew(t, s, val, n), 1)
  {
    hide Number, WellNumbered;
    EnterWellNumbered(t, n);
  }

  /** Two new entries: a constant, then an entry over it. */
  lemma SetConstGrows(t: seq<Node>, k: u32, s: Stmt, val: seq<nat>, n: Node)
    requires WellNumbered(t) && InTable(t, val) && OperandsBelow(n, |Enter(t, ConstNode(k))| + 1)
    ensures Grown(t, SetNew(Enter(t, ConstNode(k)), s, val, n), 2)
  {
    hide Number, WellNumbered, SetNew;
    EnterWellNumbered(t, ConstNode(k));
    EnterGrows(t, ConstNode(k));
    SetNewGrows(Enter(t, ConstNode(k)), s, val, n);
  }

  lemma AluKGrows(t: seq<Node>, o: AluOp, k: u32, val: seq<nat>, alter: bool)
    requires WellNumbered(t) && InTable(t, val) && GoodConstant(o, k)
    ensures OptAluK(t, o, k, val, alter).Done? ==> Grown(t, OptAluK(t, o, k, val, alter), 2)
    ensures !alter ==> OptAluK(t, o, k, val, alter).Done? && OptAluK(t, o, k, val, alter).s == Stmt(Alu(o, K), k)
  {
    hide AluX, Number, WellNumbered, ConstOf;
    var r := OptAluK(t, o, k, val, alter);
    if r.Done? {
      SetNewGrows(t, Stmt(LdImm, 0), val, ConstNode(0));
      SetConstGrows(t, k, r.s, val, ConstNode(r.s.k));
      SetConstGrows(t, k, r.s, val, Node(Alu(o, K), val[A_ATOM], Number(t, ConstNode(k))));
    }
  }

  lemma AluXGrows(t: seq<Node>, o: AluOp, k: u32, val: seq<nat>, alter: bool)
    requires WellNumbered(t) && InTable(t, val)
    ensures OptAluX(t, o, k, val, alter).Done? ==> Grown(t, OptAluX(t, o, k, val, alter), 2)
    ensures !alter ==> OptAluX(t, o, k, val, alter).Done? && OptAluX(t, o, k, val, alter).s == Stmt(Alu(o, X), k)
  {
    hide AluX, Number, WellNumbered, Enter;
    var r := OptAluX(t, o, k, val, alter);
    var cx := ConstOf(t, val[X_ATOM]);
    if r.Done? {
      SetNewGrows(t, r.s, val, ConstNode(r.s.k));
      SetNewGrows(t, r.s, val, Node(Alu(o, X), val[A_ATOM], val[X_ATOM]));
      if cx.Some? {
        SetConstGrows(t, cx.value, r.s, val, Node(Alu(o, K), val[A_ATOM], Number(t, ConstNode(cx.value))));
      }
      StoreNewGrows(t, Stmt(LdImm, 0), val, A_ATOM, ConstNode(0), alter);
    }
  }

  lemma OptStmtShape(t: seq<Node>, s: Stmt, val: seq<nat>, alter: bool)
    requires WellNumbered(t) && InTable(t, val) && GoodStmt(s)
    ensures OptStmt(t, s, val, alter).Done? ==> Shape(t, s, val, alter, OptStmt(t, s, val, alter))
    ensures !alter ==> OptStmt(t, s, val, alter).Done?
  {
    hide Number, WellNumbered, Enter, OptAluK, OptAluX, StoreNew, SetNew;
    match s.op
    case Alu(o, K) => AluKGrows(t, o, s.k, val, alter);
    case Alu(o, X) => AluXGrows(t, o, s.k, val, alter);
    case Neg =>
      SetNewGrows(t, s, val, Node(Neg, val[A_ATOM], 0));
      var c := ConstOf(t, val[A_ATOM]);
      if c.Some? {
        SetNewGrows(t, Stmt(LdImm, Minus(0, c.value)), val, ConstNode(Minus(0, c.value)));
      }
    case LdInd(size) =>
      StoreNewGrows(t, s, val, A_ATOM, Node(s.op, s.k, val[X_ATOM]), alter);
      var c := ConstOf(t, val[X_ATOM]);
      if c.Some? {
        var s' := Stmt(LdAbs(size), Plus(s.k, c.value));
        StoreNewGrows(t, s', val, A_ATOM, Node(s'.op, s'.k, 0), alter);
      }
    case LdLen => StoreNewGrows(t, s, val, A_ATOM, Node(LdLen, 0, 0), alter);
    case LdxImm => StoreNewGrows(t, s, val, X_ATOM, ConstNode(s.k), alter);
    case LdxMsh => StoreNewGrows(t, s, val, X_ATOM, Node(LdxMsh, s.k, 0), alter);
    case LdAbs(_) => StoreNewGrows(t, s, val, A_ATOM, Node(s.op, s.k, 0), alter);
    case LdImm => StoreNewGrows(t, s, val, A_ATOM, Node(s.op, s.k, 0), alter);
    case _ =>
  }

  // ---------------------------------------------------------------------
  // Statement lists
  // ---------------------------------------------------------------------

  datatype NumberedList = DoneList(t: seq<Node>, ss: seq<Stmt>, val: seq<nat>) | FailedList

  /** opt_stmt on every statement of a block, in order. */
  function OptList(t: seq<Node>, ss: seq<Stmt>, val: seq<nat>, alter: bool): NumberedList
    requires WellNumbered(t) && InTable(t, val) && GoodList(ss)
    decreases |ss|
  {
    if ss == [] then DoneList(t, [], val)
    else
      OptStmtShape(t, ss[0], val, alter);
      match OptStmt(t, ss[0], val, alter)
      case Failed => FailedList
      case Done(t', s', val') =>
        match OptList(t', ss[1..], val', alter)
        case FailedList => FailedList
        case DoneList(t'', ss', val'') => DoneList(t'', [s'] + ss', val'')
  }

  /** Copies pass a number on, unknown or not; every other definition makes a fresh number. */
  predicate Copies(s: Stmt) {
    s.op == LdMem || s.op == LdxMem || s.op == St || s.op == Stx || s.op == Tax || s.op == Txa
  }

  function KnownAfter(s: Stmt, known: set<nat>): set<nat> {
    match Defs(s)
    case None => known
    case Some(d) => if Copies(s) && !(Uses(s) <= known) then known - {d} else known + {d}
  }

  /**
   * No statement of the list feeds an unknown number into a table entry, when the atoms in
   * `known` have known numbers on entry; and the list has no `ldx len`.
   */
  predicate OperandsKnown(ss: seq<Stmt>, known: set<nat>)
    decreases |ss|
  {
    ss == [] || (ss[0].op != LdxLen && Operands(ss[0]) <= known && OperandsKnown(ss[1..], KnownAfter(ss[0], known)))
  }

  ghost predicate AreKnown(val: seq<nat>, known: set<nat>)
    requires |val| == N_ATOMS
  {
    forall a :: a in known && 0 <= a < N_ATOMS ==> val[a] != UNKNOWN
  }

  lemma KnownStep(t: seq<Node>, s: Stmt, val: seq<nat>, alter: bool, known: set<nat>)
    requires WellNumbered(t) && InTable(t, val) && GoodStmt(s) && AreKnown(val, known)
    requires OptStmt(t, s, val, alter).Done? && s.op != LdxLen && Operands(s) <= known
    ensures |OptStmt(t, s, val, alter).val| == N_ATOMS && AreKnown(OptStmt(t, s, val, alter).val, KnownAfter(s, known))
  {
    hide AluX, Find, ConstOf, Enter, SetNew, StoreNew, Vstore, Fold, WellNumbered;
  }

  /**
   * Value numbering is sound over a list: on every run that does not reject, the rewritten list
   * leaves the same registers and scratch memory, and every known number is right.
   */
  lemma {:induction false} OptListRight(t: seq<Node>, ss: seq<Stmt>, val: seq<nat>, alter: bool, env: Env, st: State,
                                        on: set<nat>, known: set<nat>)
    requires WellNumbered(t) && InTable(t, val) && GoodList(ss) && Sound(t, env, val, st, on)
    requires AreKnown(val, known) && OperandsKnown(ss, known) && LiveIn(ss, {}) <= on && (alter ==> AllAtoms() <= on)
    requires ExecList(ss, env, st).Next? && OptList(t, ss, val, alter).DoneList?
    ensures var r, st' := OptList(t, ss, val, alter), ExecList(ss, env, st).st;
            && ExecList(r.ss, env, st) == Next(st')
            && |r.val| == N_ATOMS && Sound(r.t, env, r.val, st', DefinedAfter(ss, on))
            && AreKnown(r.val, KnownAtEnd(ss, known))
    decreases |ss|
  {
    hide Exec, OptStmt, Den, Sound, KnownAfter, WellNumbered, AreKnown, AllAtoms;
    if ss != [] {
      var s, rest := ss[0], ss[1..];
      assert GoodStmt(s);
      var r := OptStmt(t, s, val, alter);
      OptStmtShape(t, s, val, alter);
      HandledHere(s, val, known);
      assert StmtReady(t, s, val, alter, on);
      OptStmtRight(t, s, val, alter, env, st, on);
      KnownStep(t, s, val, alter, known);
      var r' := OptList(r.t, rest, r.val, alter);
      OptListRight(r.t, rest, r.val, alter, env, Exec(s.op, s.k, env, st).st, After(s, on), KnownAfter(s, known));
      assert ([r.s] + r'.ss)[1..] == r'.ss;
    }
  }

  /** The atoms of `on` and those the list defines. */
  function DefinedAfter(ss: seq<Stmt>, on: set<nat>): set<nat>
    decreases |ss|
  {
    if ss == [] then on else DefinedAfter(ss[1..], After(ss[0], on))
  }

  function KnownAtEnd(ss: seq<Stmt>, known: set<nat>): set<nat>
    decreases |ss|
  {
    if ss == [] then known else KnownAtEnd(ss[1..], KnownAfter(ss[0], known))
  }

  lemma HandledHere(s: Stmt, val: seq<nat>, known: set<nat>)
    requires |val| == N_ATOMS && GoodStmt(s) && s.op != LdxLen && Operands(s) <= known && AreKnown(val, known)
    ensures Handled(s, val)
  {
    forall a | a in Operands(s)
      ensures val[a] != UNKNOWN
    {
      assert a in known;
    }
  }

  /** The table only grows, by at most two entries for each statement that is not deleted. */
  lemma {:induction false} OptListShape(t: seq<Node>, ss: seq<Stmt>, val: seq<nat>, alter: bool)
    requires WellNumbered(t) && InTable(t, val) && GoodList(ss)
    ensures !alter ==> OptList(t, ss, val, alter).DoneList? && OptList(t, ss, val, alter).ss == ss
    ensures OptList(t, ss, val, alter).DoneList? ==>
              var r := OptList(t, ss, val, alter);
              && WellNumbered(r.t) && InTable(r.t, r.val) && t <= r.t && |r.t| <= |t| + 2 * |Live(ss)|
              && |r.ss| == |ss| && |Live(r.ss)| <= |Live(ss)|
    decreases |ss|
  {
    hide OptStmt, WellNumbered;
    if ss != [] {
      OptStmtShape(t, ss[0], val, alter);
      var r := OptStmt(t, ss[0], val, alter);
      if r.Done? {
        OptListShape(r.t, ss[1..], r.val, alter);
        var r' := OptList(r.t, ss[1..], r.val, alter);
        if r'.DoneList? {
          assert ([r.s] + r'.ss)[1..] == r'.ss;
        }
      }
    }
  }

  /** A list that reads nothing it did not define meets the condition on operands. */
  lemma {:induction false} SelfContainedKnown(ss: seq<Stmt>, known: set<nat>)
    requires GoodList(ss) && LiveIn(ss, {}) <= known && forall i :: 0 <= i < |ss| ==> ss[i].op != LdxLen
    ensures OperandsKnown(ss, known) && KnownAtEnd(ss, known) == DefinedAfter(ss, known)
    decreases |ss|
  {
    if ss != [] {
      assert Operands(ss[0]) <= Uses(ss[0]) <= LiveIn(ss, {});
      assert KnownAfter(ss[0], known) == After(ss[0], known);
      SelfContainedKnown(ss[1..], KnownAfter(ss[0], known));
    }
  }

  lemma {:induction false} LiveInAtoms(ss: seq<Stmt>, out: set<nat>)
    requires GoodList(ss) && out <= AllAtoms()
    ensures LiveIn(ss, out) <= AllAtoms()
    decreases |ss|
  {
    if ss != [] {
      assert GoodStmt(ss[0]);
      LiveInAtoms(ss[1..], out);
    }
  }

  lemma {:induction false} DefinedAfterGrows(ss: seq<Stmt>, on: set<nat>)
    ensures on <= DefinedAfter(ss, on)
    decreases |ss|
  {
    if ss != [] {
      DefinedAfterGrows(ss[1..], After(ss[0], on));
    }
  }

  lemma {:induction false} DefinedAfterHas(ss: seq<Stmt>, on: set<nat>, a: nat)
    requires Defines(ss, a)
    ensures a in DefinedAfter(ss, on)
    decreases |ss|
  {
    if Defs(ss[0]) == Some(a) {
      DefinedAfterGrows(ss[1..], After(ss[0], on));
    } else {
      var i :| 0 <= i < |ss| && Defs(ss[i]) == Some(a);
      assert ss[1..][i - 1] == ss[i];
      DefinedAfterHas(ss[1..], After(ss[0], on), a);
    }
  }

  /** Soundness on all atoms, for a list entered with numbers of which those of `known` are known. */
  lemma OptListAllRight(t: seq<Node>, ss: seq<Stmt>, val: seq<nat>, alter: bool, env: Env, st: State, known: set<nat>)
    requires WellNumbered(t) && InTable(t, val) && GoodList(ss) && Sound(t, env, val, st, AllAtoms())
    requires AreKnown(val, known) && OperandsKnown(ss, known)
    requires ExecList(ss, env, st).Next? && OptList(t, ss, val, alter).DoneList?
    ensures var r, st' := OptList(t, ss, val, alter), ExecList(ss, env, st).st;
            && ExecList(r.ss, env, st) == Next(st')
            && |r.val| == N_ATOMS && Sound(r.t, env, r.val, st', AllAtoms())
  {
    hide ExecList, OptList, AllAtoms, WellNumbered, Den;
    LiveInAtoms(ss, {});
    OptListRight(t, ss, val, alter, env, st, AllAtoms(), known);
    DefinedAfterGrows(ss, AllAtoms());
  }

  // ---------------------------------------------------------------------
  // What a rewritten statement uses and defines
  // ---------------------------------------------------------------------

  /** `s'` is deleted, or defines what `s` defines and uses no more. */
  predicate Leaner(s: Stmt, s': Stmt) { InRange(s') && Uses(s') <= Uses(s) && (s'.op == Nop || Defs(s') == Defs(s)) }

  ghost predicate ChangesA(r: Numbered, val: seq<nat>, uses: set<nat>)
    requires |val| == N_ATOMS
  {
    r.Done? ==> && |r.val| == N_ATOMS && InRange(r.s) && (r.s.op == Nop || Defs(r.s) == Some(A_ATOM)) && Uses(r.s) <= uses
                && forall a :: 0 <= a < N_ATOMS && a != A_ATOM ==> r.val[a] == val[a]
  }

  lemma AluKLeaner(t: seq<Node>, o: AluOp, k: u32, val: seq<nat>, alter: bool)
    requires |val| == N_ATOMS
    ensures ChangesA(OptAluK(t, o, k, val, alter), val, {A_ATOM})
  {
    hide AluX, ConstOf, Enter, Number, SetNew, Fold;
  }

  lemma AluXLeaner(t: seq<Node>, o: AluOp, k: u32, val: seq<nat>, alter: bool)
    requires |val| == N_ATOMS
    ensures ChangesA(OptAluX(t, o, k, val, alter), val, {A_ATOM, X_ATOM})
  {
    hide AluX, ConstOf, Enter, Number, Vstore, StoreNew, SetNew, Fold;
  }

  lemma OptStmtLeaner(t: seq<Node>, s: Stmt, val: seq<nat>, alter: bool)
    requires |val| == N_ATOMS && GoodStmt(s) && OptStmt(t, s, val, alter).Done?
    ensures Leaner(s, OptStmt(t, s, val, alter).s)
    ensures |OptStmt(t, s, val, alter).val| == N_ATOMS
    ensures forall a :: 0 <= a < N_ATOMS && Defs(s) != Some(a) ==> OptStmt(t, s, val, alter).val[a] == val[a]
  {
    hide OptAluK, OptAluX, Find, ConstOf, Enter, Number, Vstore, StoreNew, SetNew, Fold;
    if s.op.Alu? {
      AluKLeaner(t, s.op.alu, s.k, val, alter);
      AluXLeaner(t, s.op.alu, s.k, val, alter);
    }
  }

  lemma {:induction false} OptListLeaner(t: seq<Node>, ss: seq<Stmt>, val: seq<nat>, alter: bool)
    requires WellNumbered(t) && InTable(t, val) && GoodList(ss) && OptList(t, ss, val, alter).DoneList?
    ensures var r := OptList(t, ss, val, alter).ss; |r| == |ss| && forall i :: 0 <= i < |ss| ==> Leaner(ss[i], r[i])
    decreases |ss|
  {
    hide OptStmt, Leaner, WellNumbered;
    if ss != [] {
      OptStmtShape(t, ss[0], val, alter);
      OptStmtLeaner(t, ss[0], val, alter);
      var r := OptStmt(t, ss[0], val, alter);
      OptListLeaner(r.t, ss[1..], r.val, alter);
      var r' := OptList(r.t, ss[1..], r.val, alter).ss;
      forall i | 0 <= i < |ss|
        ensures Leaner(ss[i], ([r.s] + r')[i])
      {
        if i > 0 { assert Leaner(ss[1..][i - 1], r'[i - 1]); }
      }
    }
  }

  /**
   * The numbers of a list are right in the state its dead-store-free form leaves behind, for
   * everything needed afterwards: also on packets that only a deleted load would have rejected.
   */
  lemma {:induction false} StrippedSound(t: seq<Node>, ss: seq<Stmt>, left: seq<Stmt>, val: seq<nat>, out: set<nat>,
                                         env: Env, st: State, on: set<nat>, known: set<nat>)
    requires WellNumbered(t) && InTable(t, val) && GoodList(ss) && Sound(t, env, val, st, on)
    requires AreKnown(val, known) && OperandsKnown(ss, known) && LiveIn(left, out) <= on
    requires DeadRemoved(ss, left, out) && ExecList(left, env, st).Next?
    ensures var r := OptList(t, ss, val, false);
            && r.DoneList? && |r.val| == N_ATOMS && AreKnown(r.val, KnownAtEnd(ss, known))
            && exists on' :: out <= on' && Sound(r.t, env, r.val, ExecList(left, env, st).st, on')
    decreases |ss|
  {
    hide Exec, OptStmt, Den, Sound, KnownAfter, WellNumbered, AreKnown, NotNeeded;
    if ss == [] {
      assert left == [];
    } else {
      var s, rest := ss[0], ss[1..];
      assert GoodStmt(s);
      var r := OptStmt(t, s, val, false);
      OptStmtShape(t, s, val, false);
      HandledHere(s, val, known);
      KnownStep(t, s, val, false, known);
      DeadRemovedTail(ss, left, out);
      if left[0] == s {
        assert StmtReady(t, s, val, false, on);
        OptStmtRight(t, s, val, false, env, st, on);
        StrippedSound(r.t, rest, left[1..], r.val, out, env, Exec(s.op, s.k, env, st).st, After(s, on), KnownAfter(s, known));
      } else {
        NopSkips(left[0], env, st);
        var on' := SkipSound(t, s, val, left[1..], out, env, st, on);
        StrippedSound(r.t, rest, left[1..], r.val, out, env, st, on', KnownAfter(s, known));
      }
    }
  }

  /** Not running a statement leaves the numbers right for all atoms but the one it defines. */
  lemma SkipSound(t: seq<Node>, s: Stmt, val: seq<nat>, rest: seq<Stmt>, out: set<nat>, env: Env, st: State, on: set<nat>)
    returns (on': set<nat>)
    requires WellNumbered(t) && InTable(t, val) && GoodStmt(s) && Sound(t, env, val, st, on)
    requires NotNeeded(s, rest, out) && LiveIn(rest, out) <= on
    ensures var r := OptStmt(t, s, val, false); r.Done? && |r.val| == N_ATOMS && Sound(r.t, env, r.val, st, on')
    ensures LiveIn(rest, out) <= on'
  {
    hide OptStmt, Den, WellNumbered, LiveIn;
    OptStmtShape(t, s, val, false);
    OptStmtLeaner(t, s, val, false);
    var r := OptStmt(t, s, val, false);
    SoundPrefix(t, r.t, env, val, st, on);
    on' := if Defs(s).Some? then on - {Defs(s).value} else on;
  }

  // ---------------------------------------------------------------------
  // The number an arithmetic statement leaves
  // ---------------------------------------------------------------------

  /** The number `v` names an entry for the arithmetic statement `s`, with X numbered `x`. */
  predicate Names(t: seq<Node>, v: nat, s: Stmt, x: nat) {
    && 1 <= v <= |t| && s.op.Alu? && t[v - 1].op == s.op
    && var right := t[v - 1].v1;
       if s.op.src == X then right == x else 1 <= right <= |t| && t[right - 1] == ConstNode(s.k)
  }

  /** A deleted statement changes no number; an arithmetic one numbers the accumulator afresh. */
  ghost predicate Numbers(val: seq<nat>, r: Numbered)
    requires |val| == N_ATOMS
  {
    r.Done? ==> && (r.s.op == Nop ==> r.val == val)
                && (r.s.op.Alu? ==> |r.val| == N_ATOMS && Names(r.t, r.val[A_ATOM], r.s, r.val[X_ATOM]))
  }

  lemma VstoreNumbers(t: seq<Node>, s: Stmt, val: seq<nat>, atom: nat, v: nat, alter: bool)
    requires |val| == N_ATOMS && atom < N_ATOMS && !s.op.Alu? && s.op != Nop
    ensures Numbers(val, Vstore(t, s, val, atom, v, alter))
  {
  }

  lemma SetNewNumbers(t: seq<Node>, s: Stmt, val: seq<nat>, n: Node)
    requires |val| == N_ATOMS && s.op != Nop
    requires s.op.Alu? ==> && n.op == s.op
                           && if s.op.src == X then n.v1 == val[X_ATOM] else 1 <= n.v1 <= |t| && t[n.v1 - 1] == ConstNode(s.k)
    ensures Numbers(val, SetNew(t, s, val, n))
  {
    hide Find;
  }

  lemma AluNumbers(t: seq<Node>, o: AluOp, k: u32, val: seq<nat>, alter: bool)
    requires |val| == N_ATOMS
    ensures Numbers(val, OptAluK(t, o, k, val, alter)) && Numbers(val, OptAluX(t, o, k, val, alter))
  {
    hide AluX, Enter, Find, SetNew, Vstore, ConstOf;
    var cx := ConstOf(t, val[X_ATOM]);
    var t1, kv := Enter(t, ConstNode(k)), Number(t, ConstNode(k));
    SetNewNumbers(t1, Stmt(Alu(o, K), k), val, Node(Alu(o, K), val[A_ATOM], kv));
    SetNewNumbers(t, Stmt(Alu(o, X), k), val, Node(Alu(o, X), val[A_ATOM], val[X_ATOM]));
    if cx.Some? {
      SetNewNumbers(Enter(t, ConstNode(cx.value)), Stmt(Alu(o, K), cx.value), val,
                    Node(Alu(o, K), val[A_ATOM], Number(t, ConstNode(cx.value))));
    }
    VstoreNumbers(t, Stmt(Txa, k), val, A_ATOM, val[X_ATOM], alter);
    VstoreNumbers(Enter(t, ConstNode(0)), Stmt(LdImm, 0), val, A_ATOM, Number(t, ConstNode(0)), alter);
  }

  lemma OptStmtNumbers(t: seq<Node>, s: Stmt, val: seq<nat>, alter: bool)
    requires |val| == N_ATOMS && GoodStmt(s)
    ensures Numbers(val, OptStmt(t, s, val, alter))
  {
    hide Find, Number, Enter, OptAluK, OptAluX, SetNew, ConstOf, Names;
    match s.op
    case Alu(o, _) => AluNumbers(t, o, s.k, val, alter);
    case _ =>
  }

  lemma {:induction false} NopsKeepNumbers(t: seq<Node>, ss: seq<Stmt>, val: seq<nat>, alter: bool)
    requires WellNumbered(t) && InTable(t, val) && GoodList(ss) && OptList(t, ss, val, alter).DoneList?
    requires var rw := OptList(t, ss, val, alter).ss; forall i :: 0 <= i < |rw| ==> rw[i].op == Nop
    ensures OptList(t, ss, val, alter).val == val && t <= OptList(t, ss, val, alter).t
    decreases |ss|
  {
    hide OptStmt, WellNumbered;
    if ss != [] {
      OptStmtShape(t, ss[0], val, alter);
      OptStmtNumbers(t, ss[0], val, alter);
      var r := OptStmt(t, ss[0], val, alter);
      var r' := OptList(r.t, ss[1..], r.val, alter);
      var rw := [r.s] + r'.ss;
      assert rw[0] == r.s && forall i :: 0 <= i < |r'.ss| ==> r'.ss[i] == rw[i + 1];
      NopsKeepNumbers(r.t, ss[1..], r.val, alter);
    }
  }

  lemma NamesStill(t: seq<Node>, t': seq<Node>, v: nat, s: Stmt, x: nat)
    requires Names(t, v, s, x) && t <= t'
    ensures Names(t', v, s, x)
  {
  }

  lemma OptListStep(t: seq<Node>, ss: seq<Stmt>, val: seq<nat>, alter: bool)
    requires WellNumbered(t) && InTable(t, val) && GoodList(ss) && ss != [] && OptList(t, ss, val, alter).DoneList?
    ensures var r := OptStmt(t, ss[0], val, alter);
            && Shape(t, ss[0], val, alter, r) && GoodList(ss[1..])
            && var r', w := OptList(r.t, ss[1..], r.val, alter), OptList(t, ss, val, alter);
               && r'.DoneList? && w.t == r'.t && w.val == r'.val && |w.ss| == |ss| == |r'.ss| + 1 && w.ss[0] == r.s
               && forall j :: 0 <= j < |r'.ss| ==> r'.ss[j] == w.ss[j + 1]
  {
    hide OptStmt, WellNumbered;
    OptStmtShape(t, ss[0], val, alter);
    OptListShape(t, ss, val, alter);
  }

  /** The atom whose number a copying statement passes on. */
  function CopiedFrom(s: Stmt): nat {
    match s.op case Txa => X_ATOM case Stx => X_ATOM case LdMem => s.k case LdxMem => s.k case _ => A_ATOM
  }

  /** The number `v` is that of statement `s`, which loads or computes. */
  ghost predicate NumberOf(t: seq<Node>, v: nat, s: Stmt) {
    && 1 <= v <= |t|
    && if s.op == LdImm || s.op == LdxImm then t[v - 1] == ConstNode(s.k) else t[v - 1].op == s.op
  }

  lemma CopyOrigin(t: seq<Node>, s: Stmt, val: seq<nat>)
    requires |val| == N_ATOMS && GoodStmt(s) && Copies(s)
    ensures Defs(s).Some? && Defs(s).value < N_ATOMS && CopiedFrom(s) < N_ATOMS
    ensures OptStmt(t, s, val, false) == Done(t, s, val[Defs(s).value := val[CopiedFrom(s)]])
  {
    hide ConstOf;
  }

  lemma StoreOrigin(t: seq<Node>, s: Stmt, val: seq<nat>, atom: nat, n: Node)
    requires |val| == N_ATOMS && atom < N_ATOMS
    ensures var r := StoreNew(t, s, val, atom, n, false);
            && r == Done(Enter(t, n), s, val[atom := Number(t, n)])
            && 1 <= Number(t, n) <= |r.t| && r.t[Number(t, n) - 1] == n
  {
    hide Find;
  }

  lemma LoadOrigin(t: seq<Node>, s: Stmt, val: seq<nat>)
    requires |val| == N_ATOMS && GoodStmt(s) && !Copies(s) && s.op != LdxLen && Defs(s).Some? && !s.op.Alu?
    ensures var r := OptStmt(t, s, val, false);
            r.Done? && Defs(s).value < |r.val| == N_ATOMS && NumberOf(r.t, r.val[Defs(s).value], s)
  {
    hide ConstOf, StoreNew, Number, Enter;
    if s.op == Neg {
      StoreOrigin(t, s, val, A_ATOM, Node(Neg, val[A_ATOM], 0));
      assert SetNew(t, s, val, Node(Neg, val[A_ATOM], 0)) == StoreNew(t, s, val, A_ATOM, Node(Neg, val[A_ATOM], 0), false);
    } else {
      var n := if s.op.LdLen? then Node(LdLen, 0, 0) else if s.op.LdxImm? then ConstNode(s.k)
               else if s.op.LdInd? then Node(s.op, s.k, val[X_ATOM]) else Node(s.op, s.k, 0);
      StoreOrigin(t, s, val, Defs(s).value, n);
    }
  }

  lemma OriginStep(t: seq<Node>, s: Stmt, val: seq<nat>, a: nat)
    requires WellNumbered(t) && InTable(t, val) && GoodStmt(s) && s.op != LdxLen && a < N_ATOMS
    ensures var r := OptStmt(t, s, val, false);
            && r.Done? && |r.val| == N_ATOMS
            && if Defs(s) != Some(a) then r.val[a] == val[a]
               else if Copies(s) then CopiedFrom(s) < N_ATOMS && r.val[a] == val[CopiedFrom(s)]
               else NumberOf(r.t, r.val[a], s)
  {
    hide WellNumbered, OptStmt;
    OptStmtShape(t, s, val, false);
    OptStmtLeaner(t, s, val, false);
    if Copies(s) {
      CopyOrigin(t, s, val);
    } else if s.op.Alu? {
      OptStmtNumbers(t, s, val, false);
    } else if Defs(s).Some? {
      LoadOrigin(t, s, val);
    }
  }

  /** One statement more, where nothing is altered. */
  lemma {:induction false} OptListSnoc(t: seq<Node>, ss: seq<Stmt>, s: Stmt, val: seq<nat>)
    requires WellNumbered(t) && InTable(t, val) && GoodList(ss + [s]) && GoodList(ss)
    ensures var r, w := OptList(t, ss, val, false), OptList(t, ss + [s], val, false);
            && r.DoneList? && w.DoneList? && WellNumbered(r.t) && InTable(r.t, r.val) && GoodStmt(s)
            && var r' := OptStmt(r.t, s, r.val, false); r'.Done? && w.t == r'.t && w.val == r'.val
    decreases |ss|
  {
    hide OptStmt, WellNumbered, GoodStmt;
    assert (ss + [s])[|ss|] == s;
    if ss == [] {
      assert (ss + [s])[1..] == [];
      OptStmtShape(t, s, val, false);
    } else {
      assert (ss + [s])[0] == ss[0] && (ss + [s])[1..] == ss[1..] + [s];
      OptStmtShape(t, ss[0], val, false);
      var r := OptStmt(t, ss[0], val, false);
      OptListSnoc(r.t, ss[1..], s, r.val);
      OptListShape(t, ss, val, false);
    }
  }

  /** When only deleted statements follow it, its number is the one the list leaves in the accumulator. */
  lemma {:induction false} LastAluNumber(t: seq<Node>, ss: seq<Stmt>, val: seq<nat>, alter: bool, i: nat)
    requires WellNumbered(t) && InTable(t, val) && GoodList(ss) && OptList(t, ss, val, alter).DoneList?
    requires var rw := OptList(t, ss, val, alter).ss;
             i < |rw| == |ss| && rw[i].op.Alu? && forall j :: i < j < |rw| ==> rw[j].op == Nop
    ensures var r := OptList(t, ss, val, alter); |r.val| == N_ATOMS && Names(r.t, r.val[A_ATOM], r.ss[i], r.val[X_ATOM])
    decreases |ss|
  {
    hide OptStmt, WellNumbered, Names, OptList;
    OptListStep(t, ss, val, alter);
    OptStmtNumbers(t, ss[0], val, alter);
    var r := OptStmt(t, ss[0], val, alter);
    var r' := OptList(r.t, ss[1..], r.val, alter);
    if i == 0 {
      NopsKeepNumbers(r.t, ss[1..], r.val, alter);
      NamesStill(r.t, r'.t, r.val[A_ATOM], r.s, r.val[X_ATOM]);
    } else {
      LastAluNumber(r.t, ss[1..], r.val, alter, i - 1);
    }
  }

  lemma OptListNil(t: seq<Node>, ss: seq<Stmt>, val: seq<nat>, alter: bool)
    requires WellNumbered(t) && InTable(t, val)
    ensures OptList(t, ss[..0], val, alter) == DoneList(t, [], val)
  {
  }

  lemma PrefixStep(t: seq<Node>, ss: seq<Stmt>, val: seq<nat>, alter: bool, i: nat)
    requires WellNumbered(t) && InTable(t, val) && GoodList(ss) && 0 < i <= |ss|
    requires var r := OptStmt(t, ss[0], val, alter);
             && r.Done? && WellNumbered(r.t) && InTable(r.t, r.val) && GoodList(ss[1..])
             && OptList(r.t, ss[1..][..i - 1], r.val, alter).DoneList?
    ensures var r, w := OptStmt(t, ss[0], val, alter), OptList(t, ss[..i], val, alter);
            var r' := OptList(r.t, ss[1..][..i - 1], r.val, alter);
            w.DoneList? && w.t == r'.t && w.val == r'.val
  {
    hide OptStmt, WellNumbered;
    assert ss[..i][0] == ss[0] && ss[..i][1..] == ss[1..][..i - 1];
  }

  // ---------------------------------------------------------------------
  // When opt_stmt gives up
  // ---------------------------------------------------------------------

  /**
   * The error exits of opt_stmt: a known zero divisor of a known dividend, or a known shift
   * count over 31 of an unknown value.
   */
  predicate StmtRefused(t: seq<Node>, s: Stmt, val: seq<nat>, alter: bool)
    requires |val| == N_ATOMS
  {
    && alter && s.op.Alu? && s.op.src == X && ConstOf(t, val[X_ATOM]).Some?
    && var o, k := s.op.alu, ConstOf(t, val[X_ATOM]).value;
       if ConstOf(t, val[A_ATOM]).Some? then (o == Div || o == Mod) && k == 0 else (o == Lsh || o == Rsh) && k > 31
  }

  lemma OptStmtFails(t: seq<Node>, s: Stmt, val: seq<nat>, alter: bool)
    requires |val| == N_ATOMS && GoodStmt(s)
    ensures OptStmt(t, s, val, alter).Failed? <==> StmtRefused(t, s, val, alter)
  {
    hide Find, ConstOf, Enter, Number, Plus, Minus, Times, Quotient, Remainder, BitAnd, BitOr, BitXor, ShiftLeft, ShiftRight;
  }

  /** Statement `i` is refused with the table and numbers the statements before it leave. */
  ghost predicate RefusedAt(t: seq<Node>, ss: seq<Stmt>, val: seq<nat>, alter: bool, i: nat)
    requires WellNumbered(t) && InTable(t, val) && GoodList(ss) && i < |ss|
  {
    var r := OptList(t, ss[..i], val, alter);
    r.DoneList? && |r.val| == N_ATOMS && StmtRefused(r.t, ss[i], r.val, alter)
  }

  /** The rewriting of a list fails exactly when some statement is refused. */
  lemma {:induction false} OptListFails(t: seq<Node>, ss: seq<Stmt>, val: seq<nat>, alter: bool)
    requires WellNumbered(t) && InTable(t, val) && GoodList(ss)
    ensures OptList(t, ss, val, alter).FailedList? <==> exists i :: 0 <= i < |ss| && RefusedAt(t, ss, val, alter, i)
    decreases |ss|
  {
    hide OptStmt, StmtRefused, WellNumbered;
    if ss != [] {
      var s, rest := ss[0], ss[1..];
      OptStmtFails(t, s, val, alter);
      OptStmtShape(t, s, val, alter);
      assert ss[..0] == [];
      assert RefusedAt(t, ss, val, alter, 0) <==> StmtRefused(t, s, val, alter);
      var r := OptStmt(t, s, val, alter);
      if r.Done? {
        OptListFails(r.t, rest, r.val, alter);
        forall i | 1 <= i < |ss|
          ensures RefusedAt(t, ss, val, alter, i) <==> RefusedAt(r.t, rest, r.val, alter, i - 1)
        {
          assert ss[..i][1..] == rest[..i - 1] && ss[..i][0] == s;
        }
        if j :| 0 <= j < |rest| && RefusedAt(r.t, rest, r.val, alter, j) {
          assert RefusedAt(t, ss, val, alter, j + 1);
        }
      } else {
        forall i | 1 <= i < |ss|
          ensures !RefusedAt(t, ss, val, alter, i)
        {
          assert ss[..i][0] == s;
        }
      }
    }
  }

  /** A statement refused for its divisor rejects every packet in every state its numbers describe. */
  lemma RefusedDivisorRejects(t: seq<Node>, s: Stmt, val: seq<nat>, alter: bool, env: Env, st: State, on: set<nat>)
    requires |val| == N_ATOMS && StmtRefused(t, s, val, alter) && (s.op.alu == Div || s.op.alu == Mod)
    requires X_ATOM in on && Sound(t, env, val, st, on)
    ensures Exec(s.op, s.k, env, st).Rejected?
  {
    hide Den;
    ConstDen(t, env, val[X_ATOM]);
    SoundAt(t, env, val, st, on, X_ATOM);
  }

  // ---------------------------------------------------------------------
  // Where the condition on operands is needed
  // ---------------------------------------------------------------------

  lemma ExecThree(s0: Stmt, s1: Stmt, s2: Stmt, env: Env, st: State)
    ensures ExecList([s0, s1, s2], env, st) ==
            match Exec(s0.op, s0.k, env, st)
            case Rejected => Rejected
            case Undefined => Undefined
            case Next(st1) =>
              match Exec(s1.op, s1.k, env, st1)
              case Rejected => Rejected
              case Undefined => Undefined
              case Next(st2) => Exec(s2.op, s2.k, env, st2)
  {
    hide Exec;
    assert [s0, s1, s2][1..] == [s1, s2] && [s1, s2][1..] == [s2] && [s2][1..] == [];
    forall st'
      ensures ExecList([s2], env, st') == Exec(s2.op, s2.k, env, st')
    {
      assert Exec(s2.op, s2.k, env, st').Next? ==> ExecList([], env, Exec(s2.op, s2.k, env, st').st).Next?;
    }
    var e0 := Exec(s0.op, s0.k, env, st);
    assert e0.Next? ==> ExecList([s1, s2], env, e0.st) == match Exec(s1.op, s1.k, env, e0.st)
                                                          case Rejected => Rejected
                                                          case Undefined => Undefined
                                                          case Next(st2) => Exec(s2.op, s2.k, env, st2);
  }

  lemma OptThree(s0: Stmt, s1: Stmt, s2: Stmt, t: seq<Node>, val: seq<nat>)
    requires WellNumbered(t) && InTable(t, val) && GoodStmt(s0) && GoodStmt(s1) && GoodStmt(s2)
    requires OptStmt(t, s0, val, true).Done?
    requires var r := OptStmt(t, s0, val, true); |r.val| == N_ATOMS && OptStmt(r.t, s1, r.val, true).Done?
    requires var r := OptStmt(t, s0, val, true);
             var r1 := OptStmt(r.t, s1, r.val, true);
             |r1.val| == N_ATOMS && OptStmt(r1.t, s2, r1.val, true).Done?
    ensures var r := OptStmt(t, s0, val, true);
            var r1 := OptStmt(r.t, s1, r.val, true);
            var r2 := OptStmt(r1.t, s2, r1.val, true);
            OptList(t, [s0, s1, s2], val, true) == DoneList(r2.t, [r.s, r1.s, r2.s], r2.val)
  {
    hide OptStmt, WellNumbered;
    assert [s0, s1, s2][1..] == [s1, s2] && [s1, s2][1..] == [s2] && [s2][1..] == [];
    OptStmtShape(t, s0, val, true);
    var r := OptStmt(t, s0, val, true);
    OptStmtShape(r.t, s1, r.val, true);
    var r1 := OptStmt(r.t, s1, r.val, true);
    var r2 := OptStmt(r1.t, s2, r1.val, true);
    OptStmtShape(r1.t, s2, r1.val, true);
    assert OptList(r2.t, [], r2.val, true) == DoneList(r2.t, [], r2.val);
    assert OptList(r1.t, [s2], r1.val, true) == DoneList(r2.t, [r2.s], r2.val);
    assert OptList(r.t, [s1, s2], r.val, true) == DoneList(r2.t, [r1.s, r2.s], r2.val);
  }

  function Unknowns(): seq<nat> { [0, 0, 0, 0, 0, 0, 0, 0, 0, 0, 0, 0, 0, 0, 0, 0, 0, 0] }

  /** Two indexed loads under different unknown indexes get one number, and the second is deleted. */
  lemma UnknownOperandFails(mem: Mem)
    requires mem[1] == 1
    ensures var ss, st, env := [Stmt(LdInd(B), 0), Stmt(LdxMem, 1), Stmt(LdInd(B), 0)], State(0, 0, mem), Env([5, 6], 2);
            && GoodList(ss) && !OperandsKnown(ss, {}) && ExecList(ss, env, st).Next?
            && var r := OptList([], ss, Unknowns(), true);
               r.DoneList? && ExecList(r.ss, env, st) != ExecList(ss, env, st)
  {
    hide OptStmt, OptList;
    var s0, s1, st, env := Stmt(LdInd(B), 0), Stmt(LdxMem, 1), State(0, 0, mem), Env([5, 6], 2);
    UnknownOperandRewrite();
    ExecThree(s0, s1, s0, env, st);
    ExecThree(s0, s1, Stmt(Nop, 0), env, st);
  }

  lemma UnknownOperandRewrite()
    ensures var s0, s1 := Stmt(LdInd(B), 0), Stmt(LdxMem, 1);
            && GoodList([s0, s1, s0])
            && var r := OptList([], [s0, s1, s0], Unknowns(), true);
               r.DoneList? && r.ss == [s0, s1, Stmt(Nop, 0)]
  {
    var s0, s1 := Stmt(LdInd(B), 0), Stmt(LdxMem, 1);
    var t, v0 := [Node(LdInd(B), 0, 0)], Unknowns();
    var v1 := v0[A_ATOM := 1];
    IndexedUnknown([], s0, v0);
    assert v1[X_ATOM := 0] == v1;
    assert OptStmt(t, s1, v1, true) == Done(t, s1, v1);
    IndexedUnknown(t, s0, v1);
    hide OptStmt;
    OptThree(s0, s1, s0, [], v0);
  }

  lemma IndexedUnknown(t: seq<Node>, s: Stmt, val: seq<nat>)
    requires |val| == N_ATOMS && val[X_ATOM] == UNKNOWN && s.op.LdInd?
    ensures OptStmt(t, s, val, true) ==
            var n := Node(s.op, s.k, UNKNOWN);
            Done(Enter(t, n), if val[A_ATOM] == Number(t, n) then s.(op := Nop) else s, val[A_ATOM := Number(t, n)])
  {
    hide Find;
  }

  /** opt_stmt ignores `ldx len`, so a reload of the old constant is deleted although X changed. */
  lemma LdxLenFails(mem: Mem)
    ensures var ss, st, env := [Stmt(LdxImm, 5), Stmt(LdxLen, 0), Stmt(LdxImm, 5)], State(0, 0, mem), Env([], 7);
            && GoodList(ss) && !OperandsKnown(ss, {}) && ExecList(ss, env, st).Next?
            && var r := OptList([], ss, Unknowns(), true);
               r.DoneList? && ExecList(r.ss, env, st) != ExecList(ss, env, st)
  {
    hide OptStmt, OptList;
    var s0, s1, st, env := Stmt(LdxImm, 5), Stmt(LdxLen, 0), State(0, 0, mem), Env([], 7);
    LdxLenRewrite();
    ExecThree(s0, s1, s0, env, st);
    ExecThree(s0, s1, Stmt(Nop, 5), env, st);
  }

  lemma LdxLenRewrite()
    ensures var s0, s1 := Stmt(LdxImm, 5), Stmt(LdxLen, 0);
            && GoodList([s0, s1, s0]) && InTable([], Unknowns())
            && OptList([], [s0, s1, s0], Unknowns(), true) ==
               DoneList([ConstNode(5)], [s0, s1, Stmt(Nop, 5)], Unknowns()[X_ATOM := 1])
  {
    var s0, s1, t, v0 := Stmt(LdxImm, 5), Stmt(LdxLen, 0), [ConstNode(5)], Unknowns();
    var v1 := v0[X_ATOM := 1];
    assert OptStmt([], s0, v0, true) == Done(t, s0, v1);
    assert OptStmt(t, s1, v1, true) == Done(t, s1, v1);
    assert OptStmt(t, s0, v1, true) == Done(t, Stmt(Nop, 5), v1);
    hide OptStmt;
    OptThree(s0, s1, s0, [], v0);
  }

  /**
   * A shift count over 31 is refused although the machine defines the result: shifting the first
   * byte of a packet left by a known 32 yields 0.
   */
  lemma ShiftRefused(mem: Mem, b: u8)
    ensures var ss, st, env := [Stmt(LdAbs(B), 0), Stmt(LdxImm, 32), Stmt(Alu(Lsh, X), 0)], State(0, 0, mem), Env([b], 1);
            && GoodList(ss) && OperandsKnown(ss, {}) && ExecList(ss, env, st) == Next(State(0, 32, mem))
            && OptList([], ss, Unknowns(), true).FailedList?
  {
    var s0, s1, s2 := Stmt(LdAbs(B), 0), Stmt(LdxImm, 32), Stmt(Alu(Lsh, X), 0);
    ExecThree(s0, s1, s2, Env([b], 1), State(0, 0, mem));
    hide Exec;
    ShiftRefusedList(s0, s1, s2);
  }

  lemma NewEntry(t: seq<Node>, n: Node)
    requires n !in t
    ensures Number(t, n) == |t| + 1 && Enter(t, n) == t + [n]
  {
  }

  lemma ShiftRefusedList(s0: Stmt, s1: Stmt, s2: Stmt)
    requires s0 == Stmt(LdAbs(B), 0) && s1 == Stmt(LdxImm, 32) && s2 == Stmt(Alu(Lsh, X), 0)
    ensures GoodList([s0, s1, s2]) && OperandsKnown([s0, s1, s2], {})
    ensures OptList([], [s0, s1, s2], Unknowns(), true).FailedList?
  {
    hide Find, Enter, Number, OperandsKnown;
    ShiftOperands(s0, s1, s2);
    assert [s0, s1, s2][1..] == [s1, s2] && [s1, s2][1..] == [s2] && [s2][1..] == [];
    var n := Node(LdAbs(B), 0, 0);
    var t1, t2, v0 := [n], [n, ConstNode(32)], Unknowns();
    var v1 := v0[A_ATOM := 1];
    var v2 := v1[X_ATOM := 2];
    NewEntry([], n);
    NewEntry(t1, ConstNode(32));
    assert OptStmt([], s0, v0, true) == Done(t1, s0, v1);
    assert OptStmt(t1, s1, v1, true) == Done(t2, s1, v2);
    OptStmtFails(t2, s2, v2, true);
    hide OptStmt;
    assert OptList(t2, [s2], v2, true) == FailedList;
    assert OptList(t1, [s1, s2], v1, true) == FailedList;
  }

  lemma ShiftOperands(s0: Stmt, s1: Stmt, s2: Stmt)
    requires s0 == Stmt(LdAbs(B), 0) && s1 == Stmt(LdxImm, 32) && s2 == Stmt(Alu(Lsh, X), 0)
    ensures OperandsKnown([s0, s1, s2], {})
  {
    assert [s0, s1, s2][1..] == [s1, s2] && [s1, s2][1..] == [s2] && [s2][1..] == [];
    var k1, k2 := KnownAfter(s0, {}), KnownAfter(s1, KnownAfter(s0, {}));
    assert Operands(s2) <= k2;
    assert OperandsKnown([], KnownAfter(s2, k2));
    assert OperandsKnown([s2], k2);
    assert OperandsKnown([s1, s2], k1);
  }

  /** The condition on operands is not necessary: an unknown operand alone does no harm. */
  lemma UnknownOperandHarmless()
    ensures var ss := [Stmt(Neg, 0)];
            && GoodList(ss) && !OperandsKnown(ss, {})
            && OptList([], ss, Unknowns(), true) == DoneList([Node(Neg, 0, 0)], ss, Unknowns()[A_ATOM := 1])
  {
    var s, t, v1 := Stmt(Neg, 0), [Node(Neg, 0, 0)], Unknowns()[A_ATOM := 1];
    assert [s][1..] == [];
    NewEntry([], Node(Neg, 0, 0));
    assert OptStmt([], s, Unknowns(), true) == Done(t, s, v1);
    assert OptList(t, [], v1, true) == DoneList(t, [], v1);
  }
}
