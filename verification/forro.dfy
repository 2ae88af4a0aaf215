/**
 * The Forró14 cipher: quarter-round, block function, state setup and stream mode
 * (forro_cipher/src/forro/ref/forro.c).
 */
module Forro {
  import opened Words

  /** A 16-word state. */
  type Block = s: seq<bv32> | |s| == 16 witness seq(16, _ => 0)

  type Bytes = seq<bv8>

  /** The iterations of forro's loop, eight quarter-rounds each. */
  const ROUNDS: nat := 7

  // ---------------------------------------------------------------------
  // The quarter-round and its inverse
  // ---------------------------------------------------------------------

  datatype Five = Five(a: bv32, b: bv32, c: bv32, d: bv32, e: bv32)

  // Word arithmetic, named so that proofs about the state need not look inside it.
  function Add(x: bv32, y: bv32): bv32 { x + y }

  function Sub(x: bv32, y: bv32): bv32 { x - y }

  function Xor(x: bv32, y: bv32): bv32 { x ^ y }

  function Rotl8(x: bv32): bv32 { (x << 8) | (x >> 24) }

  function Rotl10(x: bv32): bv32 { (x << 10) | (x >> 22) }

  function Rotl27(x: bv32): bv32 { (x << 27) | (x >> 5) }

  function Rotr8(x: bv32): bv32 { (x >> 8) | (x << 24) }

  function Rotr10(x: bv32): bv32 { (x >> 10) | (x << 22) }

  function Rotr27(x: bv32): bv32 { (x >> 27) | (x << 5) }

  lemma Rotate8(x: bv32)
    ensures Rotr8(Rotl8(x)) == x == Rotl8(Rotr8(x))
  {
  }

  lemma Rotate10(x: bv32)
    ensures Rotr10(Rotl10(x)) == x == Rotl10(Rotr10(x))
  {
  }

  lemma Rotate27(x: bv32)
    ensures Rotr27(Rotl27(x)) == x == Rotl27(Rotr27(x))
  {
  }

  lemma AddIs(x: bv32, y: bv32)
    ensures Add(x, y) == x + y && Sub(x, y) == x - y
  {
  }

  lemma Cancels(x: bv32, y: bv32)
    ensures Sub(x + y, y) == x && Add(x - y, y) == x
  {
  }

  lemma AddUndone(x: bv32, y: bv32)
    ensures Sub(Add(x, y), y) == x == Add(Sub(x, y), y)
  {
    hide Add, Sub;
    AddIs(x, y);
    Cancels(x, y);
  }

  lemma XorUndone(x: bv32, y: bv32)
    ensures Xor(Xor(x, y), y) == x
  {
  }

  /** The twelve steps of the macro Q, in order. */
  function Stage(n: nat, q: Five): Five
    requires n < 12
  {
    match n
    case 0 => q.(d := Add(q.d, q.e))
    case 1 => q.(c := Xor(q.c, q.d))
    case 2 => q.(b := Add(q.b, q.c))
    case 3 => q.(b := Rotl10(q.b))
    case 4 => q.(a := Add(q.a, q.b))
    case 5 => q.(e := Xor(q.e, q.a))
    case 6 => q.(d := Add(q.d, q.e))
    case 7 => q.(d := Rotl27(q.d))
    case 8 => q.(c := Add(q.c, q.d))
    case 9 => q.(b := Xor(q.b, q.c))
    case 10 => q.(a := Add(q.a, q.b))
    case _ => q.(a := Rotl8(q.a))
  }

  function StageBack(n: nat, q: Five): Five
    requires n < 12
  {
    match n
    case 0 => q.(d := Sub(q.d, q.e))
    case 1 => q.(c := Xor(q.c, q.d))
    case 2 => q.(b := Sub(q.b, q.c))
    case 3 => q.(b := Rotr10(q.b))
    case 4 => q.(a := Sub(q.a, q.b))
    case 5 => q.(e := Xor(q.e, q.a))
    case 6 => q.(d := Sub(q.d, q.e))
    case 7 => q.(d := Rotr27(q.d))
    case 8 => q.(c := Sub(q.c, q.d))
    case 9 => q.(b := Xor(q.b, q.c))
    case 10 => q.(a := Sub(q.a, q.b))
    case _ => q.(a := Rotr8(q.a))
  }

  lemma StageUndone(n: nat, q: Five)
    requires n < 12
    ensures StageBack(n, Stage(n, q)) == q == Stage(n, StageBack(n, q))
  {
    hide Add, Sub, Xor, Rotl8, Rotl10, Rotl27, Rotr8, Rotr10, Rotr27;
    match n
    case 0 => AddUndone(q.d, q.e);
    case 1 => XorUndone(q.c, q.d);
    case 2 => AddUndone(q.b, q.c);
    case 3 => Rotate10(q.b);
    case 4 => AddUndone(q.a, q.b);
    case 5 => XorUndone(q.e, q.a);
    case 6 => AddUndone(q.d, q.e);
    case 7 => Rotate27(q.d);
    case 8 => AddUndone(q.c, q.d);
    case 9 => XorUndone(q.b, q.c);
    case 10 => AddUndone(q.a, q.b);
    case _ => Rotate8(q.a);
  }

  /** The first `n` steps, and their inverses in reverse order. */
  function Stages(n: nat, q: Five): Five
    requires n <= 12
  {
    if n == 0 then q else Stage(n - 1, Stages(n - 1, q))
  }

  function StagesBack(n: nat, q: Five): Five
    requires n <= 12
  {
    if n == 0 then q else StagesBack(n - 1, StageBack(n - 1, q))
  }

  lemma {:induction false} StagesUndone(n: nat, q: Five)
    requires n <= 12
    ensures StagesBack(n, Stages(n, q)) == q == Stages(n, StagesBack(n, q))
    decreases n
  {
    hide Stage, StageBack;
    if n > 0 {
      StagesUndone(n - 1, q);
      StageUndone(n - 1, Stages(n - 1, q));
      StagesUndone(n - 1, StageBack(n - 1, q));
      StageUndone(n - 1, q);
    }
  }

  // ---------------------------------------------------------------------
  // Rounds on the state
  // ---------------------------------------------------------------------

  /** The five distinct words a quarter-round works on. */
  datatype Index = Index(a: nat, b: nat, c: nat, d: nat, e: nat)

  predicate Good(ix: Index) {
    && ix.a < 16 && ix.b < 16 && ix.c < 16 && ix.d < 16 && ix.e < 16
    && ix.a != ix.b && ix.a != ix.c && ix.a != ix.d && ix.a != ix.e
    && ix.b != ix.c && ix.b != ix.d && ix.b != ix.e
    && ix.c != ix.d && ix.c != ix.e && ix.d != ix.e
  }

  function Get(s: Block, ix: Index): Five
    requires Good(ix)
  {
    Five(s[ix.a], s[ix.b], s[ix.c], s[ix.d], s[ix.e])
  }

  /** Word `i` once the five words have been replaced. */
  function Replaced(s: Block, ix: Index, q: Five, i: nat): bv32
    requires i < 16
  {
    if i == ix.a then q.a else if i == ix.b then q.b else if i == ix.c then q.c
    else if i == ix.d then q.d else if i == ix.e then q.e else s[i]
  }

  function Put(s: Block, ix: Index, q: Five): Block
    requires Good(ix)
  {
    seq(16, i requires 0 <= i < 16 => Replaced(s, ix, q, i))
  }

  lemma PutGet(s: Block, ix: Index, q: Five, r: Five)
    requires Good(ix)
    ensures Get(Put(s, ix, q), ix) == q && Put(Put(s, ix, q), ix, r) == Put(s, ix, r) && Put(s, ix, Get(s, ix)) == s
  {
  }

  /** The quarter-round on any five distinct words. */
  function Quarter(s: Block, ix: Index): Block
    requires Good(ix)
  {
    Put(s, ix, Stages(12, Get(s, ix)))
  }

  function QuarterBack(s: Block, ix: Index): Block
    requires Good(ix)
  {
    Put(s, ix, StagesBack(12, Get(s, ix)))
  }

  lemma QuarterUndone(s: Block, ix: Index)
    requires Good(ix)
    ensures QuarterBack(Quarter(s, ix), ix) == s == Quarter(QuarterBack(s, ix), ix)
  {
    hide Stages, StagesBack, Get, Put;
    var q := Get(s, ix);
    StagesUndone(12, q);
    PutGet(s, ix, Stages(12, q), q);
    PutGet(s, ix, StagesBack(12, q), q);
  }

  /** The words of the n-th quarter-round of a double round: four columns, then four diagonals. */
  function Row(n: nat): (ix: Index)
    requires n < 8
    ensures Good(ix)
  {
    match n
    case 0 => Index(0, 4, 8, 12, 3)
    case 1 => Index(1, 5, 9, 13, 0)
    case 2 => Index(2, 6, 10, 14, 1)
    case 3 => Index(3, 7, 11, 15, 2)
    case 4 => Index(0, 5, 10, 15, 3)
    case 5 => Index(1, 6, 11, 12, 0)
    case 6 => Index(2, 7, 8, 13, 1)
    case _ => Index(3, 4, 9, 14, 2)
  }

  /** `n` quarter-rounds from the start of a double round. */
  function Quarters(n: nat, s: Block): Block {
    if n == 0 then s else Quarter(Quarters(n - 1, s), Row((n - 1) % 8))
  }

  function QuartersBack(n: nat, s: Block): Block {
    if n == 0 then s else QuartersBack(n - 1, QuarterBack(s, Row((n - 1) % 8)))
  }

  /** The round function is a bijection: any number of quarter-rounds is undone in reverse order. */
  lemma {:induction false} QuartersUndone(n: nat, s: Block)
    ensures QuartersBack(n, Quarters(n, s)) == s == Quarters(n, QuartersBack(n, s))
    decreases n
  {
    hide Quarter, QuarterBack, Row;
    if n > 0 {
      var ix := Row((n - 1) % 8);
      QuartersUndone(n - 1, s);
      QuarterUndone(Quarters(n - 1, s), ix);
      QuartersUndone(n - 1, QuarterBack(s, ix));
      QuarterUndone(s, ix);
    }
  }

  /** Distinct states stay distinct, and every state is reached. */
  lemma RoundsAreBijective(n: nat, s: Block, t: Block)
    ensures Quarters(8 * n, s) == Quarters(8 * n, t) ==> s == t
    ensures exists u: Block :: Quarters(8 * n, u) == t
  {
    QuartersUndone(8 * n, s);
    QuartersUndone(8 * n, t);
    assert Quarters(8 * n, QuartersBack(8 * n, t)) == t;
  }

  // ---------------------------------------------------------------------
  // Bytes and words
  // ---------------------------------------------------------------------

  /** U8TO32_LITTLE. */
  function Load(b0: bv8, b1: bv8, b2: bv8, b3: bv8): bv32 {
    (b0 as bv32) | ((b1 as bv32) << 8) | ((b2 as bv32) << 16) | ((b3 as bv32) << 24)
  }

  function LoadAt(b: Bytes, i: nat): bv32
    requires i + 4 <= |b|
  {
    Load(b[i], b[i + 1], b[i + 2], b[i + 3])
  }

  /** Byte `j` of a word as U32TO8_LITTLE stores it. */
  function ByteOf(w: bv32, j: nat): bv8
    requires j < 4
  {
    match j
    case 0 => (w & 0xff) as bv8
    case 1 => ((w >> 8) & 0xff) as bv8
    case 2 => ((w >> 16) & 0xff) as bv8
    case _ => ((w >> 24) & 0xff) as bv8
  }

  lemma BytesOfLoad(b0: bv8, b1: bv8, b2: bv8, b3: bv8)
    ensures var w := Load(b0, b1, b2, b3);
            ByteOf(w, 0) == b0 && ByteOf(w, 1) == b1 && ByteOf(w, 2) == b2 && ByteOf(w, 3) == b3
  {
  }

  lemma LoadOfBytes(w: bv32)
    ensures Load(ByteOf(w, 0), ByteOf(w, 1), ByteOf(w, 2), ByteOf(w, 3)) == w
  {
  }

  // ---------------------------------------------------------------------
  // The block function
  // ---------------------------------------------------------------------

  function AddWords(s: Block, t: Block): (r: Block)
    ensures forall i :: 0 <= i < 16 ==> r[i] == Add(s[i], t[i])
  {
    seq(16, i requires 0 <= i < 16 => Add(s[i], t[i]))
  }

  /** The state after `rounds` double rounds, added to the state before. */
  function Mixed(rounds: nat, s: Block): Block { AddWords(s, Quarters(8 * rounds, s)) }

  /** The words of the block function's output. */
  function Core(s: Block): Block { Mixed(ROUNDS, s) }

  /** The words in little-endian byte order. */
  function WordBytes(s: Block): (b: Bytes)
    ensures |b| == 64 && forall i :: 0 <= i < 64 ==> b[i] == ByteOf(s[i / 4], i % 4)
  {
    seq(64, i requires 0 <= i < 64 => ByteOf(s[i / 4], i % 4))
  }

  /** The 64 bytes of key stream for a state. */
  function KeyBlock(s: Block): (b: Bytes)
    ensures |b| == 64
  {
    WordBytes(Core(s))
  }

  /** Step `n` of the macro Q, on words of the state vector that have been through the steps before it. */
  method Step(v: array<bv32>, ix: Index, n: nat, ghost s: Block)
    requires v.Length == 16 && Good(ix) && n < 12 && v[..] == Put(s, ix, Stages(n, Get(s, ix)))
    modifies v
    ensures v[..] == Put(s, ix, Stages(n + 1, Get(s, ix)))
  {
    hide Stages, Add, Xor, Rotl8, Rotl10, Rotl27, Get, Put;
    ghost var q, w := Stages(n, Get(s, ix)), v[..];
    PutGet(s, ix, q, Stage(n, q));
    StagesNext(n, Get(s, ix));
    GetIs(w, ix);
    var i, x;
    match n {
      case 0 => i, x := ix.d, Add(v[ix.d], v[ix.e]);
      case 1 => i, x := ix.c, Xor(v[ix.c], v[ix.d]);
      case 2 => i, x := ix.b, Add(v[ix.b], v[ix.c]);
      case 3 => i, x := ix.b, Rotl10(v[ix.b]);
      case 4 => i, x := ix.a, Add(v[ix.a], v[ix.b]);
      case 5 => i, x := ix.e, Xor(v[ix.e], v[ix.a]);
      case 6 => i, x := ix.d, Add(v[ix.d], v[ix.e]);
      case 7 => i, x := ix.d, Rotl27(v[ix.d]);
      case 8 => i, x := ix.c, Add(v[ix.c], v[ix.d]);
      case 9 => i, x := ix.b, Xor(v[ix.b], v[ix.c]);
      case 10 => i, x := ix.a, Add(v[ix.a], v[ix.b]);
      case _ => i, x := ix.a, Rotl8(v[ix.a]);
    }
    PutOne(w, ix, i, x);
    v[i] := x;
    assert v[..] == w[i := x];
  }

  lemma GetIs(w: Block, ix: Index)
    requires Good(ix)
    ensures Get(w, ix) == Five(w[ix.a], w[ix.b], w[ix.c], w[ix.d], w[ix.e])
  {
  }

  /** The five words with word `i` of the state changed to `x`. */
  function With(q: Five, ix: Index, i: nat, x: bv32): Five {
    Five(if i == ix.a then x else q.a, if i == ix.b then x else q.b, if i == ix.c then x else q.c,
         if i == ix.d then x else q.d, if i == ix.e then x else q.e)
  }

  lemma PutOne(w: Block, ix: Index, i: nat, x: bv32)
    requires Good(ix) && (i == ix.a || i == ix.b || i == ix.c || i == ix.d || i == ix.e)
    ensures Put(w, ix, With(Get(w, ix), ix, i, x)) == w[i := x]
  {
  }

  lemma StagesNext(n: nat, q: Five)
    requires n < 12
    ensures Stages(n + 1, q) == Stage(n, Stages(n, q)) && Stages(0, q) == q
  {
    hide Stage;
  }

  /** The macro Q. */
  method Q(v: array<bv32>, ix: Index)
    requires v.Length == 16 && Good(ix)
    modifies v
    ensures v[..] == Quarter(old(v[..]), ix)
  {
    hide Stages, Get, Put;
    ghost var s := v[..];
    PutGet(s, ix, Get(s, ix), Get(s, ix));
    StagesNext(0, Get(s, ix));
    Step(v, ix, 0, s);
    Step(v, ix, 1, s);
    Step(v, ix, 2, s);
    Step(v, ix, 3, s);
    Step(v, ix, 4, s);
    Step(v, ix, 5, s);
    Step(v, ix, 6, s);
    Step(v, ix, 7, s);
    Step(v, ix, 8, s);
    Step(v, ix, 9, s);
    Step(v, ix, 10, s);
    Step(v, ix, 11, s);
  }

  /** Quarter-round `k` of a double round. */
  method Turn(v: array<bv32>, k: nat, ghost n: nat, ghost s: Block)
    requires v.Length == 16 && k < 8 && n % 8 == k && v[..] == Quarters(n, s)
    modifies v
    ensures v[..] == Quarters(n + 1, s)
  {
    hide Quarter, Quarters, Row;
    QuartersNext(n, s);
    Q(v, Row(k));
  }

  /** One pass of the loop in forro. */
  method DoubleRound(v: array<bv32>, ghost n: nat, ghost s: Block)
    requires v.Length == 16 && n % 8 == 0 && v[..] == Quarters(n, s)
    modifies v
    ensures v[..] == Quarters(n + 8, s)
  {
    hide Quarters;
    EightTurns(n);
    Turn(v, 0, n, s);
    Turn(v, 1, n + 1, s);
    Turn(v, 2, n + 2, s);
    Turn(v, 3, n + 3, s);
    Turn(v, 4, n + 4, s);
    Turn(v, 5, n + 5, s);
    Turn(v, 6, n + 6, s);
    Turn(v, 7, n + 7, s);
  }

  lemma EightTurns(n: nat)
    requires n % 8 == 0
    ensures (n + 1) % 8 == 1 && (n + 2) % 8 == 2 && (n + 3) % 8 == 3 && (n + 4) % 8 == 4
    ensures (n + 5) % 8 == 5 && (n + 6) % 8 == 6 && (n + 7) % 8 == 7
  {
  }

  lemma QuartersNext(n: nat, s: Block)
    ensures Quarters(n + 1, s) == Quarter(Quarters(n, s), Row(n % 8))
  {
    hide Quarter;
  }

  /** forro: the 64 bytes of key stream for a state. */
  method ForroBlock(out: array<bv8>, init: array<bv32>)
    requires out.Length == 64 && init.Length == 16
    modifies out
    ensures out[..] == KeyBlock(init[..])
  {
    hide Quarters, ByteOf, Add, Row;
    ghost var s: Block := init[..];
    var v := new bv32[16];
    var i := 0;
    while i < 16
      invariant 0 <= i <= 16 && forall j :: 0 <= j < i ==> v[j] == init[j]
    {
      v[i] := init[i];
      i := i + 1;
    }
    assert v[..] == s;
    QuartersZero(s);
    i := 0;
    while i < ROUNDS
      invariant 0 <= i <= ROUNDS && v[..] == Quarters(8 * i, s)
    {
      DoubleRound(v, 8 * i, s);
      i := i + 1;
    }
    ghost var w := v[..];
    i := 0;
    while i < 16
      invariant 0 <= i <= 16 && forall j :: 0 <= j < 16 ==> v[j] == if j < i then Add(s[j], w[j]) else w[j]
    {
      v[i] := Add(init[i], v[i]);
      i := i + 1;
    }
    assert v[..] == Core(s);
    StoreWords(out, v);
  }

  method StoreWords(out: array<bv8>, v: array<bv32>)
    requires out.Length == 64 && v.Length == 16
    modifies out
    ensures out[..] == WordBytes(v[..])
  {
    hide ByteOf;
    var i := 0;
    while i < 16
      invariant 0 <= i <= 16 && forall j :: 0 <= j < 4 * i ==> out[j] == ByteOf(v[j / 4], j % 4)
    {
      out[4 * i] := ByteOf(v[i], 0);
      out[4 * i + 1] := ByteOf(v[i], 1);
      out[4 * i + 2] := ByteOf(v[i], 2);
      out[4 * i + 3] := ByteOf(v[i], 3);
      i := i + 1;
    }
  }

  lemma QuartersZero(s: Block)
    ensures Quarters(0, s) == s
  {
  }

  // ---------------------------------------------------------------------
  // The counter
  // ---------------------------------------------------------------------

  const TWO64: nat := TWO32 * TWO32

  /** The 64-bit block counter held in words 4 and 5. */
  function Counter(s: Block): nat {
    ValueBound(s[4]);
    ValueBound(s[5]);
    Value(s[4]) + TWO32 * Value(s[5])
  }

  function ToWord(n: nat): bv32
    requires n < TWO32
  {
    n as bv32
  }

  lemma ToWordValue(n: nat)
    requires n < TWO32
    ensures Value(ToWord(n)) == n
  {
    NumberRoundTrip(n);
  }

  /** The state with its counter advanced by `k`, modulo 2^64. */
  function At(s: Block, k: nat): Block {
    var n := (Counter(s) + k) % TWO64;
    s[4 := ToWord(n % TWO32)][5 := ToWord(n / TWO32)]
  }

  lemma CounterAt(s: Block, k: nat)
    ensures Counter(At(s, k)) == (Counter(s) + k) % TWO64
    ensures forall i :: 0 <= i < 16 && i != 4 && i != 5 ==> At(s, k)[i] == s[i]
  {
    hide Value, ToWord;
    var n := (Counter(s) + k) % TWO64;
    ToWordValue(n % TWO32);
    ToWordValue(n / TWO32);
  }

  lemma SameCounter(s: Block, t: Block)
    requires Counter(s) == Counter(t) && forall i :: 0 <= i < 16 && i != 4 && i != 5 ==> s[i] == t[i]
    ensures s == t
  {
    hide Value;
    ValueBound(s[4]);
    ValueBound(t[4]);
    assert Value(s[4]) == Counter(s) % TWO32 == Value(t[4]);
    SameValue(s[4], t[4]);
    SameValue(s[5], t[5]);
  }

  lemma AtTwice(s: Block, j: nat, k: nat)
    ensures At(At(s, j), k) == At(s, j + k) && At(s, 0) == s
  {
    hide At, Value, Counter;
    CounterAt(s, j);
    CounterAt(At(s, j), k);
    CounterAt(s, j + k);
    CounterAt(s, 0);
    CounterBound(s);
    ModTwice(Counter(s), j, k);
    SameCounter(At(At(s, j), k), At(s, j + k));
    SameCounter(At(s, 0), s);
  }

  lemma CounterBound(s: Block)
    ensures Counter(s) < TWO64
  {
    hide Value;
    ValueBound(s[4]);
    ValueBound(s[5]);
  }

  lemma ModTwice(n: nat, j: nat, k: nat)
    ensures ((n + j) % TWO64 + k) % TWO64 == (n + (j + k)) % TWO64
  {
  }

  /** The counter update of forro_encrypt_bytes. */
  function Tick(s: Block): Block {
    var t := s[4 := Succ(s[4])];
    if t[4] == 0 then t[5 := Succ(t[5])] else t
  }

  lemma TickIsNext(s: Block)
    ensures Tick(s) == At(s, 1)
  {
    hide Value, Succ, At;
    CounterAt(s, 1);
    ValueBound(s[4]);
    ValueBound(s[5]);
    NextWord(s[4]);
    NextWord(s[5]);
    WrapWord(s[4]);
    WrapWord(s[5]);
    CarryAcross(Value(s[4]), Value(s[5]));
    SameCounter(Tick(s), At(s, 1));
  }

  lemma CarryAcross(lo: nat, hi: nat)
    requires lo < TWO32 && hi < TWO32
    ensures (lo + TWO32 * hi + 1) % TWO64 ==
            if lo < TWO32 - 1 then lo + 1 + TWO32 * hi else if hi < TWO32 - 1 then TWO32 * (hi + 1) else 0
  {
  }

  lemma WrapWord(x: bv32)
    ensures Value(x) == TWO32 - 1 <==> Succ(x) == 0
    ensures Value(0) == 0
  {
    LastWord(x);
  }

  // ---------------------------------------------------------------------
  // The stream mode
  // ---------------------------------------------------------------------

  function XorByte(x: bv8, y: bv8): bv8 { x ^ y }

  lemma XorByteUndone(x: bv8, y: bv8)
    ensures XorByte(XorByte(x, y), y) == x && XorByte(0, y) == y
  {
  }

  /** Byte `i` of the key stream started at state `s`. */
  function KeyByte(s: Block, i: nat): bv8 { KeyBlock(At(s, i / 64))[i % 64] }

  /** The stream law. */
  function Stream(s: Block, m: Bytes): (c: Bytes)
    ensures |c| == |m| && forall i :: 0 <= i < |m| ==> c[i] == XorByte(m[i], KeyByte(s, i))
  {
    seq(|m|, i requires 0 <= i < |m| => XorByte(m[i], KeyByte(s, i)))
  }

  /** Number of blocks that `n` bytes use up. */
  function BlocksFor(n: nat): nat { (n + 63) / 64 }

  method StoreChunk(m: array<bv8>, c: array<bv8>, output: array<bv8>, off: nat, n: nat)
    requires n <= 64 && off + n <= m.Length && off + n <= c.Length && output.Length == 64 && output != c && output != m
    modifies c
    ensures forall i :: off <= i < off + n ==> c[i] == XorByte(old(m[i]), output[i - off])
    ensures forall i :: 0 <= i < c.Length && !(off <= i < off + n) ==> c[i] == old(c[i])
  {
    hide XorByte;
    var i := 0;
    while i < n
      invariant 0 <= i <= n
      invariant forall j :: off <= j < off + i ==> c[j] == XorByte(old(m[j]), output[j - off])
      invariant forall j :: 0 <= j < c.Length && !(off <= j < off + i) ==> c[j] == old(c[j])
      invariant forall j :: off + i <= j < m.Length ==> m[j] == old(m[j])
    {
      c[off + i] := XorByte(m[off + i], output[i]);
      i := i + 1;
    }
  }

  /**
   * forro_encrypt_bytes. The message and the output may be the same array. The pointers that
   * the C code advances are the offset `off`.
   */
  method EncryptBytes(x: array<bv32>, m: array<bv8>, c: array<bv8>, bytes: nat)
    requires x.Length == 16 && bytes <= m.Length && bytes <= c.Length
    modifies x, c
    ensures c[..bytes] == Stream(old(x[..]), old(m[..bytes])) && c[bytes..] == old(c[bytes..])
    ensures x[..] == At(old(x[..]), BlocksFor(bytes))
  {
    hide At, KeyBlock, XorByte;
    ghost var s: Block := x[..];
    AtTwice(s, 0, 0);
    if bytes == 0 { return; }
    var output := new bv8[64];
    var off := 0;
    while true
      invariant 0 <= off < bytes && off % 64 == 0 && x[..] == At(s, off / 64)
      invariant forall i :: 0 <= i < off ==> c[i] == XorByte(old(m[i]), KeyByte(s, i))
      invariant forall i :: off <= i < c.Length ==> c[i] == old(c[i])
      invariant forall i :: off <= i < m.Length ==> m[i] == old(m[i])
      decreases bytes - off
    {
      ForroBlock(output, x);
      assert output[..] == KeyBlock(At(s, off / 64));
      IncrementCounter(x);
      AtTwice(s, off / 64, 1);
      var n := if bytes - off <= 64 then bytes - off else 64;
      ChunkKeys(s, off, output[..]);
      StoreChunk(m, c, output, off, n);
      off := off + n;
      if off == bytes { break; }
    }
  }

  lemma ChunkKeys(s: Block, off: nat, output: Bytes)
    requires off % 64 == 0 && output == KeyBlock(At(s, off / 64))
    ensures forall i :: off <= i < off + 64 ==> output[i - off] == KeyByte(s, i)
  {
    hide At, KeyBlock;
  }

  method IncrementCounter(x: array<bv32>)
    requires x.Length == 16
    modifies x
    ensures x[..] == At(old(x[..]), 1)
  {
    hide At, Succ;
    TickIsNext(x[..]);
    x[4] := Succ(x[4]);
    if x[4] == 0 {
      x[5] := Succ(x[5]);
    }
    assert x[..] == Tick(old(x[..]));
  }

  /** forro_decrypt_bytes. */
  method DecryptBytes(x: array<bv32>, c: array<bv8>, m: array<bv8>, bytes: nat)
    requires x.Length == 16 && bytes <= m.Length && bytes <= c.Length
    modifies x, m
    ensures m[..bytes] == Stream(old(x[..]), old(c[..bytes])) && m[bytes..] == old(m[bytes..])
    ensures x[..] == At(old(x[..]), BlocksFor(bytes))
  {
    EncryptBytes(x, c, m, bytes);
  }

  /** forro_keystream_bytes. */
  method KeystreamBytes(x: array<bv32>, stream: array<bv8>, bytes: nat)
    requires x.Length == 16 && bytes <= stream.Length
    modifies x, stream
    ensures forall i :: 0 <= i < bytes ==> stream[i] == KeyByte(old(x[..]), i)
    ensures stream[bytes..] == old(stream[bytes..]) && x[..] == At(old(x[..]), BlocksFor(bytes))
  {
    hide At, KeyByte, XorByte;
    ghost var s := x[..];
    var i := 0;
    while i < bytes
      invariant 0 <= i <= bytes && x[..] == s
      invariant forall j :: 0 <= j < i ==> stream[j] == 0
      invariant stream[bytes..] == old(stream[bytes..])
    {
      stream[i] := 0;
      i := i + 1;
    }
    EncryptBytes(x, stream, stream, bytes);
    forall j | 0 <= j < bytes
      ensures stream[j] == KeyByte(s, j)
    {
      XorByteUndone(0, KeyByte(s, j));
      assert stream[j] == stream[..bytes][j];
    }
  }

  /** Decrypting from the state encryption started in restores the message. */
  lemma DecryptEncrypt(s: Block, m: Bytes)
    ensures Stream(s, Stream(s, m)) == m
  {
    hide KeyByte, XorByte;
    forall i | 0 <= i < |m|
      ensures Stream(s, Stream(s, m))[i] == m[i]
    {
      XorByteUndone(m[i], KeyByte(s, i));
    }
  }

  /** Encrypting in two calls equals one call when the first part is a whole number of blocks. */
  lemma StreamSplit(s: Block, m1: Bytes, m2: Bytes)
    requires |m1| % 64 == 0
    ensures Stream(s, m1 + m2) == Stream(s, m1) + Stream(At(s, BlocksFor(|m1|)), m2)
    ensures At(At(s, BlocksFor(|m1|)), BlocksFor(|m2|)) == At(s, BlocksFor(|m1| + |m2|))
  {
    hide At, KeyBlock, XorByte, BlocksFor;
    var s' := At(s, BlocksFor(|m1|));
    AtTwice(s, BlocksFor(|m1|), BlocksFor(|m2|));
    WholeBlocks(|m1|, |m2|);
    var c, c1, c2 := Stream(s, m1 + m2), Stream(s, m1), Stream(s', m2);
    forall i | 0 <= i < |m2|
      ensures c[|m1| + i] == c2[i]
    {
      WholeBlocks(|m1|, i);
      AtTwice(s, BlocksFor(|m1|), i / 64);
      assert KeyByte(s, |m1| + i) == KeyByte(s', i);
      assert (m1 + m2)[|m1| + i] == m2[i];
    }
    assert forall i :: 0 <= i < |m1| ==> c[i] == c1[i];
    assert c == c1 + c2 by { Joined(c, c1, c2); }
  }

  lemma Joined(c: Bytes, c1: Bytes, c2: Bytes)
    requires |c| == |c1| + |c2| && forall i :: 0 <= i < |c1| ==> c[i] == c1[i]
    requires forall i :: 0 <= i < |c2| ==> c[|c1| + i] == c2[i]
    ensures c == c1 + c2
  {
    forall i | 0 <= i < |c|
      ensures c[i] == (c1 + c2)[i]
    {
      if i >= |c1| {
        assert c[|c1| + (i - |c1|)] == c2[i - |c1|];
      }
    }
  }

  lemma WholeBlocks(n: nat, i: nat)
    requires n % 64 == 0
    ensures (n + i) / 64 == BlocksFor(n) + i / 64 && (n + i) % 64 == i % 64
    ensures BlocksFor(n + i) == BlocksFor(n) + BlocksFor(i)
  {
  }

  // ---------------------------------------------------------------------
  // State setup
  // ---------------------------------------------------------------------

  /** The bytes of "voltadaasabranca". */
  const SIGMA: Bytes := [118, 111, 108, 116, 97, 100, 97, 97, 115, 97, 98, 114, 97, 110, 99, 97]

  /** Word `i` of the state after forro_keysetup. */
  function KeyWord(s: Block, key: Bytes, i: nat): bv32
    requires |key| == 32 && i < 16
  {
    if i < 4 then LoadAt(key, 4 * i)
    else if i < 6 then s[i]
    else if i < 8 then LoadAt(SIGMA, 4 * i - 24)
    else if i < 12 then LoadAt(key, 4 * i - 16)
    else if i < 14 then s[i]
    else LoadAt(SIGMA, 4 * i - 48)
  }

  function KeySetup(s: Block, key: Bytes): (r: Block)
    requires |key| == 32
    ensures forall i :: 0 <= i < 16 ==> r[i] == KeyWord(s, key, i)
  {
    seq(16, i requires 0 <= i < 16 => KeyWord(s, key, i))
  }

  /** Word `i` of the state after forro_versetup. */
  function VerWord(s: Block, round: Bytes, device: Bytes, i: nat): bv32
    requires |round| == |device| == 16 && i < 16
  {
    if i < 4 then s[i]
    else if i < 6 then LoadAt(round, 4 * i - 16)
    else if i < 8 then LoadAt(device, 4 * i - 24)
    else if i < 12 then s[i]
    else if i < 14 then LoadAt(round, 4 * i - 40)
    else LoadAt(device, 4 * i - 48)
  }

  function VerSetup(s: Block, round: Bytes, device: Bytes): (r: Block)
    requires |round| == |device| == 16
    ensures forall i :: 0 <= i < 16 ==> r[i] == VerWord(s, round, device, i)
  {
    seq(16, i requires 0 <= i < 16 => VerWord(s, round, device, i))
  }

  /** Two neighbouring state words from eight bytes. */
  method LoadPair(x: array<bv32>, w: nat, b: Bytes, i: nat)
    requires x.Length == 16 && w + 1 < 16 && i + 8 <= |b|
    modifies x
    ensures x[w] == LoadAt(b, i) && x[w + 1] == LoadAt(b, i + 4)
    ensures forall j :: 0 <= j < 16 && j != w && j != w + 1 ==> x[j] == old(x[j])
  {
    x[w] := LoadAt(b, i);
    x[w + 1] := LoadAt(b, i + 4);
  }

  /** A row of four state words from sixteen bytes. */
  method LoadRow(x: array<bv32>, w: nat, b: Bytes, i: nat)
    requires x.Length == 16 && w + 4 <= 16 && i + 16 <= |b|
    modifies x
    ensures x[w] == LoadAt(b, i) && x[w + 1] == LoadAt(b, i + 4) && x[w + 2] == LoadAt(b, i + 8) && x[w + 3] == LoadAt(b, i + 12)
    ensures forall j :: 0 <= j < 16 && !(w <= j < w + 4) ==> x[j] == old(x[j])
  {
    hide LoadAt;
    LoadPair(x, w, b, i);
    LoadPair(x, w + 2, b, i + 8);
  }

  /** forro_keysetup. */
  method SetKey(x: array<bv32>, key: Bytes)
    requires x.Length == 16 && |key| == 32
    modifies x
    ensures x[..] == KeySetup(old(x[..]), key)
    ensures x[0] == LoadAt(key, 0) && x[1] == LoadAt(key, 4) && x[2] == LoadAt(key, 8) && x[3] == LoadAt(key, 12)
    ensures x[8] == LoadAt(key, 16) && x[9] == LoadAt(key, 20) && x[10] == LoadAt(key, 24) && x[11] == LoadAt(key, 28)
    ensures x[6] == 0x746c_6f76 && x[7] == 0x6161_6461 && x[14] == 0x7262_6173 && x[15] == 0x6163_6e61
    ensures x[4] == old(x[4]) && x[5] == old(x[5]) && x[12] == old(x[12]) && x[13] == old(x[13])
  {
    hide LoadAt;
    LoadRow(x, 0, key, 0);
    LoadPair(x, 6, SIGMA, 0);
    LoadRow(x, 8, key, 16);
    LoadPair(x, 14, SIGMA, 8);
    SigmaWords();
    KeySetupIs(old(x[..]), x[..], key);
  }

  lemma KeySetupIs(s: Block, t: Block, key: Bytes)
    requires |key| == 32
    requires t[0] == LoadAt(key, 0) && t[1] == LoadAt(key, 4) && t[2] == LoadAt(key, 8) && t[3] == LoadAt(key, 12)
    requires t[8] == LoadAt(key, 16) && t[9] == LoadAt(key, 20) && t[10] == LoadAt(key, 24) && t[11] == LoadAt(key, 28)
    requires t[6] == LoadAt(SIGMA, 0) && t[7] == LoadAt(SIGMA, 4) && t[14] == LoadAt(SIGMA, 8) && t[15] == LoadAt(SIGMA, 12)
    requires t[4] == s[4] && t[5] == s[5] && t[12] == s[12] && t[13] == s[13]
    ensures t == KeySetup(s, key)
  {
    hide LoadAt;
  }

  /** The constants of the state: "volt", "adaa", "sabr" and "anca". */
  lemma SigmaWords()
    ensures LoadAt(SIGMA, 0) == 0x746c_6f76 && LoadAt(SIGMA, 4) == 0x6161_6461
    ensures LoadAt(SIGMA, 8) == 0x7262_6173 && LoadAt(SIGMA, 12) == 0x6163_6e61
  {
  }

  /** forro_versetup. */
  method SetVerifier(x: array<bv32>, round: Bytes, device: Bytes)
    requires x.Length == 16 && |round| == |device| == 16
    modifies x
    ensures x[..] == VerSetup(old(x[..]), round, device)
    ensures x[4] == LoadAt(round, 0) && x[5] == LoadAt(round, 4) && x[12] == LoadAt(round, 8) && x[13] == LoadAt(round, 12)
    ensures x[6] == LoadAt(device, 0) && x[7] == LoadAt(device, 4) && x[14] == LoadAt(device, 8) && x[15] == LoadAt(device, 12)
    ensures x[..4] == old(x[..4]) && x[8..12] == old(x[8..12])
  {
    hide LoadAt;
    LoadPair(x, 4, round, 0);
    LoadPair(x, 6, device, 0);
    LoadPair(x, 12, round, 8);
    LoadPair(x, 14, device, 8);
  }
}
