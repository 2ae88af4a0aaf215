/**
 * The cipher's round as an explicit flow of words, and a known answer of the block function reckoned
 * with it: the state with 1 in word 4 and 0 elsewhere, from which the proof of a zero key, a zero
 * identifier and the round 1 is computed.
 */
module KnownAnswer {
  import opened Words
  import opened Forro

  // ---------------------------------------------------------------------
  // The quarter-round and the eight of a double round
  // ---------------------------------------------------------------------

  lemma RotatesBy10(x: bv32)
    ensures Rotl10(x) == x.RotateLeft(10)
  {
  }

  lemma RotatesBy27(x: bv32)
    ensures Rotl27(x) == x.RotateLeft(27)
  {
  }

  lemma RotatesBy8(x: bv32)
    ensures Rotl8(x) == x.RotateLeft(8)
  {
  }

  /** The macro Q as one expression in the five words. */
  function QuarterRound(q: Five): Five {
    var d := Add(q.d, q.e);
    var c := Xor(q.c, d);
    var b := Rotl10(Add(q.b, c));
    var a := Add(q.a, b);
    var e := Xor(q.e, a);
    var d' := Rotl27(Add(d, e));
    var c' := Add(c, d');
    var b' := Xor(b, c');
    Five(Rotl8(Add(a, b')), b', c', d', e)
  }

  /** The twelve steps make that expression. */
  lemma StagesAreQuarterRound(q: Five)
    ensures Stages(12, q) == QuarterRound(q)
  {
    hide Add, Xor, Rotl10, Rotl27, Rotl8;
    assert Stages(3, q) == Stage(2, Stage(1, Stage(0, q))) by { assert Stages(1, q) == Stage(0, q); }
    var q3 := Stages(3, q);
    assert Stages(6, q) == Stage(5, Stage(4, Stage(3, q3))) by { assert Stages(4, q) == Stage(3, q3); }
    var q6 := Stages(6, q);
    assert Stages(9, q) == Stage(8, Stage(7, Stage(6, q6))) by { assert Stages(7, q) == Stage(6, q6); }
    var q9 := Stages(9, q);
    assert Stages(12, q) == Stage(11, Stage(10, Stage(9, q9))) by { assert Stages(10, q) == Stage(9, q9); }
  }

  /**
   * Four columns of a matrix with four words a row, then four diagonals, each with the word of the
   * first row that stands left of its own.
   */
  lemma RowGeometry(n: nat)
    requires n < 4
    ensures Row(n) == Index(n, n + 4, n + 8, n + 12, (n + 3) % 4)
    ensures Row(n + 4) == Index(n, 4 + (n + 1) % 4, 8 + (n + 2) % 4, 12 + (n + 3) % 4, (n + 3) % 4)
  {
  }

  /** Five words replaced one after the other. */
  function Write(s: Block, ix: Index, r: Five): Block
    requires Good(ix)
  {
    s[ix.a := r.a][ix.b := r.b][ix.c := r.c][ix.d := r.d][ix.e := r.e]
  }

  lemma TurnWrites(s: Block, n: nat, r: Five)
    requires n < 8 && r == QuarterRound(Get(s, Row(n)))
    ensures Quarter(s, Row(n)) == Write(s, Row(n), r)
  {
    hide Stages, QuarterRound;
    StagesAreQuarterRound(Get(s, Row(n)));
  }

  lemma AfterColumns(s: Block, r0: Five, r1: Five, r2: Five, r3: Five, w: Block)
    requires w == Write(Write(Write(Write(s, Row(0), r0), Row(1), r1), Row(2), r2), Row(3), r3)
    ensures w[..4] == [r1.e, r2.e, r3.e, r3.a] && w[4..8] == [r0.b, r1.b, r2.b, r3.b]
    ensures w[8..12] == [r0.c, r1.c, r2.c, r3.c] && w[12..] == [r0.d, r1.d, r2.d, r3.d]
  {
  }

  lemma AfterDiagonals(s: Block, r0: Five, r1: Five, r2: Five, r3: Five, w: Block)
    requires w == Write(Write(Write(Write(s, Row(4), r0), Row(5), r1), Row(6), r2), Row(7), r3)
    ensures w[..4] == [r1.e, r2.e, r3.e, r3.a] && w[4..8] == [r3.b, r0.b, r1.b, r2.b]
  {
  }

  lemma BelowDiagonals(s: Block, r0: Five, r1: Five, r2: Five, r3: Five, w: Block)
    requires w == Write(Write(Write(Write(s, Row(4), r0), Row(5), r1), Row(6), r2), Row(7), r3)
    ensures w[8..12] == [r2.c, r3.c, r0.c, r1.c] && w[12..] == [r1.d, r2.d, r3.d, r0.d]
  {
  }

  lemma ColumnReads(s: Block, r0: Five, r1: Five)
    ensures Get(s, Row(0)) == Five(s[0], s[4], s[8], s[12], s[3])
    ensures var t := Write(s, Row(0), r0);
            Get(t, Row(1)) == Five(s[1], s[5], s[9], s[13], r0.a)
    ensures var u := Write(Write(s, Row(0), r0), Row(1), r1);
            Get(u, Row(2)) == Five(s[2], s[6], s[10], s[14], r1.a)
  {
  }

  lemma LastColumnReads(s: Block, r0: Five, r1: Five, r2: Five)
    ensures var v := Write(Write(Write(s, Row(0), r0), Row(1), r1), Row(2), r2);
            Get(v, Row(3)) == Five(r0.e, s[7], s[11], s[15], r2.a)
  {
  }

  /** The four columns: word n of the first row is changed by its own column and by the next one. */
  lemma Columns(s: Block, r0: Five, r1: Five, r2: Five, r3: Five)
    requires r0 == QuarterRound(Five(s[0], s[4], s[8], s[12], s[3]))
    requires r1 == QuarterRound(Five(s[1], s[5], s[9], s[13], r0.a))
    requires r2 == QuarterRound(Five(s[2], s[6], s[10], s[14], r1.a))
    requires r3 == QuarterRound(Five(r0.e, s[7], s[11], s[15], r2.a))
    ensures var w := FourTurns(s, 0);
            && w[..4] == [r1.e, r2.e, r3.e, r3.a] && w[4..8] == [r0.b, r1.b, r2.b, r3.b]
            && w[8..12] == [r0.c, r1.c, r2.c, r3.c] && w[12..] == [r0.d, r1.d, r2.d, r3.d]
  {
    hide QuarterRound, Quarter, Get, Write, Row;
    ColumnReads(s, r0, r1);
    LastColumnReads(s, r0, r1, r2);
    TurnWrites(s, 0, r0);
    var t := Write(s, Row(0), r0);
    TurnWrites(t, 1, r1);
    var u := Write(t, Row(1), r1);
    TurnWrites(u, 2, r2);
    var v := Write(u, Row(2), r2);
    TurnWrites(v, 3, r3);
    AfterColumns(s, r0, r1, r2, r3, FourTurns(s, 0));
  }

  lemma DiagonalReads(s: Block, r0: Five, r1: Five)
    ensures Get(s, Row(4)) == Five(s[0], s[5], s[10], s[15], s[3])
    ensures var t := Write(s, Row(4), r0);
            Get(t, Row(5)) == Five(s[1], s[6], s[11], s[12], r0.a)
    ensures var u := Write(Write(s, Row(4), r0), Row(5), r1);
            Get(u, Row(6)) == Five(s[2], s[7], s[8], s[13], r1.a)
  {
  }

  lemma LastDiagonalReads(s: Block, r0: Five, r1: Five, r2: Five)
    ensures var v := Write(Write(Write(s, Row(4), r0), Row(5), r1), Row(6), r2);
            Get(v, Row(7)) == Five(r0.e, s[4], s[9], s[14], r2.a)
  {
  }

  /** The four diagonals. */
  lemma Diagonals(s: Block, r0: Five, r1: Five, r2: Five, r3: Five)
    requires r0 == QuarterRound(Five(s[0], s[5], s[10], s[15], s[3]))
    requires r1 == QuarterRound(Five(s[1], s[6], s[11], s[12], r0.a))
    requires r2 == QuarterRound(Five(s[2], s[7], s[8], s[13], r1.a))
    requires r3 == QuarterRound(Five(r0.e, s[4], s[9], s[14], r2.a))
    ensures var w := FourTurns(s, 4);
            && w[..4] == [r1.e, r2.e, r3.e, r3.a] && w[4..8] == [r3.b, r0.b, r1.b, r2.b]
            && w[8..12] == [r2.c, r3.c, r0.c, r1.c] && w[12..] == [r1.d, r2.d, r3.d, r0.d]
  {
    hide QuarterRound, Quarter, Get, Write, Row;
    DiagonalReads(s, r0, r1);
    LastDiagonalReads(s, r0, r1, r2);
    TurnWrites(s, 4, r0);
    var t := Write(s, Row(4), r0);
    TurnWrites(t, 5, r1);
    var u := Write(t, Row(5), r1);
    TurnWrites(u, 6, r2);
    var v := Write(u, Row(6), r2);
    TurnWrites(v, 7, r3);
    AfterDiagonals(s, r0, r1, r2, r3, FourTurns(s, 4));
    BelowDiagonals(s, r0, r1, r2, r3, FourTurns(s, 4));
  }

  /** Four quarter-rounds of a double round, from the n-th on. */
  function FourTurns(s: Block, n: nat): Block
    requires n <= 4
  {
    Quarter(Quarter(Quarter(Quarter(s, Row(n)), Row(n + 1)), Row(n + 2)), Row(n + 3))
  }

  lemma QuartersFour(n: nat, s: Block)
    requires n % 4 == 0
    ensures Quarters(n + 4, s) == FourTurns(Quarters(n, s), n % 8)
  {
    hide Quarter, Row;
    assert (n + 1) % 8 == n % 8 + 1 && (n + 2) % 8 == n % 8 + 2 && (n + 3) % 8 == n % 8 + 3;
    assert Quarters(n + 1, s) == Quarter(Quarters(n, s), Row(n % 8));
    assert Quarters(n + 2, s) == Quarter(Quarters(n + 1, s), Row((n + 1) % 8));
    assert Quarters(n + 3, s) == Quarter(Quarters(n + 2, s), Row((n + 2) % 8));
    assert Quarters(n + 4, s) == Quarter(Quarters(n + 3, s), Row((n + 3) % 8));
  }

  lemma SameSlices(w: Block, x: Block)
    requires w[..4] == x[..4] && w[4..8] == x[4..8] && w[8..12] == x[8..12] && w[12..] == x[12..]
    ensures w == x
  {
    assert w == w[..4] + w[4..8] + w[8..12] + w[12..];
    assert x == x[..4] + x[4..8] + x[8..12] + x[12..];
  }

  // ---------------------------------------------------------------------
  // The known answer
  // ---------------------------------------------------------------------

  /** The state before the rounds, and after every four quarter-rounds. */
  function S0(): Block { [0, 0, 0, 0, 1, 0, 0, 0, 0, 0, 0, 0, 0, 0, 0, 0] }

  function S1(): Block {
    [0x20882000, 0x84a30870, 0x8db62f09, 0x37ed964b, 0x420, 0x218ca200, 0x292d20b5, 0xa79924de,
     0x20, 0x010ca200, 0xa12c2887, 0x0407e066, 0x20, 0x01048200, 0x948a2845, 0xd5def8b5]
  }

  function S2(): Block {
    [0xf722701c, 0x6076d8ed, 0x97b0e4fe, 0x0e7aa785, 0x9f1b8116, 0xf1473673, 0x7563d902, 0x93af3d83,
     0xdda3e812, 0x9cb4d109, 0x4461294a, 0x08d70d68, 0x1764c0e8, 0x20e989bb, 0x94f3e955, 0x978081c3]
  }

  function S3(): Block {
    [0xf74ac7de, 0xa4189002, 0xe81802fa, 0xdd54e746, 0x3c70588c, 0x81983468, 0x45fc8767, 0x4527fe72,
     0x5c760ed2, 0x8c46dc08, 0xf7c0c788, 0xed450a04, 0x63f98e53, 0x658a9ac1, 0x3138117a, 0x634a2eca]
  }

  function S4(): Block {
    [0x696ae712, 0x9ad0bf1c, 0xcb75b069, 0x74f52088, 0x439fc375, 0x91ae7b27, 0xdb7dc0df, 0x868ebb32,
     0xd5665967, 0x7900c151, 0x71b67bc4, 0x0f6dbfa6, 0x76f542ee, 0x85395da1, 0x2c62721d, 0xba56aa2c]
  }

  function S5(): Block {
    [0x01517650, 0x367d8859, 0x28601ea5, 0x1ef5db4d, 0x2eae3431, 0xc98f174d, 0x21067217, 0x34df3a98,
     0x81582e39, 0xba1c6ab1, 0xd8b24f32, 0x9e74a329, 0x42cbf428, 0xccae00f9, 0x6ab1a302, 0xb898b375]
  }

  function S6(): Block {
    [0x30721b67, 0xcc29d45c, 0x4ec88817, 0xe302f7c1, 0x0cac4bcc, 0x200fa37d, 0x2f91a391, 0x0414e1c6,
     0x14921c12, 0x8a5f4be1, 0x0f6b541e, 0x9074014f, 0xf9ca79fe, 0xd46d34eb, 0xadabc352, 0x002e922e]
  }

  function S7(): Block {
    [0x4b050bb1, 0x428bd7ca, 0x5784dd61, 0xfe489701, 0xbbcd57b2, 0x8f8add1a, 0x3ea73c71, 0xc932d311,
     0x9528b0e6, 0x2dbf4f54, 0x6758b751, 0xb542531d, 0xccc94339, 0xba26656d, 0xced3db00, 0xb63818c3]
  }

  function S8(): Block {
    [0xc52a36bc, 0x8e05368a, 0x6dd7eaf3, 0xd102d47b, 0xd643debc, 0x79160488, 0xddaf7dbe, 0xd25cd336,
     0x13ba7901, 0xaaba1b65, 0xf2c0b905, 0x2ff36497, 0x241e0a02, 0x4efcd268, 0xf02834a6, 0x1ee8a070]
  }

  function S9(): Block {
    [0xd0997e8b, 0x1407f764, 0x1688c6af, 0x3829f5e6, 0x0fad5e2d, 0x0ca64b06, 0x278c67d9, 0x860b45ee,
     0x75b5bcde, 0x9e4f273d, 0x349e368f, 0xf7e053dd, 0x8f1b1562, 0x0880716a, 0xbcc8efb9, 0x3d60ac4e]
  }

  function S10(): Block {
    [0xb684224a, 0xd6aa5fad, 0xf549239d, 0x8dd10bed, 0x740f0f49, 0xcb9d704b, 0xbda43b3c, 0x9ccbe176,
     0x30fc6ecb, 0x814244d2, 0x20e2757d, 0x52cc0c55, 0x9fdc9a21, 0xc79ca6d6, 0xa9f24fad, 0xdfcde0c2]
  }

  function S11(): Block {
    [0x431c9bf1, 0xac81b9f6, 0x29dc4d2b, 0xdb5c5914, 0x2700daf5, 0xa29549f9, 0xd4ef8906, 0x167ad2ef,
     0xa460e0b0, 0x6d15f61d, 0xa3709927, 0x5c51e0e7, 0x870f17eb, 0x3f7f8639, 0x58b6ec9f, 0x770b3791]
  }

  function S12(): Block {
    [0xb9a7c8e1, 0x4ec24632, 0xf3abfb93, 0x490d967a, 0x3f3e089e, 0xc46e12ee, 0x90716edb, 0x89322e3c,
     0x31880ba4, 0x34ea3953, 0x7523fca0, 0x24c845b8, 0x20caa074, 0xe1d4b00a, 0xe8a81f3c, 0x840cf31e]
  }

  function S13(): Block {
    [0xab1bae9d, 0x0cc8245f, 0xb61f1be2, 0x26b89354, 0xc86b34b5, 0x7c9933c5, 0x26343d18, 0x881315be,
     0xf17c96eb, 0x4e5b2031, 0x3bade916, 0x9873b02e, 0x992c59a1, 0x15bc829b, 0xc897f17c, 0xbda1c641]
  }

  function S14(): Block {
    [0xdcaac00c, 0xb2fff87c, 0x313ec1ed, 0xc4d230b9, 0xc2e7243b, 0x26ca0418, 0x026e4824, 0xb8f71d9c,
     0x1146b472, 0xec2e4ea1, 0x655b256a, 0x9fd88a9e, 0x17655a06, 0x1daf5dc6, 0x0e0dd0fc, 0x856374e7]
  }

  lemma Turns1()
    ensures FourTurns(S0(), 0) == S1()
  {
    hide FourTurns;
    Columns(S0(),
      Five(0x00082000, 0x420, 0x20, 0x20, 0x400),
      Five(0x0ca20042, 0x218ca200, 0x010ca200, 0x01048200, 0x20882000),
      Five(0x2e28e7b1, 0x292d20b5, 0xa12c2887, 0x948a2845, 0x84a30870),
      Five(0x37ed964b, 0xa79924de, 0x0407e066, 0xd5def8b5, 0x8db62f09));
    SameSlices(FourTurns(S0(), 0), S1());
  }

  lemma Turns2()
    ensures FourTurns(S1(), 4) == S2()
  {
    hide FourTurns;
    Diagonals(S1(),
      Five(0xf575acc6, 0xf1473673, 0x4461294a, 0x978081c3, 0xe243a972),
      Five(0xbbb5dc77, 0x7563d902, 0x08d70d68, 0x1764c0e8, 0xf722701c),
      Five(0x72421d6f, 0x93af3d83, 0xdda3e812, 0x20e989bb, 0x6076d8ed),
      Five(0x0e7aa785, 0x9f1b8116, 0x9cb4d109, 0x94f3e955, 0x97b0e4fe));
    SameSlices(FourTurns(S1(), 4), S2());
  }

  lemma Turns3()
    ensures FourTurns(S2(), 0) == S3()
  {
    hide FourTurns;
    Columns(S2(),
      Five(0x991f0693, 0x3c70588c, 0x5c760ed2, 0x63f98e53, 0x595261ff),
      Five(0xedf5b5ef, 0x81983468, 0x8c46dc08, 0x658a9ac1, 0xf74ac7de),
      Five(0xe9ad548f, 0x45fc8767, 0xf7c0c788, 0x3138117a, 0xa4189002),
      Five(0xdd54e746, 0x4527fe72, 0xed450a04, 0x634a2eca, 0xe81802fa));
    SameSlices(FourTurns(S2(), 0), S3());
  }

  lemma Turns4()
    ensures FourTurns(S3(), 4) == S4()
  {
    hide FourTurns;
    Diagonals(S3(),
      Five(0x1143e869, 0x91ae7b27, 0x71b67bc4, 0xba56aa2c, 0x0a362f87),
      Five(0xa6d05a53, 0xdb7dc0df, 0x0f6dbfa6, 0x76f542ee, 0x696ae712),
      Five(0x8fa081c2, 0x868ebb32, 0xd5665967, 0x85395da1, 0x9ad0bf1c),
      Five(0x74f52088, 0x439fc375, 0x7900c151, 0x2c62721d, 0xcb75b069));
    SameSlices(FourTurns(S3(), 4), S4());
  }

  lemma Turns5()
    ensures FourTurns(S4(), 0) == S5()
  {
    hide FourTurns;
    Columns(S4(),
      Five(0x0f354b48, 0x2eae3431, 0x81582e39, 0x42cbf428, 0x6d942192),
      Five(0xf35465d7, 0xc98f174d, 0xba1c6ab1, 0xccae00f9, 0x01517650),
      Five(0x305fa5e6, 0x21067217, 0xd8b24f32, 0x6ab1a302, 0x367d8859),
      Five(0x1ef5db4d, 0x34df3a98, 0x9e74a329, 0xb898b375, 0x28601ea5));
    SameSlices(FourTurns(S4(), 0), S5());
  }

  lemma Turns6()
    ensures FourTurns(S5(), 4) == S6()
  {
    hide FourTurns;
    Diagonals(S5(),
      Five(0xc6113050, 0x200fa37d, 0x0f6b541e, 0x002e922e, 0x2e43b6fe),
      Five(0xf4cec825, 0x2f91a391, 0x9074014f, 0xf9ca79fe, 0x30721b67),
      Five(0xfbfe3f3c, 0x0414e1c6, 0x14921c12, 0xd46d34eb, 0xcc29d45c),
      Five(0xe302f7c1, 0x0cac4bcc, 0x8a5f4be1, 0xadabc352, 0x4ec88817));
    SameSlices(FourTurns(S5(), 4), S6());
  }

  lemma Turns7()
    ensures FourTurns(S6(), 0) == S7()
  {
    hide FourTurns;
    Columns(S6(),
      Five(0x255a6d1b, 0xbbcd57b2, 0x9528b0e6, 0xccc94339, 0xbc5af57a),
      Five(0xea43c4fd, 0x8f8add1a, 0x2dbf4f54, 0xba26656d, 0x4b050bb1),
      Five(0x6f4fa8e7, 0x3ea73c71, 0x6758b751, 0xced3db00, 0x428bd7ca),
      Five(0xfe489701, 0xc932d311, 0xb542531d, 0xb63818c3, 0x5784dd61));
    SameSlices(FourTurns(S6(), 0), S7());
  }

  lemma Turns8()
    ensures FourTurns(S7(), 4) == S8()
  {
    hide FourTurns;
    Diagonals(S7(),
      Five(0xf1cdc64f, 0x79160488, 0xf2c0b905, 0x1ee8a070, 0x28935e3f),
      Five(0x976eb112, 0xddaf7dbe, 0x2ff36497, 0x241e0a02, 0xc52a36bc),
      Five(0xc85aceeb, 0xd25cd336, 0x13ba7901, 0x4efcd268, 0x8e05368a),
      Five(0xd102d47b, 0xd643debc, 0xaaba1b65, 0xf02834a6, 0x6dd7eaf3));
    SameSlices(FourTurns(S7(), 4), S8());
  }

  lemma Turns9()
    ensures FourTurns(S8(), 0) == S9()
  {
    hide FourTurns;
    Columns(S8(),
      Five(0xf077dc4e, 0x0fad5e2d, 0x75b5bcde, 0x8f1b1562, 0xee41cdd4),
      Five(0x94edcb2d, 0x0ca64b06, 0x9e4f273d, 0x0880716a, 0xd0997e8b),
      Five(0x76a422a8, 0x278c67d9, 0x349e368f, 0xbcc8efb9, 0x1407f764),
      Five(0x3829f5e6, 0x860b45ee, 0xf7e053dd, 0x3d60ac4e, 0x1688c6af));
    SameSlices(FourTurns(S8(), 0), S9());
  }

  lemma Turns10()
    ensures FourTurns(S9(), 4) == S10()
  {
    hide FourTurns;
    Diagonals(S9(),
      Five(0xb5f40c87, 0xcb9d704b, 0x20e2757d, 0xdfcde0c2, 0x84317627),
      Five(0x146a09c1, 0xbda43b3c, 0x52cc0c55, 0x9fdc9a21, 0xb684224a),
      Five(0x8c37e25f, 0x9ccbe176, 0x30fc6ecb, 0xc79ca6d6, 0xd6aa5fad),
      Five(0x8dd10bed, 0x740f0f49, 0x814244d2, 0xa9f24fad, 0xf549239d));
    SameSlices(FourTurns(S9(), 4), S10());
  }

  lemma Turns11()
    ensures FourTurns(S10(), 0) == S11()
  {
    hide FourTurns;
    Columns(S10(),
      Five(0xe5378460, 0x2700daf5, 0xa460e0b0, 0x870f17eb, 0xb4355762),
      Five(0xc0698a48, 0xa29549f9, 0x6d15f61d, 0x3f7f8639, 0x431c9bf1),
      Five(0xd7bcc441, 0xd4ef8906, 0xa3709927, 0x58b6ec9f, 0xac81b9f6),
      Five(0xdb5c5914, 0x167ad2ef, 0x5c51e0e7, 0x770b3791, 0x29dc4d2b));
    SameSlices(FourTurns(S10(), 0), S11());
  }

  lemma Turns12()
    ensures FourTurns(S11(), 4) == S12()
  {
    hide FourTurns;
    Diagonals(S11(),
      Five(0xd89d2db8, 0xc46e12ee, 0x7523fca0, 0x840cf31e, 0x2f36d32b),
      Five(0xac5434f1, 0x90716edb, 0x24c845b8, 0x20caa074, 0xb9a7c8e1),
      Five(0xc8a0ff6b, 0x89322e3c, 0x31880ba4, 0xe1d4b00a, 0x4ec24632),
      Five(0x490d967a, 0x3f3e089e, 0x34ea3953, 0xe8a81f3c, 0xf3abfb93));
    SameSlices(FourTurns(S11(), 4), S12());
  }

  lemma Turns13()
    ensures FourTurns(S12(), 0) == S13()
  {
    hide FourTurns;
    Columns(S12(),
      Five(0x2a9ff4bb, 0xc86b34b5, 0xf17c96eb, 0x992c59a1, 0xbbb2fd45),
      Five(0x1d8debfe, 0x7c9933c5, 0x4e5b2031, 0x15bc829b, 0xab1bae9d),
      Five(0x7a0cb937, 0x26343d18, 0x3bade916, 0xc897f17c, 0x0cc8245f),
      Five(0x26b89354, 0x881315be, 0x9873b02e, 0xbda1c641, 0xb61f1be2));
    SameSlices(FourTurns(S12(), 0), S13());
  }

  lemma Turns14()
    ensures FourTurns(S13(), 4) == S14()
  {
    hide FourTurns;
    Diagonals(S13(),
      Five(0x76d42715, 0x26ca0418, 0x655b256a, 0x856374e7, 0xc814435b),
      Five(0xed2f3dac, 0x026e4824, 0x9fd88a9e, 0x17655a06, 0xdcaac00c),
      Five(0xc7e36c18, 0xb8f71d9c, 0x1146b472, 0x1daf5dc6, 0xb2fff87c),
      Five(0xc4d230b9, 0xc2e7243b, 0xec2e4ea1, 0x0e0dd0fc, 0x313ec1ed));
    SameSlices(FourTurns(S13(), 4), S14());
  }

  lemma Onward(n: nat, s: Block, t: Block, u: Block)
    requires n % 4 == 0 && Quarters(n, s) == t && FourTurns(t, n % 8) == u
    ensures Quarters(n + 4, s) == u
  {
    hide Quarters, FourTurns;
    QuartersFour(n, s);
  }

  lemma AllTurns()
    ensures Quarters(56, S0()) == S14()
  {
    hide Quarters, FourTurns, S0, S1, S2, S3, S4, S5, S6, S7, S8, S9, S10, S11, S12, S13, S14;
    QuartersZero(S0());
    Turns1();
    Onward(0, S0(), S0(), S1());
    Turns2();
    Onward(4, S0(), S1(), S2());
    Turns3();
    Onward(8, S0(), S2(), S3());
    Turns4();
    Onward(12, S0(), S3(), S4());
    Turns5();
    Onward(16, S0(), S4(), S5());
    Turns6();
    Onward(20, S0(), S5(), S6());
    Turns7();
    Onward(24, S0(), S6(), S7());
    Turns8();
    Onward(28, S0(), S7(), S8());
    Turns9();
    Onward(32, S0(), S8(), S9());
    Turns10();
    Onward(36, S0(), S9(), S10());
    Turns11();
    Onward(40, S0(), S10(), S11());
    Turns12();
    Onward(44, S0(), S11(), S12());
    Turns13();
    Onward(48, S0(), S12(), S13());
    Turns14();
    Onward(52, S0(), S13(), S14());
  }

  lemma AddZero(x: bv32)
    ensures Add(0, x) == x
  {
  }

  /** The words of the key block: seven double rounds, and the sum with the state before. */
  lemma AnswerWords()
    ensures Core(S0()) == [0xdcaac00c, 0xb2fff87c, 0x313ec1ed, 0xc4d230b9, 0xc2e7243c, 0x26ca0418, 0x026e4824, 0xb8f71d9c,
                           0x1146b472, 0xec2e4ea1, 0x655b256a, 0x9fd88a9e, 0x17655a06, 0x1daf5dc6, 0x0e0dd0fc, 0x856374e7]
  {
    hide Quarters, Add;
    AllTurns();
    AddIs(1, S14()[4]);
    forall x: bv32 { AddZero(x); }
  }

  /** The first bytes of the key block. */
  lemma AnswerBytes()
    ensures KeyBlock(S0())[..8] == [0x0c, 0xc0, 0xaa, 0xdc, 0x7c, 0xf8, 0xff, 0xb2]
  {
    hide Core;
    AnswerWords();
  }
}
