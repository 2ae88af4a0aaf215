/**
 * The entries that TNA/bfrt_python/setup.py installs in the switch: the quarter-round
 * schedule spread over pipeline stages, and the per-device configuration and key words.
 */
module Switch {
  import opened Words
  import opened Forro
  import opened Hex
  import opened Attestation

  // ---------------------------------------------------------------------
  // The schedule tables
  // ---------------------------------------------------------------------

  datatype Pipeline = Ingress | Egress

  /** Table tbl_forro_ig{stage} or tbl_forro_eg{stage}, matched on the field rodada. */
  datatype Key = Key(pipe: Pipeline, stage: nat, rodada: nat)

  /** Action {i|e}{stage}_qr{qr}, or its variant that leads on to finalisation. */
  datatype Action = QuarterStage(stage: nat, qr: nat) | QuarterStageFin(stage: nat, qr: nat)

  type Tables = map<Key, Action>

  function PipeOf(rodada: nat): Pipeline { if rodada % 2 == 0 then Egress else Ingress }

  function QrOf(rodada: nat): nat
    requires rodada >= 1
  {
    (rodada - 1) % 8
  }

  /** The entry for one stage of one traversal, of a schedule with the given last traversal. */
  function EntryAt(last: nat, rodada: nat, stage: nat): Action
    requires rodada >= 1
  {
    if rodada == last && stage == 11 then QuarterStageFin(11, 7) else QuarterStage(stage, QrOf(rodada))
  }

  /** Exactly the entries for the traversals before `r`, and for the stages before `i` of traversal `r`. */
  ghost predicate Installed(t: Tables, last: nat, r: nat, i: nat) {
    && (forall k :: k in t <==> Covered(k, last, r, i))
    && (forall k :: k in t ==> k.rodada >= 1 && t[k] == EntryAt(last, k.rodada, k.stage))
  }

  /** Before the last add, stage 11 of the last traversal is missing. */
  ghost predicate Covered(k: Key, last: nat, r: nat, i: nat) {
    && k.pipe == PipeOf(k.rodada) && 1 <= k.rodada && k.stage < 12
    && (k.rodada < r || (k.rodada == r && k.stage < i)) && !(k.rodada == last && k.stage == 11)
  }

  /** The complete schedule: every stage of every traversal once, and nothing else. */
  ghost predicate Complete(t: Tables, last: nat) {
    && (forall k :: k in t <==> k.pipe == PipeOf(k.rodada) && 1 <= k.rodada <= last && k.stage < 12)
    && (forall k :: k in t ==> t[k] == EntryAt(last, k.rodada, k.stage))
  }

  class Controller {
    var tables: Tables

    constructor ()
      ensures tables == map[]
    {
      tables := map[];
    }

    /** The installation loops, for any version of Forró with at least one round. */
    method InstallSchedule(forro: nat)
      requires tables == map[] && forro >= 1
      modifies this
      ensures Complete(tables, 4 * forro)
      ensures forall k :: k in tables <==>
                && 1 <= k.rodada <= 4 * forro && k.stage < 12
                && k.pipe == if k.rodada % 2 == 1 then Ingress else Egress
      ensures forall k :: k in tables ==>
                tables[k] == if k.rodada == 4 * forro && k.stage == 11 then QuarterStageFin(11, 7)
                             else QuarterStage(k.stage, (k.rodada - 1) % 8)
    {
      hide Installed, Complete;
      var total := forro * 4 + 1;
      var rodada := 1;
      NothingInstalled(4 * forro);
      while rodada < total
        invariant 1 <= rodada <= total && Installed(tables, total - 1, rodada, 0)
      {
        var pipe := if rodada % 2 == 0 then Egress else Ingress;
        var qr := (rodada - 1) % 8;
        var limit := if rodada == total - 1 then 11 else 12;
        var i := 0;
        while i < limit
          invariant 0 <= i <= limit && Installed(tables, total - 1, rodada, i)
        {
          AddEntry(tables, total - 1, rodada, i);
          tables := tables[Key(pipe, i, rodada) := QuarterStage(i, qr)];
          i := i + 1;
        }
        RowDone(tables, total - 1, rodada, limit);
        rodada := rodada + 1;
      }
      ParityOf(2 * forro, 0);
      AddLast(tables, total - 1);
      tables := tables[Key(Egress, 11, total - 1) := QuarterStageFin(11, 7)];
      CompleteIs(tables, 4 * forro);
    }
  }

  lemma CompleteIs(t: Tables, last: nat)
    requires Complete(t, last)
    ensures forall k :: k in t <==> 1 <= k.rodada <= last && k.stage < 12 && k.pipe == if k.rodada % 2 == 1 then Ingress else Egress
    ensures forall k :: k in t ==>
              t[k] == if k.rodada == last && k.stage == 11 then QuarterStageFin(11, 7) else QuarterStage(k.stage, (k.rodada - 1) % 8)
  {
  }

  lemma NothingInstalled(last: nat)
    ensures Installed(map[], last, 1, 0)
  {
  }

  lemma AddEntry(t: Tables, last: nat, r: nat, i: nat)
    requires 1 <= r <= last && i < 12 && !(r == last && i == 11) && Installed(t, last, r, i)
    ensures Key(PipeOf(r), i, r) !in t
    ensures Installed(t[Key(PipeOf(r), i, r) := QuarterStage(i, QrOf(r))], last, r, i + 1)
  {
  }

  lemma RowDone(t: Tables, last: nat, r: nat, i: nat)
    requires 1 <= r <= last && i == (if r == last then 11 else 12) && Installed(t, last, r, i)
    ensures Installed(t, last, r + 1, 0)
  {
    forall k
      ensures Covered(k, last, r, i) <==> Covered(k, last, r + 1, 0)
    {
    }
  }

  lemma AddLast(t: Tables, last: nat)
    requires last >= 1 && last % 2 == 0 && Installed(t, last, last + 1, 0)
    ensures Key(Egress, 11, last) !in t
    ensures Complete(t[Key(Egress, 11, last) := QuarterStageFin(11, 7)], last)
  {
    var t' := t[Key(Egress, 11, last) := QuarterStageFin(11, 7)];
    forall k
      ensures k in t' <==> k.pipe == PipeOf(k.rodada) && 1 <= k.rodada <= last && k.stage < 12
    {
      assert k in t <==> Covered(k, last, last + 1, 0);
    }
  }

  // ---------------------------------------------------------------------
  // Executing the tables
  // ---------------------------------------------------------------------

  /** Stage n of an action for quarter-round qr performs the n-th step of that quarter-round. */
  function Perform(a: Action, s: Block): Block
    requires a.stage < 12 && a.qr < 8
  {
    Put(s, Row(a.qr), Stage(a.stage, Get(s, Row(a.qr))))
  }

  /** A traversal visits the first `n` stages of its pipeline; a stage without a match does nothing. */
  function Traverse(t: Tables, rodada: nat, n: nat, s: Block): Block {
    if n == 0 then s
    else
      var before := Traverse(t, rodada, n - 1, s);
      var k := Key(PipeOf(rodada), n - 1, rodada);
      if k in t && t[k].stage < 12 && t[k].qr < 8 then Perform(t[k], before) else before
  }

  /** Traversals 1 to n, recirculating between the pipelines. */
  function RunTables(t: Tables, n: nat, s: Block): Block {
    if n == 0 then s else Traverse(t, n, 12, RunTables(t, n - 1, s))
  }

  /** Stage 11 only rotates word 3 in quarter-rounds 3 and 7, so the final action fits both. */
  lemma LastStage(s: Block)
    ensures Perform(QuarterStageFin(11, 7), s) == Perform(QuarterStage(11, 7), s) == Perform(QuarterStage(11, 3), s)
  {
    hide Rotl8;
    assert Perform(QuarterStage(11, 7), s) == s[3 := Rotl8(s[3])];
    assert Perform(QuarterStage(11, 3), s) == s[3 := Rotl8(s[3])];
  }

  lemma {:induction false} TraverseIsStages(t: Tables, forro: nat, r: nat, n: nat, s: Block)
    requires Complete(t, 4 * forro) && 1 <= r <= 4 * forro && n <= 12
    ensures Traverse(t, r, n, s) == Put(s, Row(QrOf(r)), Stages(n, Get(s, Row(QrOf(r)))))
    decreases n
  {
    hide Put, Get, Row, Stage, Stages;
    var ix := Row(QrOf(r));
    PutGet(s, ix, Get(s, ix), Get(s, ix));
    StagesNext(0, Get(s, ix));
    if n > 0 {
      TraverseIsStages(t, forro, r, n - 1, s);
      var q := Stages(n - 1, Get(s, ix));
      var before := Put(s, ix, q);
      PutGet(s, ix, q, Stage(n - 1, q));
      StagesNext(n - 1, Get(s, ix));
      var k := Key(PipeOf(r), n - 1, r);
      assert k in t && t[k] == EntryAt(4 * forro, r, n - 1);
      if r == 4 * forro && n == 12 {
        LastRow(forro);
        LastStage(before);
      }
    }
  }

  lemma LastRow(k: nat)
    requires k >= 1
    ensures QrOf(4 * k) == if k % 2 == 0 then 7 else 3
  {
    var m := k / 2;
    if k % 2 == 0 {
      ModEight(m - 1, 7);
    } else {
      ModEight(m, 3);
    }
  }

  lemma ModEight(q: nat, r: nat)
    requires r < 8
    ensures (8 * q + r) % 8 == r
  {
  }

  /**
   * The tables compute the cipher: executing the installed entries in order applies the
   * quarter-rounds of forro's loop.
   */
  lemma {:induction false} TablesRefineCipher(t: Tables, forro: nat, n: nat, s: Block)
    requires Complete(t, 4 * forro) && n <= 4 * forro
    ensures RunTables(t, n, s) == Quarters(n, s)
    decreases n
  {
    hide Put, Get, Row, Traverse, Stages;
    if n > 0 {
      TablesRefineCipher(t, forro, n - 1, s);
      TraverseIsStages(t, forro, n, 12, Quarters(n - 1, s));
    }
  }

  /**
   * For every even number of rounds the whole run is `forro / 2` passes of the cipher's loop,
   * quarter-rounds alternate between the pipelines, and the last one is quarter-round 7 in the
   * Egress, where finalisation is installed. For an odd number it would be quarter-round 3.
   */
  lemma ScheduleIsForro(t: Tables, forro: nat, s: Block)
    requires forro >= 1 && Complete(t, 4 * forro)
    ensures forro % 2 == 0 ==> RunTables(t, 4 * forro, s) == Quarters(8 * (forro / 2), s)
    ensures forall r :: 1 <= r <= 4 * forro ==> (PipeOf(r) == Ingress <==> QrOf(r) % 2 == 0)
    ensures QrOf(4 * forro) == 7 <==> forro % 2 == 0
    ensures PipeOf(4 * forro) == Egress && Key(Egress, 11, 4 * forro) in t && t[Key(Egress, 11, 4 * forro)] == QuarterStageFin(11, 7)
    ensures forall k :: k in t && t[k].QuarterStageFin? ==> k == Key(Egress, 11, 4 * forro)
  {
    hide RunTables, Quarters, PipeOf, QrOf;
    TablesRefineCipher(t, forro, 4 * forro, s);
    LastRow(forro);
    forall r | 1 <= r <= 4 * forro
      ensures PipeOf(r) == Ingress <==> QrOf(r) % 2 == 0
    {
      Alternates(r);
    }
    Alternates(4 * forro);
    ParityOf(2 * forro, 0);
    assert Key(Egress, 11, 4 * forro) in t;
  }

  lemma Alternates(r: nat)
    requires r >= 1
    ensures PipeOf(r) == Ingress <==> QrOf(r) % 2 == 0
    ensures r % 2 == 0 ==> PipeOf(r) == Egress
  {
    var q := (r - 1) / 8;
    ParityOf(4 * q, QrOf(r) + 1);
  }

  lemma ParityOf(q: nat, r: nat)
    ensures (2 * q + r) % 2 == r % 2
  {
  }

  // ---------------------------------------------------------------------
  // Device entries
  // ---------------------------------------------------------------------

  /** inverter_endianess; `None` stands for the ValueError. */
  function InverterEndianess(s: string): (r: Option<string>)
    ensures r.Some? <==> |s| % 8 == 0
    ensures r.Some? ==> r.value == SwapHex(s)
  {
    if |s| % 8 != 0 then None
    else
      InverterIsSwap(s);
      Some(Blocks(s))
  }

  /** The blocks of eight characters, each with its pairs in reverse order, joined. */
  function Blocks(s: string): (r: string)
    requires |s| % 8 == 0
    ensures |r| == |s|
    decreases |s|
  {
    if s == [] then []
    else [s[6], s[7], s[4], s[5], s[2], s[3], s[0], s[1]] + Blocks(s[8..])
  }

  /** It is the same rearrangement as swapEndian in the C programs. */
  lemma {:induction false} InverterIsSwap(s: string)
    requires |s| % 8 == 0
    ensures Blocks(s) == SwapHex(s)
    decreases |s|
  {
    hide SwapIndex, Blocks;
    BlocksParts(s);
    if s != [] {
      InverterIsSwap(s[8..]);
      GroupIndexes(0);
      forall i | 8 <= i < |s|
        ensures Blocks(s)[i] == SwapHex(s)[i]
      {
        SwapIndexShift(i - 8);
        assert SwapAt(s[8..], i - 8) == SwapAt(s, i);
      }
    }
  }

  lemma BlocksParts(s: string)
    requires |s| % 8 == 0
    ensures s == [] ==> Blocks(s) == []
    ensures s != [] ==> var r := Blocks(s);
                        && r[0] == s[6] && r[1] == s[7] && r[2] == s[4] && r[3] == s[5]
                        && r[4] == s[2] && r[5] == s[3] && r[6] == s[0] && r[7] == s[1]
                        && forall i :: 8 <= i < |s| ==> r[i] == Blocks(s[8..])[i - 8]
  {
  }

  lemma SwapIndexShift(i: nat)
    ensures SwapIndex(i + 8) == SwapIndex(i) + 8
  {
    hide SwapIndex;
    SwapIndexAt(i / 8, i % 8);
    SwapIndexAt(i / 8 + 1, i % 8);
  }

  /** Python's int(s, 16). */
  function ParseHex(s: string): nat
    requires forall i :: 0 <= i < |s| ==> IsDigit(s[i])
    decreases |s|
  {
    if s == [] then 0 else 16 * ParseHex(s[..|s| - 1]) + Digit(s[|s| - 1])
  }

  function Power16(n: nat): nat { if n == 0 then 1 else 16 * Power16(n - 1) }

  lemma {:induction false} ParseConcat(s: string, t: string)
    requires (forall i :: 0 <= i < |s| ==> IsDigit(s[i])) && forall i :: 0 <= i < |t| ==> IsDigit(t[i])
    ensures ParseHex(s + t) == ParseHex(s) * Power16(|t|) + ParseHex(t)
    decreases |t|
  {
    hide Digit;
    if t == [] {
      assert s + t == s;
    } else {
      var u, d := t[..|t| - 1], t[|t| - 1];
      ParseConcat(s, u);
      assert (s + t)[..|s + t| - 1] == s + u && (s + t)[|s + t| - 1] == d;
      Distribute(ParseHex(s), Power16(|u|), ParseHex(u), Digit(d));
    }
  }

  lemma Distribute(a: nat, b: nat, c: nat, d: nat)
    ensures 16 * (a * b + c) + d == a * (16 * b) + (16 * c + d)
  {
  }

  /** Eight digits are a 32-bit word. */
  lemma ParseEight(s: string)
    requires |s| == 8 && forall i :: 0 <= i < 8 ==> IsDigit(s[i])
    ensures ParseHex(s) == 0x1000_0000 * Digit(s[0]) + 0x100_0000 * Digit(s[1]) + 0x10_0000 * Digit(s[2]) + 0x1_0000 * Digit(s[3])
                           + 0x1000 * Digit(s[4]) + 0x100 * Digit(s[5]) + 0x10 * Digit(s[6]) + Digit(s[7])
  {
    hide Digit;
    assert s[..7][..6] == s[..6] && s[..6][..5] == s[..5] && s[..5][..4] == s[..4] && s[..4][..3] == s[..3];
    assert s[..3][..2] == s[..2] && s[..2][..1] == s[..1] && s[..1][..0] == [];
    assert ParseHex(s[..1]) == Digit(s[0]);
    assert ParseHex(s[..2]) == 0x10 * Digit(s[0]) + Digit(s[1]);
    assert ParseHex(s[..3]) == 16 * ParseHex(s[..2]) + Digit(s[2]);
    assert ParseHex(s[..4]) == 16 * ParseHex(s[..3]) + Digit(s[3]);
    assert ParseHex(s[..5]) == 16 * ParseHex(s[..4]) + Digit(s[4]);
    assert ParseHex(s[..6]) == 16 * ParseHex(s[..5]) + Digit(s[5]);
    assert ParseHex(s[..7]) == 16 * ParseHex(s[..6]) + Digit(s[6]);
  }

  /** The value of a little-endian word. */
  lemma LoadValue(b0: bv8, b1: bv8, b2: bv8, b3: bv8)
    ensures Value(Load(b0, b1, b2, b3)) ==
            ByteValue(b0) + 0x100 * ByteValue(b1) + 0x1_0000 * ByteValue(b2) + 0x100_0000 * ByteValue(b3)
  {
  }

  /** A swapped block of eight digits parses to the little-endian word of the bytes it spells. */
  lemma BlockIsWord(s: string)
    requires IsHex(s) && |s| == 8
    ensures (forall i :: 0 <= i < 8 ==> IsDigit(SwapHex(s)[i])) && ParseHex(SwapHex(s)) == Value(LoadAt(FromHex(s), 0))
  {
    hide Digit, ToByte, ByteValue, Load, Value, ParseHex, SwapIndex;
    var t, b := SwapHex(s), FromHex(s);
    GroupIndexes(0);
    ParseEight(t);
    LoadValue(b[0], b[1], b[2], b[3]);
    ByteOfPair(s, 0);
    ByteOfPair(s, 1);
    ByteOfPair(s, 2);
    ByteOfPair(s, 3);
  }

  lemma ByteOfPair(s: string, i: nat)
    requires IsHex(s) && 2 * i + 1 < |s|
    ensures ByteValue(FromHex(s)[i]) == 16 * Digit(s[2 * i]) + Digit(s[2 * i + 1])
  {
    hide Digit, ToByte, ByteValue;
    ByteRoundTrip(0, 16 * Digit(s[2 * i]) + Digit(s[2 * i + 1]));
  }

  predicate Digits(s: string) { forall i :: 0 <= i < |s| ==> IsDigit(s[i]) }

  /** Block `k` of a text, as the controller reads it. */
  lemma BlockAt(s: string, k: nat)
    requires IsHex(s) && |s| % 8 == 0 && 8 * k + 8 <= |s|
    ensures var t := Blocks(s)[8 * k..8 * k + 8];
            Digits(t) && Blocks(s[8 * k..8 * k + 8]) == t && ParseHex(t) == Value(LoadAt(FromHex(s), 4 * k))
  {
    hide Value, LoadAt, ParseHex, FromHex, Blocks, SwapHex;
    var u := s[8 * k..8 * k + 8];
    InverterIsSwap(s);
    InverterIsSwap(u);
    SwapHexSlice(s, k);
    FromHexSlice(s, 4 * k, 4 * k + 4);
    assert s[2 * (4 * k)..2 * (4 * k + 4)] == u;
    BlockIsWord(u);
    LoadSlice(FromHex(s), 4 * k);
  }

  lemma LoadSlice(b: Bytes, i: nat)
    requires i + 4 <= |b|
    ensures LoadAt(b[i..i + 4], 0) == LoadAt(b, i)
  {
    hide Load;
  }

  lemma SwapHexSlice(s: string, k: nat)
    requires |s| % 8 == 0 && 8 * k + 8 <= |s|
    ensures SwapHex(s)[8 * k..8 * k + 8] == SwapHex(s[8 * k..8 * k + 8])
  {
    hide SwapIndex;
    var u := s[8 * k..8 * k + 8];
    forall i | 0 <= i < 8
      ensures SwapHex(s)[8 * k + i] == SwapHex(u)[i]
    {
      SwapIndexAt(k, i);
      SwapIndexAt(0, i);
    }
  }

  /** The 128-bit number read from a device id, and the 256-bit parameter derived from it. */
  function DeviceNumber(idHex: string): nat
    requires |idHex| % 8 == 0 && Digits(Blocks(idHex))
  {
    ParseHex(Blocks(idHex))
  }

  /**
   * conf_param: the mask and shifts move bits 64..127 of the id to bits 128..191 and keep bits
   * 0..63; the two parts do not overlap, and the initial configuration is zero.
   */
  function ConfParam(id: nat): nat { id / TWO64 % TWO64 * (TWO64 * TWO64) + id % TWO64 }

  /** A number shifted right by `n` words. */
  function Shift32(x: nat, n: nat): nat { if n == 0 then x else Shift32(x / TWO32, n - 1) }

  /** Word `j` of a 256-bit number, the most significant word being word 0. */
  function ConfWord(conf: nat, j: nat): nat
    requires j < 8
  {
    Shift32(conf, 7 - j) % TWO32
  }

  /** A number put together from four words. */
  function Join(w0: nat, w1: nat, w2: nat, w3: nat): nat { ((w0 * TWO32 + w1) * TWO32 + w2) * TWO32 + w3 }

  lemma DropWord(a: nat, w: nat)
    requires w < TWO32
    ensures (a * TWO32 + w) / TWO32 == a && (a * TWO32 + w) % TWO32 == w
  {
  }

  lemma ConfParamIs(w0: nat, w1: nat, w2: nat, w3: nat)
    requires w0 < TWO32 && w1 < TWO32 && w2 < TWO32 && w3 < TWO32
    ensures ConfParam(Join(w0, w1, w2, w3)) == Join((w0 * TWO32 + w1) * TWO32, 0, w2, w3)
  {
    var hi, lo := w0 * TWO32 + w1, w2 * TWO32 + w3;
    var id := Join(w0, w1, w2, w3);
    assert id == hi * TWO64 + lo;
    assert id / TWO64 == hi && id % TWO64 == lo;
  }

  /** Shifting out the word that was put in last. */
  lemma ShiftOut(a: nat, w: nat, n: nat)
    requires w < TWO32
    ensures Shift32(a * TWO32 + w, n + 1) == Shift32(a, n) && Shift32(a * TWO32 + w, 0) % TWO32 == w
  {
    DropWord(a, w);
  }

  lemma ConfWords(w0: nat, w1: nat, w2: nat, w3: nat)
    requires w0 < TWO32 && w1 < TWO32 && w2 < TWO32 && w3 < TWO32
    ensures var c := ConfParam(Join(w0, w1, w2, w3));
            && ConfWord(c, 2) == w0 && ConfWord(c, 3) == w1 && ConfWord(c, 6) == w2 && ConfWord(c, 7) == w3
            && ConfWord(c, 0) == 0 && ConfWord(c, 1) == 0 && ConfWord(c, 4) == 0 && ConfWord(c, 5) == 0
  {
    hide ConfParam, Shift32;
    ConfParamIs(w0, w1, w2, w3);
    var ws := [0, 0, w0, w1, 0, 0, w2, w3];
    assert ConfParam(Join(w0, w1, w2, w3)) == Horner(ws, 8) by { HornerIs(w0, w1, w2, w3); }
    forall j | 0 <= j < 8
      ensures ConfWord(Horner(ws, 8), j) == ws[j]
    {
      HornerWord(ws, j, 8);
    }
    assert ws[0] == 0 && ws[1] == 0 && ws[2] == w0 && ws[3] == w1 && ws[4] == 0 && ws[5] == 0 && ws[6] == w2 && ws[7] == w3;
  }

  /** The number spelled by the first `n` words. */
  function Horner(ws: seq<nat>, n: nat): nat
    requires n <= |ws|
  {
    if n == 0 then 0 else Horner(ws, n - 1) * TWO32 + ws[n - 1]
  }

  lemma HornerIs(w0: nat, w1: nat, w2: nat, w3: nat)
    ensures Horner([0, 0, w0, w1, 0, 0, w2, w3], 8) == Join((w0 * TWO32 + w1) * TWO32, 0, w2, w3)
  {
    var ws := [0, 0, w0, w1, 0, 0, w2, w3];
    assert Horner(ws, 1) == Horner(ws, 0) * TWO32 + ws[0] == 0;
    assert Horner(ws, 2) == Horner(ws, 1) * TWO32 + ws[1] == 0;
    assert Horner(ws, 3) == w0;
    assert Horner(ws, 4) == w0 * TWO32 + w1;
    assert Horner(ws, 6) == (w0 * TWO32 + w1) * TWO32 * TWO32;
  }

  lemma {:induction false} HornerWord(ws: seq<nat>, j: nat, n: nat)
    requires j < n <= |ws| && forall i :: 0 <= i < |ws| ==> ws[i] < TWO32
    ensures Shift32(Horner(ws, n), n - 1 - j) % TWO32 == ws[j]
    decreases n
  {
    hide Shift32;
    if j == n - 1 {
      ShiftOut(Horner(ws, n - 1), ws[j], 0);
    } else {
      ShiftOut(Horner(ws, n - 1), ws[n - 1], n - 2 - j);
      HornerWord(ws, j, n - 1);
    }
  }

  lemma {:induction false} FourBlocks(t: string)
    requires Digits(t) && |t| == 32
    ensures ParseHex(t) == Join(ParseHex(t[0..8]), ParseHex(t[8..16]), ParseHex(t[16..24]), ParseHex(t[24..32]))
  {
    hide ParseHex;
    assert Power16(4) == 0x1_0000;
    assert Power16(8) == TWO32;
    ParseConcat(t[0..8], t[8..16]);
    ParseConcat(t[0..16], t[16..24]);
    ParseConcat(t[0..24], t[24..32]);
    assert t[0..8] + t[8..16] == t[0..16] && t[0..16] + t[16..24] == t[0..24] && t[0..24] + t[24..32] == t;
  }

  // ---------------------------------------------------------------------
  // The device entry and the cipher state
  // ---------------------------------------------------------------------

  /** Part `j` of a key text, as the controller passes it in parameter key{j}. */
  function KeyPart(keyHex: string, j: nat): nat
    requires IsHex(keyHex) && |keyHex| == 64 && j < 8
  {
    BlockAt(keyHex, j);
    ParseHex(Blocks(keyHex[8 * j..8 * j + 8]))
  }

  lemma DeviceNumberIs(idHex: string)
    requires IsHex(idHex) && |idHex| == 32
    ensures Digits(Blocks(idHex))
    ensures var id := FromHex(idHex);
            DeviceNumber(idHex) == Join(Value(LoadAt(id, 0)), Value(LoadAt(id, 4)), Value(LoadAt(id, 8)), Value(LoadAt(id, 12)))
  {
    hide Value, LoadAt, ParseHex, FromHex, Blocks, SwapHex, Join;
    InverterIsSwap(idHex);
    SwapHexIsSwapBytes(idHex);
    var t := Blocks(idHex);
    BlockAt(idHex, 0);
    BlockAt(idHex, 1);
    BlockAt(idHex, 2);
    BlockAt(idHex, 3);
    FourBlocks(t);
  }

  /**
   * For every device id and key, words 2, 3, 6 and 7 of the configuration parameter and the eight
   * key parameters are the words that keysetup and versetup load; the other configuration words
   * are zero.
   */
  lemma EntryMatchesState(idHex: string, keyHex: string, round: Bytes, nonce: Bytes)
    requires IsHex(idHex) && |idHex| == 32 && IsHex(keyHex) && |keyHex| == 64 && |round| == |nonce| == 8
    ensures Digits(Blocks(idHex))
    ensures var c, st := ConfParam(DeviceNumber(idHex)), ProofState(FromHex(keyHex), round, nonce, FromHex(idHex), Zeros(32));
            && ConfWord(c, 2) == Value(st[6]) && ConfWord(c, 3) == Value(st[7])
            && ConfWord(c, 6) == Value(st[14]) && ConfWord(c, 7) == Value(st[15])
            && ConfWord(c, 0) == 0 && ConfWord(c, 1) == 0 && ConfWord(c, 4) == 0 && ConfWord(c, 5) == 0
            && forall j :: 0 <= j < 8 ==> KeyPart(keyHex, j) == Value(st[if j < 4 then j else j + 4])
  {
    hide Value, LoadAt, ParseHex, FromHex, Blocks, Join, ConfParam, ConfWord, DeviceNumber, ProofState;
    var id, key := FromHex(idHex), FromHex(keyHex);
    DeviceNumberIs(idHex);
    PlainStateWords(key, round, nonce, id);
    ValueBound(LoadAt(id, 0));
    ValueBound(LoadAt(id, 4));
    ValueBound(LoadAt(id, 8));
    ValueBound(LoadAt(id, 12));
    ConfWords(Value(LoadAt(id, 0)), Value(LoadAt(id, 4)), Value(LoadAt(id, 8)), Value(LoadAt(id, 12)));
    var st := ProofState(key, round, nonce, id, Zeros(32));
    forall j | 0 <= j < 8
      ensures KeyPart(keyHex, j) == Value(st[if j < 4 then j else j + 4])
    {
      BlockAt(keyHex, j);
      assert j >= 4 ==> st[(j - 4) + 8] == LoadAt(key, 4 * (j - 4) + 16);
    }
  }
}
