/**
 * The attestation protocol: the proof a device computes over its secrets, the prover
 * service and its trusted application, and the verifier.
 */
module Attestation {
  import opened Words
  import opened Forro
  import opened Hex
  import KnownAnswer

  // ---------------------------------------------------------------------
  // The proof
  // ---------------------------------------------------------------------

  function XorBytes(a: Bytes, b: Bytes): (r: Bytes)
    requires |a| == |b|
    ensures |r| == |a| && forall i :: 0 <= i < |a| ==> r[i] == XorByte(a[i], b[i])
  {
    seq(|a|, i requires 0 <= i < |a| => XorByte(a[i], b[i]))
  }

  function Zeros(n: nat): (r: Bytes)
    ensures |r| == n && forall i :: 0 <= i < n ==> r[i] == 0
  {
    seq(n, _ => 0)
  }

  /** id_rodada over C0, C1 and the nonce over C4, C5. */
  function RoundConfig(round: Bytes, nonce: Bytes, conf: Bytes): (r: Bytes)
    requires |round| == |nonce| == 8 && |conf| == 32
    ensures |r| == 16
  {
    XorBytes(round, conf[..8]) + XorBytes(nonce, conf[16..24])
  }

  /** id_dispositivo over C2, C3 and C6, C7. */
  function DeviceConfig(id: Bytes, conf: Bytes): (r: Bytes)
    requires |id| == 16 && |conf| == 32
    ensures |r| == 16
  {
    XorBytes(id[..8], conf[8..16]) + XorBytes(id[8..], conf[24..])
  }

  /** The Forró state prover, verifier and switch agree on. */
  function ProofState(key: Bytes, round: Bytes, nonce: Bytes, id: Bytes, conf: Bytes): Block
    requires |key| == 32 && |round| == |nonce| == 8 && |id| == 16 && |conf| == 32
  {
    VerSetup(KeySetup(seq(16, _ => 0), key), RoundConfig(round, nonce, conf), DeviceConfig(id, conf))
  }

  lemma LoadXor(a0: bv8, a1: bv8, a2: bv8, a3: bv8, b0: bv8, b1: bv8, b2: bv8, b3: bv8)
    ensures Load(XorByte(a0, b0), XorByte(a1, b1), XorByte(a2, b2), XorByte(a3, b3))
         == Xor(Load(a0, a1, a2, a3), Load(b0, b1, b2, b3))
  {
  }

  /** Word `i` of two byte strings XORed. */
  lemma LoadXorAt(a: Bytes, b: Bytes, i: nat)
    requires |a| == |b| && i + 4 <= |a|
    ensures LoadAt(XorBytes(a, b), i) == Xor(LoadAt(a, i), LoadAt(b, i))
  {
    hide Load, XorByte, Xor;
    LoadXor(a[i], a[i + 1], a[i + 2], a[i + 3], b[i], b[i + 1], b[i + 2], b[i + 3]);
  }

  lemma ConfigWords(round: Bytes, nonce: Bytes, conf: Bytes, i: nat)
    requires |round| == |nonce| == 8 && |conf| == 32 && i <= 4
    ensures LoadAt(RoundConfig(round, nonce, conf), i) == Xor(LoadAt(round, i), LoadAt(conf, i))
    ensures LoadAt(RoundConfig(round, nonce, conf), 8 + i) == Xor(LoadAt(nonce, i), LoadAt(conf, 16 + i))
  {
    hide Load, XorByte, Xor;
    LoadXorAt(round, conf[..8], i);
    LoadXorAt(nonce, conf[16..24], i);
  }

  lemma IdWords(id: Bytes, conf: Bytes, i: nat)
    requires |id| == 16 && |conf| == 32 && i <= 4
    ensures LoadAt(DeviceConfig(id, conf), i) == Xor(LoadAt(id, i), LoadAt(conf, 8 + i))
    ensures LoadAt(DeviceConfig(id, conf), 8 + i) == Xor(LoadAt(id, 8 + i), LoadAt(conf, 24 + i))
  {
    hide Load, XorByte, Xor;
    LoadXorAt(id[..8], conf[8..16], i);
    LoadXorAt(id[8..], conf[24..], i);
  }

  /**
   * Every word of the proof state: the key in the first and third row, the round, the identifier and
   * the nonce in the second and fourth, each XORed with its configuration word.
   */
  lemma StateWords(key: Bytes, round: Bytes, nonce: Bytes, id: Bytes, conf: Bytes)
    requires |key| == 32 && |round| == |nonce| == 8 && |id| == 16 && |conf| == 32
    ensures var st := ProofState(key, round, nonce, id, conf);
            && (forall j :: 0 <= j < 4 ==> st[j] == LoadAt(key, 4 * j) && st[8 + j] == LoadAt(key, 16 + 4 * j))
            && st[4] == Xor(LoadAt(round, 0), LoadAt(conf, 0)) && st[5] == Xor(LoadAt(round, 4), LoadAt(conf, 4))
            && st[6] == Xor(LoadAt(id, 0), LoadAt(conf, 8)) && st[7] == Xor(LoadAt(id, 4), LoadAt(conf, 12))
            && st[12] == Xor(LoadAt(nonce, 0), LoadAt(conf, 16)) && st[13] == Xor(LoadAt(nonce, 4), LoadAt(conf, 20))
            && st[14] == Xor(LoadAt(id, 8), LoadAt(conf, 24)) && st[15] == Xor(LoadAt(id, 12), LoadAt(conf, 28))
  {
    hide LoadAt, RoundConfig, DeviceConfig, Xor;
    ConfigWords(round, nonce, conf, 0);
    ConfigWords(round, nonce, conf, 4);
    IdWords(id, conf, 0);
    IdWords(id, conf, 4);
  }

  lemma NoConfiguration(x: bv32, i: nat)
    requires i + 4 <= 32
    ensures LoadAt(Zeros(32), i) == 0 && Xor(x, 0) == x
  {
  }

  /** The tools configure nothing: the bytes received and stored are the words of the state. */
  lemma PlainStateWords(key: Bytes, round: Bytes, nonce: Bytes, id: Bytes)
    requires |key| == 32 && |round| == |nonce| == 8 && |id| == 16
    ensures var st := ProofState(key, round, nonce, id, Zeros(32));
            && (forall j :: 0 <= j < 4 ==> st[j] == LoadAt(key, 4 * j) && st[8 + j] == LoadAt(key, 16 + 4 * j))
            && st[4] == LoadAt(round, 0) && st[5] == LoadAt(round, 4)
            && st[6] == LoadAt(id, 0) && st[7] == LoadAt(id, 4)
            && st[12] == LoadAt(nonce, 0) && st[13] == LoadAt(nonce, 4)
            && st[14] == LoadAt(id, 8) && st[15] == LoadAt(id, 12)
  {
    hide LoadAt, Xor, ProofState;
    StateWords(key, round, nonce, id, Zeros(32));
    NoConfiguration(LoadAt(round, 0), 0);
    NoConfiguration(LoadAt(round, 4), 4);
    NoConfiguration(LoadAt(id, 0), 8);
    NoConfiguration(LoadAt(id, 4), 12);
    NoConfiguration(LoadAt(nonce, 0), 16);
    NoConfiguration(LoadAt(nonce, 4), 20);
    NoConfiguration(LoadAt(id, 8), 24);
    NoConfiguration(LoadAt(id, 12), 28);
  }

  lemma ZeroLoads(b: Bytes, i: nat)
    requires i + 4 <= |b| && b[i] == b[i + 1] == b[i + 2] == b[i + 3] == 0
    ensures LoadAt(b, i) == 0
  {
  }

  lemma OneLoads()
    ensures Load(1, 0, 0, 0) == 1
  {
  }

  /** A known proof: zero key, identifier and nonce, and the round 1. */
  lemma KnownProof()
    ensures Proof(Zeros(32), [1, 0, 0, 0, 0, 0, 0, 0], Zeros(8), Zeros(16))[..8]
         == [0x0c, 0xc0, 0xaa, 0xdc, 0x7c, 0xf8, 0xff, 0xb2]
  {
    hide ProofState, KeyBlock, Load;
    var round: Bytes := [1, 0, 0, 0, 0, 0, 0, 0];
    PlainStateWords(Zeros(32), round, Zeros(8), Zeros(16));
    OneLoads();
    assert LoadAt(round, 0) == 1;
    ZeroLoads(round, 4);
    var st := ProofState(Zeros(32), round, Zeros(8), Zeros(16), Zeros(32));
    forall i | 0 <= i <= 28
      ensures LoadAt(Zeros(32), i) == 0
    {
      ZeroLoads(Zeros(32), i);
    }
    ZeroLoads(Zeros(8), 0);
    ZeroLoads(Zeros(8), 4);
    assert st[0] == st[1] == st[2] == st[3] == 0 && st[8] == st[9] == st[10] == st[11] == 0;
    ZeroLoads(Zeros(16), 0);
    ZeroLoads(Zeros(16), 4);
    ZeroLoads(Zeros(16), 8);
    ZeroLoads(Zeros(16), 12);
    assert st == KnownAnswer.S0();
    KnownAnswer.AnswerBytes();
  }

  /** Key setup followed by verifier setup determines every word: what was there before does not matter. */
  lemma SetupDeterminesState(s: Block, t: Block, key: Bytes, round: Bytes, device: Bytes)
    requires |key| == 32 && |round| == |device| == 16
    ensures VerSetup(KeySetup(s, key), round, device) == VerSetup(KeySetup(t, key), round, device)
  {
    hide LoadAt;
  }

  /** The proof over an all-zero configuration. */
  function Proof(key: Bytes, round: Bytes, nonce: Bytes, id: Bytes): (p: Bytes)
    requires |key| == 32 && |round| == |nonce| == 8 && |id| == 16
    ensures |p| == 64
  {
    KeyBlock(ProofState(key, round, nonce, id, Zeros(32)))
  }

  /** One of the XOR loops over eight bytes. */
  method XorInto(out: array<bv8>, at: nat, a: Bytes, conf: Bytes)
    requires at + 8 <= out.Length && |a| == |conf| == 8
    modifies out
    ensures out[at..at + 8] == XorBytes(a, conf)
    ensures out[..at] == old(out[..at]) && out[at + 8..] == old(out[at + 8..])
  {
    hide XorByte;
    var i := 0;
    while i < 8
      invariant 0 <= i <= 8
      invariant forall j :: at <= j < at + i ==> out[j] == XorBytes(a, conf)[j - at]
      invariant forall j :: 0 <= j < out.Length && !(at <= j < at + i) ==> out[j] == old(out[j])
    {
      out[at + i] := XorByte(a[i], conf[i]);
      i := i + 1;
    }
  }

  /** The state construction that reply_proof and forro-args-dra have in common. */
  method BuildState(x: array<bv32>, key: Bytes, round: Bytes, nonce: Bytes, id: Bytes, conf: Bytes)
    requires x.Length == 16 && |key| == 32 && |round| == |nonce| == 8 && |id| == 16 && |conf| == 32
    modifies x
    ensures x[..] == ProofState(key, round, nonce, id, conf)
  {
    hide KeySetup, VerSetup, XorByte, LoadAt;
    ghost var s: Block := x[..];
    SetKey(x, key);
    var roundConf, deviceConf := new bv8[16], new bv8[16];
    XorInto(roundConf, 0, round, conf[..8]);
    XorInto(deviceConf, 0, id[..8], conf[8..16]);
    XorInto(roundConf, 8, nonce, conf[16..24]);
    XorInto(deviceConf, 8, id[8..], conf[24..]);
    assert roundConf[..] == RoundConfig(round, nonce, conf) by {
      TwoHalves(roundConf[..], XorBytes(round, conf[..8]), XorBytes(nonce, conf[16..24]));
    }
    assert deviceConf[..] == DeviceConfig(id, conf) by {
      TwoHalves(deviceConf[..], XorBytes(id[..8], conf[8..16]), XorBytes(id[8..], conf[24..]));
    }
    SetVerifier(x, roundConf[..], deviceConf[..]);
    SetupDeterminesState(s, seq(16, _ => 0), key, roundConf[..], deviceConf[..]);
  }

  lemma TwoHalves(b: Bytes, lo: Bytes, hi: Bytes)
    requires |b| == 16 && b[0..8] == lo && b[8..16] == hi
    ensures b == lo + hi
  {
    assert b == b[0..8] + b[8..16];
  }

  /** The trusted application's reply_proof, on the secrets it stored as key text followed by id text. */
  method ReplyProof(secrets: string, roundHex: string, nonceHex: string) returns (prova: array<bv8>)
    requires IsHex(secrets) && |secrets| == 96 && IsHex(roundHex) && IsHex(nonceHex) && |roundHex| == |nonceHex| == 16
    ensures fresh(prova) && IsHex(secrets[..64]) && IsHex(secrets[64..])
    ensures prova[..] == Proof(FromHex(secrets[..64]), FromHex(roundHex), FromHex(nonceHex), FromHex(secrets[64..]))
  {
    hide KeyBlock, ProofState;
    var key := HexBytes(secrets[..64]);
    var id := HexBytes(secrets[64..]);
    var round := HexBytes(roundHex);
    var nonce := HexBytes(nonceHex);
    var x := new bv32[16];
    BuildState(x, key, round, nonce, id, Zeros(32));
    prova := new bv8[64];
    ForroBlock(prova, x);
  }

  /** hexstring_to_byte_array into a buffer of its own. */
  method HexBytes(hex: string) returns (b: Bytes)
    ensures b == FromHex(hex)
  {
    var buffer := new bv8[|hex| / 2];
    HexStringToByteArray(buffer, hex);
    b := buffer[..];
    assert buffer[..|hex| / 2] == buffer[..];
  }

  /** The verifier's forro-args-dra: it encrypts a zero message instead of calling the block function. */
  method VerifierProof(keyHex: string, nonceHex: string, roundHex: string, idHex: string) returns (cifrado: array<bv8>)
    requires IsHex(keyHex) && |keyHex| == 64 && IsHex(idHex) && |idHex| == 32
    requires IsHex(roundHex) && IsHex(nonceHex) && |roundHex| == |nonceHex| == 16
    ensures fresh(cifrado)
    ensures cifrado[..] == Proof(FromHex(keyHex), FromHex(roundHex), FromHex(nonceHex), FromHex(idHex))
  {
    hide KeyBlock, ProofState, At;
    var key := HexBytes(keyHex);
    var id := HexBytes(idHex);
    var round := HexBytes(roundHex);
    var nonce := HexBytes(nonceHex);
    var x := new bv32[16];
    BuildState(x, key, round, nonce, id, Zeros(32));
    ghost var s: Block := x[..];
    var mensagem := new bv8[64](_ => 0);
    cifrado := new bv8[64];
    EncryptBytes(x, mensagem, cifrado, 64);
    ZeroMessage(s, mensagem[..64]);
    assert cifrado[..64] == cifrado[..];
  }

  /** Encrypting 64 zero bytes yields the block function's output. */
  lemma ZeroMessage(s: Block, m: Bytes)
    requires |m| == 64 && forall i :: 0 <= i < 64 ==> m[i] == 0
    ensures Stream(s, m) == KeyBlock(s)
  {
    hide KeyBlock, XorByte, At;
    AtTwice(s, 0, 0);
    forall i | 0 <= i < 64
      ensures Stream(s, m)[i] == KeyBlock(s)[i]
    {
      XorByteUndone(0, KeyByte(s, i));
    }
  }

  // ---------------------------------------------------------------------
  // Packets
  // ---------------------------------------------------------------------

  /** Bytes of the Ethernet and operation headers: addresses, type 0x1234, operation, round. */
  const HEADER: nat := 31

  function Dst(p: Bytes): (r: Bytes)
    requires |p| >= HEADER
    ensures |r| == 6
  {
    p[..6]
  }

  function Src(p: Bytes): (r: Bytes)
    requires |p| >= HEADER
    ensures |r| == 6
  {
    p[6..12]
  }

  predicate OurType(p: Bytes)
    requires |p| >= HEADER
  {
    p[12] == 0x12 && p[13] == 0x34
  }

  function Oper(p: Bytes): bv8
    requires |p| >= HEADER
  {
    p[14]
  }

  function Round(p: Bytes): (r: Bytes)
    requires |p| >= HEADER
    ensures |r| == 16
  {
    p[15..31]
  }

  function Frame(dst: Bytes, src: Bytes, oper: bv8, round: Bytes, body: Bytes): (p: Bytes)
    requires |dst| == |src| == 6 && |round| == 16
    ensures |p| == HEADER + |body|
  {
    dst + src + [0x12, 0x34, oper] + round + body
  }

  lemma FrameFields(dst: Bytes, src: Bytes, oper: bv8, round: Bytes, body: Bytes)
    requires |dst| == |src| == 6 && |round| == 16
    ensures var p := Frame(dst, src, oper, round, body);
            Dst(p) == dst && Src(p) == src && OurType(p) && Oper(p) == oper && Round(p) == round && p[HEADER..] == body
  {
  }

  // Fields of the setup, reply and verification bodies.
  function SetupKey(p: Bytes): (r: Bytes)
    requires |p| >= HEADER + 48
    ensures |r| == 32
  {
    p[31..63]
  }

  function SetupId(p: Bytes): (r: Bytes)
    requires |p| >= HEADER + 48
    ensures |r| == 16
  {
    p[63..79]
  }

  function DeviceId(p: Bytes): (r: Bytes)
    requires |p| >= HEADER + 16
    ensures |r| == 16
  {
    p[31..47]
  }

  function ReplyProva(p: Bytes): (r: Bytes)
    requires |p| >= HEADER + 80
    ensures |r| == 64
  {
    p[47..111]
  }

  function Verificacao(p: Bytes): (r: Bytes)
    requires |p| >= HEADER + 144
    ensures |r| == 64
  {
    p[47..111]
  }

  function VerifiedProva(p: Bytes): (r: Bytes)
    requires |p| >= HEADER + 144
    ensures |r| == 64
  {
    p[111..175]
  }

  /** Setup, reply and verification frames written field after field, in the order of their structures. */
  lemma BodyFields(dst: Bytes, src: Bytes, round: Bytes, key: Bytes, id: Bytes, prova: Bytes, verificacao: Bytes)
    requires |dst| == |src| == 6 && |round| == |id| == 16 && |key| == 32 && |prova| == |verificacao| == 64
    ensures var p := dst + src + [0x12, 0x34] + [0x05] + round + key + id;
            && |p| == 79 && OurType(p) && Oper(p) == 0x5 && Dst(p) == dst && Src(p) == src
            && Round(p) == round && SetupKey(p) == key && SetupId(p) == id
    ensures var p := dst + src + [0x12, 0x34] + [0x02] + round + id + prova;
            |p| == 111 && OurType(p) && Oper(p) == 0x2 && Round(p) == round && DeviceId(p) == id && ReplyProva(p) == prova
    ensures var p := dst + src + [0x12, 0x34] + [0x04] + round + id + verificacao + prova;
            && |p| == 175 && OurType(p) && Oper(p) == 0x4 && Round(p) == round && DeviceId(p) == id
            && Verificacao(p) == verificacao && VerifiedProva(p) == prova
  {
  }

  /** The captured packet holds the fields its operation announces. */
  predicate WellFormed(p: Bytes) {
    |p| >= HEADER && (Oper(p) == 0x5 ==> |p| >= HEADER + 48) && (Oper(p) == 0x2 ==> |p| >= HEADER + 80)
  }

  // ---------------------------------------------------------------------
  // The prover
  // ---------------------------------------------------------------------

  /** The text a field of the packet is turned into. */
  function WireText(b: Bytes): (s: string)
    requires |b| % 4 == 0
    ensures |s| == 2 * |b| && IsHex(s)
  {
    TwiceMod(|b|);
    SwapHexDigits(ToHex(b));
    SwapHex(ToHex(b))
  }

  /** The bytes text is sent as. */
  function WireBytes(s: string): (b: Bytes)
    requires IsHex(s) && |s| % 8 == 0
    ensures |b| == |s| / 2
  {
    SwapHexDigits(s);
    FromHex(SwapHex(s))
  }

  /** What crosses the wire is the field with the bytes of each word reversed. */
  lemma WireSwaps(b: Bytes, s: string)
    requires |b| % 4 == 0 && IsHex(s) && |s| % 8 == 0
    ensures FromHex(WireText(b)) == SwapBytes(b) && WireBytes(s) == SwapBytes(FromHex(s))
  {
    HexRoundTrip(b);
    SwapHexIsSwapBytes(ToHex(b));
    SwapHexIsSwapBytes(s);
  }

  /** Receiving and sending a field again gives the same bytes. */
  lemma WireRoundTrip(b: Bytes)
    requires |b| % 4 == 0
    ensures WireBytes(WireText(b)) == b
  {
    hide WireText, WireBytes;
    WireSwaps(b, WireText(b));
    SwapBytesTwice(b);
  }

  /** The global `id_dispositivo_hex`, null at first, and the secrets in secure storage. */
  datatype ProverState = Running(id: Option<string>, secrets: Option<string>) | Crashed

  predicate GoodProver(st: ProverState) {
    st.Running? && st.id.Some? ==>
      && IsHex(st.id.value) && |st.id.value| == 32
      && st.secrets.Some? && IsHex(st.secrets.value) && |st.secrets.value| == 96
  }

  /** The proof for a round text of two 16-character halves. */
  function SecretsProof(secrets: string, roundText: string): (p: Bytes)
    requires IsHex(secrets) && |secrets| == 96 && IsHex(roundText) && |roundText| == 32
    ensures |p| == 64
  {
    Proof(FromHex(secrets[..64]), FromHex(roundText[..16]), FromHex(roundText[16..]), FromHex(secrets[64..]))
  }

  /** Device id and proof, as the reply carries them. */
  function ReplyBody(id: string, prova: Bytes): (r: Bytes)
    requires IsHex(id) && |id| == 32 && |prova| == 64
    ensures |r| == 80
  {
    WireBytes(id) + WireBytes(ToHex(prova))
  }

  /** The proof asked for by a request. */
  function RequestedProof(secrets: string, p: Bytes): (r: Bytes)
    requires IsHex(secrets) && |secrets| == 96 && |p| >= HEADER
    ensures |r| == 64
  {
    SecretsProof(secrets, WireText(Round(p)))
  }

  /** The round field of a request, received and sent again. */
  function SentRound(p: Bytes): (r: Bytes)
    requires |p| >= HEADER
    ensures |r| == 16
  {
    WireBytes(WireText(Round(p)))
  }

  /** The reply to a request. */
  function ReplyTo(id: string, secrets: string, p: Bytes): (r: Bytes)
    requires IsHex(id) && |id| == 32 && IsHex(secrets) && |secrets| == 96 && |p| >= HEADER
    ensures |r| == HEADER + 80
  {
    Frame(Src(p), Dst(p), 0x2, SentRound(p), ReplyBody(id, RequestedProof(secrets, p)))
  }

  /** The secrets file: key text, then id text. */
  function Secrets(key: Bytes, id: Bytes): (s: string)
    requires |key| == 32 && |id| == 16
    ensures |s| == 96 && IsHex(s)
  {
    WireText(key) + WireText(id)
  }

  function AfterSetup(key: Bytes, id: Bytes): ProverState
    requires |key| == 32 && |id| == 16
  {
    Running(Some(WireText(id)), Some(Secrets(key, id)))
  }

  /**
   * packet_handler of the service: the next state and the packet sent, if any. Answering a request
   * copies from the id, so one that comes before the first setup ends the service.
   */
  function ProverStep(st: ProverState, p: Bytes): (ProverState, Option<Bytes>)
    requires GoodProver(st) && WellFormed(p)
  {
    if st.Crashed? || !OurType(p) then (st, None)
    else if Oper(p) == 0x1 then
      if st.id.Some? then (st, Some(ReplyTo(st.id.value, st.secrets.value, p))) else (Crashed, None)
    else if Oper(p) == 0x5 then (AfterSetup(SetupKey(p), SetupId(p)), None)
    else (st, None)
  }

  lemma AfterSetupGood(key: Bytes, id: Bytes)
    requires |key| == 32 && |id| == 16
    ensures GoodProver(AfterSetup(key, id))
  {
    hide WireText, Secrets;
  }

  /** A text field of a packet: convert and swap in place. */
  method ReadField(b: Bytes) returns (text: string)
    requires |b| % 4 == 0
    ensures text == WireText(b)
  {
    var buffer := ByteArrayToHexString(b);
    SwapEndian(buffer);
    text := buffer[..];
  }

  /** ... and back: swap a copy in place and convert. */
  method WriteField(text: string) returns (b: Bytes)
    requires IsHex(text) && |text| % 8 == 0
    ensures b == WireBytes(text)
  {
    var buffer := new char[|text|](i requires 0 <= i < |text| => text[i]);
    assert buffer[..] == text;
    SwapEndian(buffer);
    SwapHexIsSwapBytes(text);
    b := HexBytes(buffer[..]);
  }

  class Prover {
    var id: Option<string>
    var secrets: Option<string>
    /** Set when the process has died of the null id. */
    var crashed: bool

    function State(): ProverState
      reads this
    {
      if crashed then Crashed else Running(id, secrets)
    }

    constructor ()
      ensures State() == Running(None, None)
    {
      id, secrets, crashed := None, None, false;
    }

    /** packet_handler. */
    method PacketHandler(p: Bytes) returns (reply: Option<Bytes>)
      requires State().Running? && GoodProver(State()) && WellFormed(p)
      modifies this
      ensures GoodProver(State()) && (State(), reply) == ProverStep(old(State()), p)
    {
      hide WireText, WireBytes, FromHex, Proof, Frame;
      reply := None;
      if OurType(p) {
        var roundText := ReadField(Round(p));
        if Oper(p) == 0x1 {
          if id == None {
            crashed := true;
          } else {
            reply := SendReply(p, roundText, id.value, secrets.value);
          }
        } else if Oper(p) == 0x5 {
          var key := ReadField(SetupKey(p));
          var idText := ReadField(SetupId(p));
          AfterSetupGood(SetupKey(p), SetupId(p));
          id := Some(idText);
          secrets := Some(key + idText);
        }
      }
    }
  }

  /** The call into the trusted application and envia_pacote_resposta. */
  method SendReply(p: Bytes, roundText: string, id: string, secrets: string) returns (reply: Option<Bytes>)
    requires IsHex(id) && |id| == 32 && IsHex(secrets) && |secrets| == 96 && |p| >= HEADER
    requires roundText == WireText(Round(p))
    ensures reply == Some(ReplyTo(id, secrets, p))
  {
    hide WireText, WireBytes, FromHex, Proof, Frame, ToHex;
    var prova := ReplyProof(secrets, roundText[..16], roundText[16..]);
    var provaBuffer := ByteArrayToHexString(prova[..]);
    var roundBytes := WriteField(roundText);
    var idBytes := WriteField(id);
    var provaBytes := WriteField(provaBuffer[..]);
    reply := Some(Frame(Src(p), Dst(p), 0x2, roundBytes, idBytes + provaBytes));
  }

  // ---------------------------------------------------------------------
  // What replies carry, over whole runs
  // ---------------------------------------------------------------------

  /** The proof for the raw bytes of a round field, a key and an id as sent on the wire. */
  function WireProof(key: Bytes, round: Bytes, id: Bytes): (p: Bytes)
    requires |key| == 32 && |round| == 16 && |id| == 16
    ensures |p| == 64
  {
    var r := SwapBytes(round);
    Proof(SwapBytes(key), r[..8], r[8..], SwapBytes(id))
  }

  lemma SecretsProofIs(key: Bytes, id: Bytes, round: Bytes)
    requires |key| == 32 && |id| == 16 && |round| == 16
    ensures SecretsProof(Secrets(key, id), WireText(round)) == WireProof(key, round, id)
  {
    hide Proof, WireText, FromHex;
    var s, r := Secrets(key, id), WireText(round);
    assert s[..64] == WireText(key) && s[64..] == WireText(id);
    WireSwaps(key, r);
    WireSwaps(id, r);
    WireSwaps(round, r);
    RoundHalves(r);
  }

  lemma RoundHalves(r: string)
    requires IsHex(r) && |r| == 32
    ensures IsHex(r[..16]) && FromHex(r[..16]) == FromHex(r)[..8] && IsHex(r[16..]) && FromHex(r[16..]) == FromHex(r)[8..]
  {
    hide FromHex;
    FromHexSlice(r, 0, 8);
    FromHexSlice(r, 8, 16);
    assert r[..16] == r[0..16] && r[16..] == r[16..32];
    assert FromHex(r)[0..8] == FromHex(r)[..8] && FromHex(r)[8..16] == FromHex(r)[8..];
  }

  /** The reply a device with this key and id owes a request. */
  function HonestReply(key: Bytes, id: Bytes, p: Bytes): (r: Bytes)
    requires |key| == 32 && |id| == 16 && |p| >= HEADER
    ensures |r| == HEADER + 80
  {
    Frame(Src(p), Dst(p), 0x2, Round(p), id + SwapBytes(WireProof(key, Round(p), id)))
  }

  /** The reply echoes the request's round bytes and the setup's id bytes, and carries the proof. */
  lemma ReplyIsHonest(key: Bytes, id: Bytes, p: Bytes)
    requires |key| == 32 && |id| == 16 && |p| >= HEADER
    ensures ReplyTo(WireText(id), Secrets(key, id), p) == HonestReply(key, id, p)
  {
    hide Frame, WireProof, WireText, WireBytes, Secrets, SecretsProof, FromHex, ToHex;
    SecretsProofIs(key, id, Round(p));
    WireRoundTrip(Round(p));
    WireRoundTrip(id);
    var prova := WireProof(key, Round(p), id);
    WireSwaps(prova, ToHex(prova));
    HexRoundTrip(prova);
  }

  lemma SwapZeros(n: nat)
    requires n % 4 == 0
    ensures SwapBytes(Zeros(n)) == Zeros(n)
  {
  }

  /** A request for round 1, as it travels: the device with zero key and identifier answers dc aa c0 0c ... */
  lemma KnownReply(p: Bytes)
    requires |p| >= HEADER && Round(p) == [0, 0, 0, 1] + Zeros(12)
    ensures ReplyProva(HonestReply(Zeros(32), Zeros(16), p))[..8] == [0xdc, 0xaa, 0xc0, 0x0c, 0xb2, 0xff, 0xf8, 0x7c]
  {
    hide Proof, Frame;
    var r := SwapBytes(Round(p));
    SwapZeros(32);
    SwapZeros(16);
    assert r[..8] == [1, 0, 0, 0, 0, 0, 0, 0] && r[8..] == Zeros(8);
    KnownProof();
    var prova := WireProof(Zeros(32), Round(p), Zeros(16));
    assert prova[..8] == [0x0c, 0xc0, 0xaa, 0xdc, 0x7c, 0xf8, 0xff, 0xb2];
    FirstWords(prova);
    FrameFields(Src(p), Dst(p), 0x2, Round(p), Zeros(16) + SwapBytes(prova));
    BodyTail(HonestReply(Zeros(32), Zeros(16), p), Zeros(16), SwapBytes(prova));
  }

  lemma FirstWords(b: Bytes)
    requires |b| == 64
    ensures SwapBytes(b)[..8] == [b[3], b[2], b[1], b[0], b[7], b[6], b[5], b[4]]
  {
  }

  lemma BodyTail(p: Bytes, id: Bytes, prova: Bytes)
    requires |p| >= HEADER + 80 && |id| == 16 && |prova| == 64 && p[HEADER..] == id + prova
    ensures ReplyProva(p) == prova
  {
    assert p[47..111] == p[HEADER..][16..80];
  }

  /** A packet arriving at one of the devices. */
  datatype Event = Event(device: nat, packet: Bytes)

  predicate GoodEvents(events: seq<Event>) { forall i :: 0 <= i < |events| ==> WellFormed(events[i].packet) }

  /** State of a device after the events, from an empty store. */
  function StateAfter(events: seq<Event>, d: nat): (st: ProverState)
    requires GoodEvents(events)
    ensures GoodProver(st)
    decreases |events|
  {
    if events == [] then Running(None, None)
    else
      var n := |events| - 1;
      var st := StateAfter(events[..n], d);
      if events[n].device != d then st
      else
        StepKeepsGood(st, events[n].packet);
        ProverStep(st, events[n].packet).0
  }

  lemma StepKeepsGood(st: ProverState, p: Bytes)
    requires GoodProver(st) && WellFormed(p)
    ensures GoodProver(ProverStep(st, p).0)
  {
    hide AfterSetup, ReplyTo;
    if OurType(p) && Oper(p) == 0x5 {
      AfterSetupGood(SetupKey(p), SetupId(p));
    }
  }

  predicate IsSetup(p: Bytes) { WellFormed(p) && OurType(p) && Oper(p) == 0x5 }

  predicate IsRequest(p: Bytes) { WellFormed(p) && OurType(p) && Oper(p) == 0x1 }

  /** The last setup packet the device received. */
  function LatestSetup(events: seq<Event>, d: nat): (r: Option<Bytes>)
    ensures r.Some? ==> IsSetup(r.value) && Event(d, r.value) in events
    decreases |events|
  {
    if events == [] then None
    else
      var e := events[|events| - 1];
      if e.device == d && IsSetup(e.packet) then Some(e.packet) else LatestSetup(events[..|events| - 1], d)
  }

  /** Every request to the device comes after a setup of it. */
  ghost predicate SetupFirst(events: seq<Event>, d: nat) {
    forall i :: 0 <= i < |events| && events[i].device == d && IsRequest(events[i].packet) ==>
                  LatestSetup(events[..i], d).Some?
  }

  lemma SetupFirstStep(events: seq<Event>, d: nat)
    requires events != []
    ensures var n := |events| - 1;
            SetupFirst(events, d) <==>
              SetupFirst(events[..n], d) && (events[n].device == d && IsRequest(events[n].packet) ==> LatestSetup(events[..n], d).Some?)
  {
    hide LatestSetup, IsRequest;
    var n := |events| - 1;
    forall i | 0 <= i < n
      ensures events[..n][i] == events[i] && events[..n][..i] == events[..i]
    {
    }
    if SetupFirst(events, d) {
      forall i | 0 <= i < |events[..n]| && events[..n][i].device == d && IsRequest(events[..n][i].packet)
        ensures LatestSetup(events[..n][..i], d).Some?
      {
        assert events[i].device == d;
      }
    }
    if SetupFirst(events[..n], d) {
      forall i | 0 <= i < n && events[i].device == d && IsRequest(events[i].packet)
        ensures LatestSetup(events[..i], d).Some?
      {
        assert events[..n][i].device == d;
      }
    }
  }

  /** The device is down exactly after a request before its first setup; else its state is that of its latest setup. */
  lemma {:induction false} StateIsLatestSetup(events: seq<Event>, d: nat)
    requires GoodEvents(events)
    ensures StateAfter(events, d) == if !SetupFirst(events, d) then Crashed
                                     else match LatestSetup(events, d)
                                          case None => Running(None, None)
                                          case Some(p) => AfterSetup(SetupKey(p), SetupId(p))
    decreases |events|
  {
    hide ReplyTo, SetupFirst, WireText, Secrets;
    if events != [] {
      SetupFirstStep(events, d);
      StateIsLatestSetup(events[..|events| - 1], d);
    } else {
      NoEvents(d);
    }
  }

  lemma NoEvents(d: nat)
    ensures SetupFirst([], d)
  {
  }

  /** What the device at event `i` sends. */
  function ReplyAt(events: seq<Event>, i: nat): Option<Bytes>
    requires GoodEvents(events) && i < |events|
  {
    ProverStep(StateAfter(events[..i], events[i].device), events[i].packet).1
  }

  /**
   * Over any sequence of packets: a device answers a request exactly when no request reached it
   * before its first setup, and then with the honest reply for its latest setup.
   */
  lemma RepliesAreHonest(events: seq<Event>, i: nat)
    requires GoodEvents(events) && i < |events|
    ensures var e, setup := events[i], LatestSetup(events[..i], events[i].device);
            ReplyAt(events, i) == if IsRequest(e.packet) && SetupFirst(events[..i], e.device) && setup.Some?
                                  then Some(HonestReply(SetupKey(setup.value), SetupId(setup.value), e.packet))
                                  else None
  {
    hide ReplyTo, HonestReply, Secrets, WireText, SetupFirst;
    var e, setup := events[i], LatestSetup(events[..i], events[i].device);
    StateIsLatestSetup(events[..i], e.device);
    if setup.Some? {
      ReplyIsHonest(SetupKey(setup.value), SetupId(setup.value), e.packet);
    }
  }

  /** A request that comes too early silences the device for good, whatever setups follow. */
  lemma EarlyRequestSilences(events: seq<Event>, j: nat, i: nat)
    requires GoodEvents(events) && j < i < |events| && events[j].device == events[i].device
    requires IsRequest(events[j].packet) && LatestSetup(events[..j], events[j].device) == None
    ensures ReplyAt(events, i) == None
  {
    hide ReplyAt, LatestSetup, HonestReply;
    RepliesAreHonest(events, i);
    assert events[..i][j] == events[j] && events[..i][..j] == events[..j];
  }

  /** A frame byte for byte: addresses, type, operation, round, and what follows. */
  function Bare(dst: Bytes, src: Bytes, oper: bv8, round: Bytes, rest: Bytes): Bytes {
    dst + src + [0x12, 0x34] + [oper] + round + rest
  }

  lemma BareIsFrame(dst: Bytes, src: Bytes, oper: bv8, round: Bytes, rest: Bytes)
    requires |dst| == |src| == 6 && |round| == 16
    ensures Bare(dst, src, oper, round, rest) == Frame(dst, src, oper, round, rest)
  {
  }

  /**
   * A whole exchange in bytes: a device set up with zero key and identifier answers the request for
   * round 1 with operation 2, the addresses exchanged, the round and the identifier as received,
   * and a proof that starts dc aa c0 0c.
   */
  lemma KnownExchange(dst: Bytes, src: Bytes, dst': Bytes, src': Bytes, round: Bytes, d: nat)
    requires |dst| == |src| == |dst'| == |src'| == 6 && |round| == 16
    ensures var ask := [0, 0, 0, 1] + Zeros(12);
            var setup := Bare(dst, src, 0x05, round, Zeros(32) + Zeros(16));
            var request := Bare(dst', src', 0x01, ask, []);
            var events := [Event(d, setup), Event(d, request)];
            && GoodEvents(events) && ReplyAt(events, 0) == None && ReplyAt(events, 1).Some?
            && var reply := ReplyAt(events, 1).value;
               && |reply| == 111 && reply[..47] == Bare(src', dst', 0x02, ask, Zeros(16))
               && reply[47..55] == [0xdc, 0xaa, 0xc0, 0x0c, 0xb2, 0xff, 0xf8, 0x7c]
  {
    hide HonestReply, Zeros, Bare;
    var ask := [0, 0, 0, 1] + Zeros(12);
    var setup := Bare(dst, src, 0x05, round, Zeros(32) + Zeros(16));
    var request := Bare(dst', src', 0x01, ask, []);
    var events := [Event(d, setup), Event(d, request)];
    SetupBytes(dst, src, round, Zeros(32), Zeros(16));
    BareIsFrame(dst', src', 0x01, ask, []);
    FrameFields(dst', src', 0x01, ask, []);
    OneSetup(events, d);
    RepliesAreHonest(events, 0);
    RepliesAreHonest(events, 1);
    KnownReply(request);
    ReplyBytes(Zeros(32), Zeros(16), request);
  }

  lemma SetupBytes(dst: Bytes, src: Bytes, round: Bytes, key: Bytes, id: Bytes)
    requires |dst| == |src| == 6 && |round| == |id| == 16 && |key| == 32
    ensures var p := Bare(dst, src, 0x05, round, key + id);
            |p| == 79 && IsSetup(p) && !IsRequest(p) && SetupKey(p) == key && SetupId(p) == id
  {
    var p := Bare(dst, src, 0x05, round, key + id);
    assert p == dst + src + [0x12, 0x34] + [0x05] + round + key + id;
  }

  lemma OneSetup(events: seq<Event>, d: nat)
    requires |events| == 2 && events[0].device == d && IsSetup(events[0].packet)
    ensures LatestSetup(events[..0], d) == None && LatestSetup(events[..1], d) == Some(events[0].packet)
    ensures SetupFirst(events[..1], d)
  {
    assert events[..1] == [events[0]];
    assert [events[0]][..0] == [];
  }

  lemma ReplyBytes(key: Bytes, id: Bytes, p: Bytes)
    requires |key| == 32 && |id| == 16 && |p| >= HEADER
    ensures var r := HonestReply(key, id, p);
            && |r| == 111 && r[..47] == Bare(Src(p), Dst(p), 0x02, Round(p), id)
            && ReplyProva(r)[..8] == r[47..55]
  {
    hide WireProof;
  }

  // ---------------------------------------------------------------------
  // The verifier
  // ---------------------------------------------------------------------

  /** `struct id_chave_prova_t`; the stored proof is not used when verifying. */
  datatype Record = Record(id: string, chave: string, prova: string)

  /** Records in use by the direct look-up. */
  const RECORDS: nat := 20000

  predicate GoodRecords(dados: seq<Record>) {
    |dados| >= RECORDS && forall i :: 0 <= i < RECORDS ==> IsHex(dados[i].chave) && |dados[i].chave| == 64
  }

  /** Body of the operation 0x4 packet: id, computed proof, received proof. */
  function VerificationBody(chave: string, p: Bytes): (r: Bytes)
    requires IsHex(chave) && |chave| == 64 && |p| >= HEADER + 80
    ensures |r| == 144
  {
    var id := WireText(DeviceId(p));
    WireBytes(id) + ComputedProof(chave, p) + WireBytes(WireText(ReplyProva(p)))
  }

  function ComputedProof(chave: string, p: Bytes): (r: Bytes)
    requires IsHex(chave) && |chave| == 64 && |p| >= HEADER + 80
    ensures |r| == 64
  {
    WireBytes(ToHex(SecretsProof(chave + WireText(DeviceId(p)), WireText(Round(p)))))
  }

  function VerificationOf(chave: string, p: Bytes): (r: Bytes)
    requires IsHex(chave) && |chave| == 64 && |p| >= HEADER + 80
    ensures |r| == HEADER + 144
  {
    Frame(Src(p), Dst(p), 0x4, SentRound(p), VerificationBody(chave, p))
  }

  /** packet_handler of the verifier: `contador_pacotes` and the packet sent, if any. */
  function VerifierStep(dados: seq<Record>, contador: u32, p: Bytes): (u32, Option<Bytes>)
    requires GoodRecords(dados) && WellFormed(p)
  {
    if OurType(p) && Oper(p) == 0x2 then
      (Plus(contador, 1), Some(VerificationOf(dados[contador % RECORDS].chave, p)))
    else (contador, None)
  }

  class Verifier {
    const dados: seq<Record>
    const total: u32
    var contador: u32
    /** Set by pcap_breakloop. */
    var stopped: bool

    constructor (dados: seq<Record>, total: u32)
      requires GoodRecords(dados)
      ensures GoodRecords(this.dados) && this.dados == dados && this.total == total && contador == 0 && !stopped
    {
      this.dados, this.total, contador, stopped := dados, total, 0, false;
    }

    /** packet_handler. */
    method PacketHandler(p: Bytes) returns (sent: Option<Bytes>)
      requires GoodRecords(dados) && WellFormed(p) && !stopped
      modifies this
      ensures (contador, sent) == VerifierStep(dados, old(contador), p)
      ensures stopped == (sent.Some? && contador == total)
    {
      hide WireText, WireBytes, VerificationOf;
      sent := None;
      if OurType(p) {
        var roundText := ReadField(Round(p));
        if Oper(p) == 0x2 {
          var chave := BuscarPorIdDireto(contador);
          sent := SendVerification(p, roundText, chave);
          contador := Plus(contador, 1);
          if contador == total {
            stopped := true;
          }
        }
      }
    }

    /** buscarPorIdDireto: the record is chosen by the packet count alone. */
    method BuscarPorIdDireto(id: u32) returns (chave: string)
      requires GoodRecords(dados)
      ensures chave == dados[id % 20000].chave
    {
      chave := dados[id % RECORDS].chave;
    }
  }

  /** The call of forro-args-dra2 and envia_pacote_verificacao. */
  method SendVerification(p: Bytes, roundText: string, chave: string) returns (sent: Option<Bytes>)
    requires IsHex(chave) && |chave| == 64 && |p| >= HEADER + 80 && roundText == WireText(Round(p))
    ensures sent == Some(VerificationOf(chave, p))
  {
    hide WireText, WireBytes, FromHex, Proof, Frame, ToHex;
    var idText := ReadField(DeviceId(p));
    var provaText := ReadField(ReplyProva(p));
    var verificacao := VerifierProof(chave, roundText[16..], roundText[..16], idText);
    var verificacaoBuffer := ByteArrayToHexString(verificacao[..]);
    var roundBytes := WriteField(roundText);
    var idBytes := WriteField(idText);
    var provaBytes := WriteField(provaText);
    var verificacaoBytes := WriteField(verificacaoBuffer[..]);
    assert (chave + idText)[..64] == chave && (chave + idText)[64..] == idText;
    sent := Some(Frame(Src(p), Dst(p), 0x4, roundBytes, idBytes + verificacaoBytes + provaBytes));
  }

  // ---------------------------------------------------------------------
  // Honest runs verify
  // ---------------------------------------------------------------------

  predicate IsReply(p: Bytes) { WellFormed(p) && OurType(p) && Oper(p) == 0x2 }

  /** The proof for a key, in wire order, over the round and device id that a reply carries. */
  function ExpectedProof(key: Bytes, p: Bytes): (r: Bytes)
    requires |key| == 32 && |p| >= HEADER + 16
    ensures |r| == 64
  {
    SwapBytes(WireProof(key, Round(p), DeviceId(p)))
  }

  /** Reply `r` answers request `q` for a device set up with this key and id. */
  ghost predicate Answers(r: Bytes, q: Bytes, key: Bytes, id: Bytes)
    requires |key| == 32 && |q| >= HEADER
  {
    && IsReply(r) && Dst(r) == Src(q) && Src(r) == Dst(q) && Round(r) == Round(q) && DeviceId(r) == id
    && ReplyProva(r) == ExpectedProof(key, r)
  }

  lemma HonestReplyAnswers(key: Bytes, id: Bytes, q: Bytes)
    requires |key| == 32 && |id| == 16 && |q| >= HEADER
    ensures Answers(HonestReply(key, id, q), q, key, id)
  {
    hide WireProof, Frame;
    var body := id + SwapBytes(WireProof(key, Round(q), id));
    FrameFields(Src(q), Dst(q), 0x2, Round(q), body);
    var r := HonestReply(key, id, q);
    assert r[31..47] == r[HEADER..][..16] && r[47..111] == r[HEADER..][16..80];
  }

  /** A record's key in the byte order of the wire. */
  function RecordKey(chave: string): (r: Bytes)
    requires IsHex(chave) && |chave| == 64
    ensures |r| == 32
  {
    SwapBytes(FromHex(chave))
  }

  lemma ComputedProofIs(chave: string, p: Bytes)
    requires IsHex(chave) && |chave| == 64 && |p| >= HEADER + 80
    ensures ComputedProof(chave, p) == ExpectedProof(RecordKey(chave), p)
  {
    hide Proof, WireText, FromHex, WireBytes, ToHex;
    var id, r := WireText(DeviceId(p)), WireText(Round(p));
    assert (chave + id)[..64] == chave && (chave + id)[64..] == id;
    WireSwaps(DeviceId(p), r);
    WireSwaps(Round(p), r);
    RoundHalves(r);
    SwapBytesTwice(FromHex(chave));
    var prova := SecretsProof(chave + id, r);
    HexRoundTrip(prova);
    WireSwaps(prova, ToHex(prova));
  }

  /** `v` reports on reply `p`: id and proof as received, beside the proof for `key`. */
  ghost predicate Reports(v: Bytes, p: Bytes, key: Bytes)
    requires |key| == 32 && |p| >= HEADER + 80
  {
    && |v| == HEADER + 144 && OurType(v) && Oper(v) == 0x4 && Dst(v) == Src(p) && Src(v) == Dst(p) && Round(v) == Round(p)
    && DeviceId(v) == DeviceId(p) && VerifiedProva(v) == ReplyProva(p) && Verificacao(v) == ExpectedProof(key, p)
  }

  lemma VerificationReports(chave: string, p: Bytes)
    requires IsHex(chave) && |chave| == 64 && |p| >= HEADER + 80
    ensures Reports(VerificationOf(chave, p), p, RecordKey(chave))
  {
    hide WireProof, Frame, ComputedProof, WireText, WireBytes, RecordKey, ExpectedProof;
    var body := VerificationBody(chave, p);
    ComputedProofIs(chave, p);
    WireRoundTrip(Round(p));
    WireRoundTrip(DeviceId(p));
    WireRoundTrip(ReplyProva(p));
    FrameFields(Src(p), Dst(p), 0x4, SentRound(p), body);
    var v := VerificationOf(chave, p);
    assert v[31..47] == v[HEADER..][..16] && v[47..111] == v[HEADER..][16..80] && v[111..175] == v[HEADER..][80..144];
  }

  /** Operation 2 and no other makes the verifier send: the same fields, the addresses exchanged, operation 4. */
  lemma VerifierSends(dados: seq<Record>, c: u32, p: Bytes)
    requires GoodRecords(dados) && WellFormed(p)
    ensures var (c', sent) := VerifierStep(dados, c, p);
            if p[12..15] == [0x12, 0x34, 0x02] then
              && c' == (if c == TWO32 - 1 then 0 else c + 1) && sent.Some? && |sent.value| == 175
              && sent.value[..47] == p[6..12] + p[..6] + [0x12, 0x34, 0x04] + p[15..47] && sent.value[111..] == p[47..111]
            else c' == c && sent == None
  {
    hide VerificationOf, ExpectedProof, GoodRecords;
    assert p[12..15] == [p[12], p[13], p[14]];
    if p[12..15] == [0x12, 0x34, 0x02] {
      var chave := RecordAt(dados, c);
      VerificationReports(chave, p);
      SentBytes(VerificationOf(chave, p), p, RecordKey(chave));
    }
  }

  lemma RecordAt(dados: seq<Record>, c: u32) returns (chave: string)
    requires GoodRecords(dados)
    ensures chave == dados[c % RECORDS].chave && IsHex(chave) && |chave| == 64
  {
    chave := dados[c % RECORDS].chave;
  }

  lemma SentBytes(v: Bytes, p: Bytes, key: Bytes)
    requires |key| == 32 && |p| >= HEADER + 80 && Reports(v, p, key)
    ensures |v| == 175 && v[..47] == p[6..12] + p[..6] + [0x12, 0x34, 0x04] + p[15..47] && v[111..] == p[47..111]
  {
    hide ExpectedProof;
    assert v[..47] == v[..6] + v[6..12] + [v[12], v[13], v[14]] + v[15..31] + v[31..47];
    assert p[15..47] == p[15..31] + p[31..47];
  }

  predicate GoodPackets(ps: seq<Bytes>) { forall i :: 0 <= i < |ps| ==> WellFormed(ps[i]) }

  /** The replies among the packets, from whatever sender. */
  function Replies(ps: seq<Bytes>): (n: nat)
    ensures n <= |ps|
    decreases |ps|
  {
    if ps == [] then 0 else Replies(ps[..|ps| - 1]) + if IsReply(ps[|ps| - 1]) then 1 else 0
  }

  /** contador_pacotes, and whether the capture loop has been left. */
  datatype VerifierState = VerifierState(contador: u32, stopped: bool)

  /** A packet captured while the loop runs is handled; afterwards none is. */
  function Capture(dados: seq<Record>, total: u32, v: VerifierState, p: Bytes): (VerifierState, Option<Bytes>)
    requires GoodRecords(dados) && WellFormed(p)
  {
    if v.stopped then (v, None)
    else
      var step := VerifierStep(dados, v.contador, p);
      (VerifierState(step.0, step.1.Some? && step.0 == total), step.1)
  }

  function VerifierAfter(dados: seq<Record>, total: u32, ps: seq<Bytes>): VerifierState
    requires GoodRecords(dados) && GoodPackets(ps)
    decreases |ps|
  {
    if ps == [] then VerifierState(0, false)
    else Capture(dados, total, VerifierAfter(dados, total, ps[..|ps| - 1]), ps[|ps| - 1]).0
  }

  /** The number of replies after which the loop is left; a total of 0 is met when the count wraps. */
  function Limit(total: u32): nat { if total == 0 then TWO32 else total }

  lemma StepCounts(dados: seq<Record>, c: u32, p: Bytes)
    requires GoodRecords(dados) && WellFormed(p)
    ensures VerifierStep(dados, c, p) == if IsReply(p) then (Plus(c, 1), Some(VerificationOf(dados[c % RECORDS].chave, p)))
                                         else (c, None)
  {
    hide VerificationOf, GoodRecords;
  }

  lemma PlusOne(c: u32)
    ensures Plus(c, 1) == if c == TWO32 - 1 then 0 else c + 1
  {
  }

  /** Below the limit the loop runs and the count is the number of replies; at the limit it is left. */
  lemma {:induction false} CountsReplies(dados: seq<Record>, total: u32, ps: seq<Bytes>)
    requires GoodRecords(dados) && GoodPackets(ps)
    ensures var v := VerifierAfter(dados, total, ps);
            if Replies(ps) < Limit(total) then v == VerifierState(Replies(ps), false) else v.stopped
    decreases |ps|
  {
    hide VerifierStep, GoodRecords, IsReply, Plus, VerificationOf;
    if ps != [] {
      var n := |ps| - 1;
      CountsReplies(dados, total, ps[..n]);
      var v := VerifierAfter(dados, total, ps[..n]);
      PlusOne(v.contador);
      StepCounts(dados, v.contador, ps[n]);
    }
  }

  /** A reply sent at event `i` answers that event's packet for the device's latest setup. */
  ghost predicate Answered(events: seq<Event>, i: nat, p: Bytes)
    requires GoodEvents(events) && i < |events|
  {
    var q, setup := events[i].packet, LatestSetup(events[..i], events[i].device);
    IsRequest(q) && setup.Some? && Answers(p, q, SetupKey(setup.value), SetupId(setup.value))
  }

  lemma ArrivalAnswers(events: seq<Event>, i: nat, p: Bytes)
    requires GoodEvents(events) && i < |events| && ReplyAt(events, i) == Some(p)
    ensures Answered(events, i, p)
  {
    hide HonestReply, ReplyAt, LatestSetup, Answers;
    RepliesAreHonest(events, i);
    var e, setup := events[i], LatestSetup(events[..i], events[i].device);
    HonestReplyAnswers(SetupKey(setup.value), SetupId(setup.value), e.packet);
  }

  /**
   * The k-th verification packet echoes the request's round and the id of the device's latest
   * setup, and its two proofs are equal if the device's key is the record's key.
   */
  ghost predicate Verified(events: seq<Event>, i: nat, record: Record, v: Bytes)
    requires GoodEvents(events) && i < |events| && IsHex(record.chave) && |record.chave| == 64
  {
    var q, setup := events[i].packet, LatestSetup(events[..i], events[i].device);
    && IsRequest(q) && setup.Some? && |v| == HEADER + 144 && OurType(v) && Oper(v) == 0x4
    && Round(v) == Round(q) && DeviceId(v) == SetupId(setup.value)
    && (RecordKey(record.chave) == SetupKey(setup.value) ==> Verificacao(v) == VerifiedProva(v))
  }

  /** The verifier has counted the replies before `p`, and what it sends for `p` is right. */
  ghost predicate Checked(events: seq<Event>, i: nat, before: seq<Bytes>, p: Bytes, dados: seq<Record>, total: u32)
    requires GoodEvents(events) && i < |events| && GoodRecords(dados) && GoodPackets(before)
  {
    var v := VerifierAfter(dados, total, before);
    && v == VerifierState(Wrap(Replies(before)), false) && WellFormed(p)
    && var sent := Capture(dados, total, v, p).1;
       sent.Some? && Verified(events, i, dados[Replies(before) % RECORDS], sent.value)
  }

  /**
   * Honest runs verify: whatever packets reach the devices, and whatever packets reach the verifier
   * before, a device's reply that arrives while the verifier still runs is checked against the
   * record that the number of replies so far selects.
   */
  lemma HonestRunsVerify(events: seq<Event>, i: nat, before: seq<Bytes>, p: Bytes, dados: seq<Record>, total: u32)
    requires GoodEvents(events) && GoodRecords(dados) && GoodPackets(before)
    requires i < |events| && ReplyAt(events, i) == Some(p) && Replies(before) < Limit(total)
    ensures Checked(events, i, before, p, dados, total)
  {
    hide VerificationOf, ReplyAt, LatestSetup, RecordKey, GoodEvents, ExpectedProof, VerifierStep, Replies;
    ArrivalAnswers(events, i, p);
    CountsReplies(dados, total, before);
    var r := Replies(before);
    StepCounts(dados, r, p);
    VerificationReports(dados[r % RECORDS].chave, p);
  }

  /** Once the limit is reached nothing is sent any more. */
  lemma NothingAfterLimit(before: seq<Bytes>, p: Bytes, dados: seq<Record>, total: u32)
    requires GoodRecords(dados) && GoodPackets(before) && WellFormed(p) && Replies(before) >= Limit(total)
    ensures Capture(dados, total, VerifierAfter(dados, total, before), p).1 == None
  {
    hide VerifierStep, Replies;
    CountsReplies(dados, total, before);
  }
}
