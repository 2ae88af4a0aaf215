/**
 * Hexadecimal text and byte order: hexstring_to_byte_array, byte_array_to_hexstring and
 * swapEndian of the prover and the verifier, inverter_endianess of the switch setup.
 */
module Hex {
  import opened Forro

  // ---------------------------------------------------------------------
  // Digits
  // ---------------------------------------------------------------------

  predicate IsDigit(c: char) { '0' <= c <= '9' || 'a' <= c <= 'f' || 'A' <= c <= 'F' }

  /** The value of a hexadecimal digit, in either case. */
  function Digit(c: char): (d: nat)
    requires IsDigit(c)
    ensures d < 16
  {
    if c <= '9' then (c - '0') as int
    else if c <= 'F' then (c - 'A') as int + 10
    else (c - 'a') as int + 10
  }

  /** The lower-case digit that "%02x" prints. */
  function DigitChar(d: nat): (c: char)
    requires d < 16
    ensures IsDigit(c) && Digit(c) == d
  {
    if d < 10 then '0' + d as char else 'a' + (d - 10) as char
  }

  /** The digits of both cases, by name. */
  lemma DigitsByName()
    ensures Digit('0') == 0 && Digit('9') == 9 && Digit('a') == 10 && Digit('f') == 15 && Digit('A') == 10 && Digit('F') == 15
    ensures DigitChar(0) == '0' && DigitChar(9) == '9' && DigitChar(10) == 'a' && DigitChar(15) == 'f'
  {
  }

  predicate IsHex(s: string) { |s| % 2 == 0 && forall i :: 0 <= i < |s| ==> IsDigit(s[i]) }

  // ---------------------------------------------------------------------
  // Bytes
  // ---------------------------------------------------------------------

  function ByteValue(b: bv8): (n: nat)
    ensures n < 256
  {
    b as int
  }

  function ToByte(n: nat): bv8
    requires n < 256
  {
    n as bv8
  }

  lemma ByteRoundTrip(b: bv8, n: nat)
    ensures ToByte(ByteValue(b)) == b && (n < 256 ==> ByteValue(ToByte(n)) == n)
  {
    if n < 256 { SmallByte(n); }
  }

  lemma DoubleByte(x: bv8)
    requires x as int < 0x80
    ensures (x << 1) as int == 2 * (x as int) && ((x << 1) | 1) as int == 2 * (x as int) + 1
  {
  }

  /** Every number below 256 is the value of a byte. */
  lemma {:induction false} ByteFor(n: nat) returns (x: bv8)
    requires n < 256
    ensures x as int == n
  {
    if n == 0 {
      x := 0;
    } else {
      var half := ByteFor(n / 2);
      DoubleByte(half);
      x := if n % 2 == 0 then half << 1 else (half << 1) | 1;
    }
  }

  lemma SmallByte(n: nat)
    requires n < 256
    ensures (n as bv8) as int == n
  {
    var x := ByteFor(n);
    BackToByte(x);
  }

  lemma BackToByte(x: bv8)
    ensures (x as int) as bv8 == x
  {
  }

  /** Character `i` of the text of a byte sequence. */
  function HexChar(b: Bytes, i: nat): (c: char)
    requires i < 2 * |b|
    ensures IsDigit(c)
  {
    var n := ByteValue(b[i / 2]);
    DigitChar(if i % 2 == 0 then n / 16 else n % 16)
  }

  function ToHex(b: Bytes): (s: string)
    ensures |s| == 2 * |b| && IsHex(s) && forall i :: 0 <= i < |s| ==> s[i] == HexChar(b, i)
  {
    seq(2 * |b|, i requires 0 <= i < 2 * |b| => HexChar(b, i))
  }

  /**
   * strtoul on two characters, base 16, cut to a byte: leading blanks, a sign and the prefix 0x are
   * taken, and parsing stops at the first character that is no digit.
   */
  function PairValue(c: char, d: char): (n: nat)
    ensures n < 256
    ensures IsDigit(c) && IsDigit(d) ==> n == 16 * Digit(c) + Digit(d)
  {
    if IsDigit(c) then if IsDigit(d) then 16 * Digit(c) + Digit(d) else Digit(c)
    else if !IsDigit(d) then 0
    else if c == '-' then (256 - Digit(d)) % 256
    else if c == '+' || c == ' ' || 9 <= c as int <= 13 then Digit(d)
    else 0
  }

  /** Pairs that are not two digits. */
  lemma PairsByName()
    ensures PairValue('1', 'g') == 1 && PairValue('0', 'x') == 0 && PairValue('g', '1') == 0 && PairValue('g', 'h') == 0
    ensures PairValue('-', '1') == 255 && PairValue('-', '0') == 0 && PairValue('+', 'f') == 15
    ensures PairValue(' ', '5') == 5 && PairValue('\t', 'a') == 10 && PairValue('\r', 'A') == 10
  {
  }

  function FromHex(s: string): (b: Bytes)
    ensures |b| == |s| / 2
    ensures forall i :: 0 <= i < |b| ==> b[i] == ToByte(PairValue(s[2 * i], s[2 * i + 1]))
  {
    seq(|s| / 2, i requires 0 <= i < |s| / 2 => ToByte(PairValue(s[2 * i], s[2 * i + 1])))
  }

  lemma Halves(i: nat)
    ensures 2 * i / 2 == i && 2 * i % 2 == 0 && (2 * i + 1) / 2 == i && (2 * i + 1) % 2 == 1
  {
  }

  lemma HexPair(b: Bytes, i: nat)
    requires i < |b|
    ensures ToHex(b)[2 * i] == DigitChar(ByteValue(b[i]) / 16) && ToHex(b)[2 * i + 1] == DigitChar(ByteValue(b[i]) % 16)
  {
    hide ByteValue, DigitChar;
    Halves(i);
    assert ToHex(b)[2 * i] == HexChar(b, 2 * i) && ToHex(b)[2 * i + 1] == HexChar(b, 2 * i + 1);
  }

  /** Text and bytes convert back and forth. */
  lemma HexRoundTrip(b: Bytes)
    ensures FromHex(ToHex(b)) == b
  {
    hide ByteValue, ToByte, Digit, DigitChar, HexChar, PairValue;
    Halves(|b|);
    forall i | 0 <= i < |b|
      ensures FromHex(ToHex(b))[i] == b[i]
    {
      ByteRoundTrip(b[i], 0);
      HexPair(b, i);
    }
  }

  /** Text in lower case is recovered from its bytes. */
  lemma TextRoundTrip(s: string)
    requires IsHex(s) && forall i :: 0 <= i < |s| ==> s[i] == DigitChar(Digit(s[i]))
    ensures ToHex(FromHex(s)) == s
  {
    hide ByteValue, ToByte, Digit, DigitChar, HexChar, PairValue;
    forall i | 0 <= i < |s|
      ensures ToHex(FromHex(s))[i] == s[i]
    {
      var j := i / 2;
      var n := PairValue(s[2 * j], s[2 * j + 1]);
      ByteRoundTrip(0, n);
      assert FromHex(s)[j] == ToByte(n);
      HexPair(FromHex(s), j);
    }
  }

  lemma SliceIsHex(s: string, i: nat, j: nat)
    requires IsHex(s) && i <= j && 2 * j <= |s|
    ensures IsHex(s[2 * i..2 * j]) && |s[2 * i..2 * j]| / 2 == j - i
  {
    hide IsDigit;
    assert |s[2 * i..2 * j]| == 2 * (j - i);
    Halves(j - i);
  }

  lemma SliceByte(s: string, i: nat, j: nat, k: nat)
    requires IsHex(s) && i <= j && 2 * j <= |s| && k < j - i && IsHex(s[2 * i..2 * j]) && |s[2 * i..2 * j]| / 2 == j - i
    ensures FromHex(s[2 * i..2 * j])[k] == FromHex(s)[i + k]
  {
    hide ToByte, PairValue, IsDigit;
    var t := s[2 * i..2 * j];
    assert t[2 * k] == s[2 * (i + k)] && t[2 * k + 1] == s[2 * (i + k) + 1];
  }

  lemma FromHexSlice(s: string, i: nat, j: nat)
    requires IsHex(s) && i <= j && 2 * j <= |s|
    ensures IsHex(s[2 * i..2 * j]) && FromHex(s[2 * i..2 * j]) == FromHex(s)[i..j]
  {
    hide FromHex, IsHex;
    SliceIsHex(s, i, j);
    forall k | 0 <= k < j - i
      ensures FromHex(s[2 * i..2 * j])[k] == FromHex(s)[i + k]
    {
      SliceByte(s, i, j, k);
    }
  }

  lemma TwiceMod(n: nat)
    requires n % 4 == 0
    ensures 2 * n % 8 == 0
  {
    var q := n / 4;
    assert 2 * n == 8 * q;
  }

  // ---------------------------------------------------------------------
  // Byte order within 32-bit words
  // ---------------------------------------------------------------------

  /** Where character `i` comes from when each group of eight is reversed pair by pair. */
  function SwapIndex(i: nat): nat { i - i % 8 + (6 - i % 8 / 2 * 2) + i % 2 }

  lemma SwapIndexAt(q: nat, r: nat)
    requires r < 8
    ensures SwapIndex(8 * q + r) == 8 * q + (6 - r / 2 * 2 + r % 2)
  {
    assert (8 * q + r) % 8 == r && (8 * q + r) % 2 == r % 2;
  }

  lemma SwapIndexTwice(i: nat)
    ensures SwapIndex(i) / 8 == i / 8 && SwapIndex(SwapIndex(i)) == i
  {
    hide SwapIndex;
    var q, r := i / 8, i % 8;
    SwapIndexAt(q, r);
    SwapIndexAt(q, 6 - r / 2 * 2 + r % 2);
  }

  lemma SwapIndexBound(i: nat, n: nat)
    requires i < n && n % 8 == 0
    ensures SwapIndex(i) < n
  {
    SwapIndexTwice(i);
  }

  function SwapAt(s: string, i: nat): (c: char)
    requires |s| % 8 == 0 && i < |s|
    ensures SwapIndex(i) < |s| && c == s[SwapIndex(i)]
  {
    SwapIndexBound(i, |s|);
    s[SwapIndex(i)]
  }

  function SwapHex(s: string): (r: string)
    requires |s| % 8 == 0
    ensures |r| == |s| && forall i :: 0 <= i < |s| ==> r[i] == SwapAt(s, i)
  {
    seq(|s|, i requires 0 <= i < |s| => SwapAt(s, i))
  }

  /** Where byte `i` comes from when each group of four is reversed. */
  function Mirror(i: nat): nat { i - i % 4 + (3 - i % 4) }

  lemma MirrorAt(q: nat, r: nat)
    requires r < 4
    ensures Mirror(4 * q + r) == 4 * q + (3 - r)
  {
  }

  lemma MirrorTwice(i: nat)
    ensures Mirror(i) / 4 == i / 4 && Mirror(Mirror(i)) == i
  {
    hide Mirror;
    MirrorAt(i / 4, i % 4);
    MirrorAt(i / 4, 3 - i % 4);
  }

  lemma MirrorBound(i: nat, n: nat)
    requires i < n && n % 4 == 0
    ensures Mirror(i) < n
  {
    MirrorTwice(i);
  }

  function MirrorByte(b: Bytes, i: nat): (c: bv8)
    requires |b| % 4 == 0 && i < |b|
    ensures Mirror(i) < |b| && c == b[Mirror(i)]
  {
    MirrorBound(i, |b|);
    b[Mirror(i)]
  }

  /** Reversing the bytes of each 32-bit word. */
  function SwapBytes(b: Bytes): (r: Bytes)
    requires |b| % 4 == 0
    ensures |r| == |b| && forall i :: 0 <= i < |b| ==> r[i] == MirrorByte(b, i)
  {
    seq(|b|, i requires 0 <= i < |b| => MirrorByte(b, i))
  }

  lemma SwapHexTwice(s: string)
    requires |s| % 8 == 0
    ensures SwapHex(SwapHex(s)) == s
  {
    hide SwapIndex;
    forall i | 0 <= i < |s|
      ensures SwapHex(SwapHex(s))[i] == s[i]
    {
      SwapIndexTwice(i);
      SwapIndexBound(i, |s|);
    }
  }

  lemma SwapBytesTwice(b: Bytes)
    requires |b| % 4 == 0
    ensures SwapBytes(SwapBytes(b)) == b
  {
    hide Mirror;
    forall i | 0 <= i < |b|
      ensures SwapBytes(SwapBytes(b))[i] == b[i]
    {
      MirrorTwice(i);
      MirrorBound(i, |b|);
    }
  }

  lemma SwapHexDigits(s: string)
    requires IsHex(s) && |s| % 8 == 0
    ensures IsHex(SwapHex(s))
  {
    hide SwapIndex, IsDigit;
  }

  /** On the bytes, swapping the text reverses every word. */
  lemma SwapHexIsSwapBytes(s: string)
    requires IsHex(s) && |s| % 8 == 0
    ensures IsHex(SwapHex(s)) && FromHex(SwapHex(s)) == SwapBytes(FromHex(s))
  {
    hide ToByte, PairValue, SwapIndex, Mirror;
    var t := SwapHex(s);
    forall i | 0 <= i < |s| / 2
      ensures FromHex(t)[i] == SwapBytes(FromHex(s))[i]
    {
      SwapPair(i);
      MirrorBound(i, |s| / 2);
    }
  }

  lemma SwapPair(i: nat)
    ensures SwapIndex(2 * i) == 2 * Mirror(i) && SwapIndex(2 * i + 1) == 2 * Mirror(i) + 1
  {
    hide SwapIndex, Mirror;
    var q, r := i / 4, i % 4;
    assert 2 * i == 8 * q + 2 * r;
    SwapIndexAt(q, 2 * r);
    SwapIndexAt(q, 2 * r + 1);
    MirrorAt(q, r);
  }

  // ---------------------------------------------------------------------
  // The loops of the C programs
  // ---------------------------------------------------------------------

  /** hexstring_to_byte_array. */
  method HexStringToByteArray(out: array<bv8>, hex: string)
    requires |hex| / 2 <= out.Length
    modifies out
    ensures out[..|hex| / 2] == FromHex(hex) && out[|hex| / 2..] == old(out[|hex| / 2..])
  {
    hide ToByte, PairValue;
    var i := 0;
    while i < |hex| / 2
      invariant 0 <= i <= |hex| / 2
      invariant forall j :: 0 <= j < i ==> out[j] == FromHex(hex)[j]
      invariant forall j :: i <= j < out.Length ==> out[j] == old(out[j])
    {
      out[i] := ToByte(PairValue(hex[2 * i], hex[2 * i + 1]));
      i := i + 1;
    }
  }

  /** byte_array_to_hexstring. */
  method ByteArrayToHexString(bytes: Bytes) returns (hex: array<char>)
    ensures fresh(hex) && hex[..] == ToHex(bytes)
  {
    hide ByteValue, DigitChar;
    hex := new char[2 * |bytes|](_ => '0');
    var i := 0;
    while i < |bytes|
      invariant 0 <= i <= |bytes| && fresh(hex) && hex.Length == 2 * |bytes|
      invariant forall j :: 0 <= j < 2 * i ==> hex[j] == HexChar(bytes, j)
    {
      var n := ByteValue(bytes[i]);
      hex[2 * i] := DigitChar(n / 16);
      hex[2 * i + 1] := DigitChar(n % 16);
      i := i + 1;
    }
  }

  /** swapEndian, in place. */
  method SwapEndian(a: array<char>)
    requires a.Length % 8 == 0
    modifies a
    ensures a[..] == SwapHex(old(a[..]))
  {
    hide SwapIndex;
    var temp := a[..];
    var i := 0;
    while i < a.Length
      invariant 0 <= i <= a.Length && i % 8 == 0
      invariant forall j :: 0 <= j < i ==> SwapIndex(j) < |temp| && a[j] == temp[SwapIndex(j)]
    {
      SwapGroup(a, temp, i);
      i := i + 8;
    }
  }

  method SwapGroup(a: array<char>, temp: string, i: nat)
    requires i % 8 == 0 && i + 8 <= |temp| == a.Length
    modifies a
    ensures forall j :: 0 <= j < i ==> a[j] == old(a[j])
    ensures forall j :: i <= j < i + 8 ==> SwapIndex(j) < |temp| && a[j] == temp[SwapIndex(j)]
  {
    hide SwapIndex;
    a[i] := temp[i + 6];
    a[i + 1] := temp[i + 7];
    a[i + 2] := temp[i + 4];
    a[i + 3] := temp[i + 5];
    a[i + 4] := temp[i + 2];
    a[i + 5] := temp[i + 3];
    a[i + 6] := temp[i];
    a[i + 7] := temp[i + 1];
    GroupIndexes(i);
  }

  lemma GroupIndexes(i: nat)
    requires i % 8 == 0
    ensures SwapIndex(i) == i + 6 && SwapIndex(i + 1) == i + 7 && SwapIndex(i + 2) == i + 4 && SwapIndex(i + 3) == i + 5
    ensures SwapIndex(i + 4) == i + 2 && SwapIndex(i + 5) == i + 3 && SwapIndex(i + 6) == i && SwapIndex(i + 7) == i + 1
  {
    hide SwapIndex;
    var q := i / 8;
    SwapIndexAt(q, 0);
    SwapIndexAt(q, 1);
    SwapIndexAt(q, 2);
    SwapIndexAt(q, 3);
    SwapIndexAt(q, 4);
    SwapIndexAt(q, 5);
    SwapIndexAt(q, 6);
    SwapIndexAt(q, 7);
  }
}
