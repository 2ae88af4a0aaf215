/** 32-bit unsigned words as the BPF machine uses them, and a common Option type. */
module Words {

  datatype Option<+T> = None | Some(value: T)

  const TWO32: int := 0x1_0000_0000

  type u8 = x: int | 0 <= x < 256

  type u32 = x: int | 0 <= x < 0x1_0000_0000

  ghost predicate Distinct<T>(s: seq<T>) { forall i, j :: 0 <= i < j < |s| ==> s[i] != s[j] }

  function Max(a: nat, b: nat): nat { if a < b then b else a }

  /** Big-endian concatenation: `hi` followed by one more byte. */
  function Shift8(hi: int, lo: u8): int { hi * 256 + lo }

  /** C's unsigned wrap-around. */
  function Wrap(n: int): u32 { n % TWO32 }

  function Plus(a: u32, b: u32): u32 { Wrap(a as int + b as int) }

  function Minus(a: u32, b: u32): u32 { Wrap(a as int - b as int) }

  lemma NoWrap(a: u32, b: u32)
    ensures a + b < TWO32 ==> Plus(a, b) == a + b
    ensures b <= a ==> Minus(a, b) == a - b
  {
  }

  function Times(a: u32, b: u32): u32 { Wrap(a as int * b as int) }

  function Quotient(a: u32, b: u32): (r: u32)
    requires b != 0
  {
    QuotientBound(a, b);
    a as int / b as int
  }

  lemma QuotientBound(a: int, b: int)
    requires 0 <= a && 0 < b
    ensures 0 <= a / b <= a
  {
    var q := a / b;
    assert a == b * q + a % b;
    if q < 0 {
      ScaleDown(b, q + 1);
    } else {
      ScaleUp(b, q);
    }
  }

  lemma ScaleUp(b: int, q: int)
    requires 0 < b && 0 <= q
    ensures q <= b * q
  {
  }

  lemma ScaleDown(b: int, q: int)
    requires 0 < b && q <= 0
    ensures b * (q - 1) <= -b
  {
  }

  function Remainder(a: u32, b: u32): (r: u32)
    requires b != 0
  {
    a as int % b as int
  }

  // Words and their values, named so that proofs about numbers need not look at bits.
  function Word(a: u32): bv32 { a as bv32 }

  function Value(x: bv32): u32 { x as int }

  function AndW(x: bv32, y: bv32): bv32 { x & y }

  function OrW(x: bv32, y: bv32): bv32 { x | y }

  function XorW(x: bv32, y: bv32): bv32 { x ^ y }

  function ShlW(x: bv32, n: bv32): bv32
    requires n < 32
  {
    x << n
  }

  function ShrW(x: bv32, n: bv32): bv32
    requires n < 32
  {
    x >> n
  }

  function BitAnd(a: u32, b: u32): u32 { Value(AndW(Word(a), Word(b))) }

  function BitOr(a: u32, b: u32): u32 { Value(OrW(Word(a), Word(b))) }

  function BitXor(a: u32, b: u32): u32 { Value(XorW(Word(a), Word(b))) }

  lemma SmallValue(x: bv32)
    ensures Value(x) < 32 <==> x < 32
  {
  }

  lemma SmallWord(n: u32)
    ensures n < 32 <==> Word(n) < 32
  {
    hide Word, Value;
    WordValue(n);
    SmallValue(Word(n));
  }

  function ShiftLeft(a: u32, n: u32): u32
    requires n < 32
  {
    SmallWord(n);
    Value(ShlW(Word(a), Word(n)))
  }

  function ShiftRight(a: u32, n: u32): u32
    requires n < 32
  {
    SmallWord(n);
    Value(ShrW(Word(a), Word(n)))
  }

  lemma WordRoundTrip(x: bv32)
    ensures (x as int) as bv32 == x
  {
  }

  lemma DoubleWord(x: bv32)
    requires x as int < 0x8000_0000
    ensures (x << 1) as int == 2 * (x as int) && ((x << 1) | 1) as int == 2 * (x as int) + 1
  {
  }

  /** Every 32-bit number is the value of a word, built here bit by bit. */
  lemma {:induction false} WordOf(a: int) returns (x: bv32)
    requires 0 <= a < TWO32
    ensures x as int == a
  {
    if a == 0 {
      x := 0;
    } else {
      var half := WordOf(a / 2);
      DoubleWord(half);
      x := if a % 2 == 0 then half << 1 else (half << 1) | 1;
    }
  }

  lemma NumberRoundTrip(a: u32)
    ensures (a as bv32) as int == a
  {
    var x := WordOf(a);
    WordRoundTrip(x);
  }

  lemma WordValue(a: u32)
    ensures Value(Word(a)) == a
  {
    NumberRoundTrip(a);
  }

  // Successor and doubling of words.
  function Succ(x: bv32): bv32 { x + 1 }

  function Twice(x: bv32): bv32 { x << 1 }

  function TwicePlus(x: bv32): bv32 { (x << 1) | 1 }

  lemma Carry(h: bv32)
    ensures Succ(Twice(h)) == TwicePlus(h) && Succ(TwicePlus(h)) == Twice(Succ(h))
  {
  }

  lemma DoubleValue(h: bv32)
    requires Value(h) < 0x8000_0000
    ensures Value(Twice(h)) == 2 * Value(h) && Value(TwicePlus(h)) == 2 * Value(h) + 1
  {
    DoubleWord(h);
  }

  lemma SmallValues()
    ensures Value(0) == 0 && Value(Succ(0)) == 1
  {
  }

  lemma {:induction false} WordAndNext(a: int) returns (x: bv32)
    requires 0 <= a < TWO32 - 1
    ensures Value(x) == a && Value(Succ(x)) == a + 1
  {
    hide Succ, Twice, TwicePlus, Value;
    if a == 0 {
      x := 0;
      SmallValues();
    } else {
      var h := WordAndNext(a / 2);
      Carry(h);
      DoubleValue(h);
      if a % 2 == 0 {
        x := Twice(h);
      } else {
        DoubleValue(Succ(h));
        x := TwicePlus(h);
      }
    }
  }

  lemma SameValue(x: bv32, y: bv32)
    requires Value(x) == Value(y)
    ensures x == y
  {
    WordRoundTrip(x);
    WordRoundTrip(y);
  }

  lemma ValueBound(x: bv32)
    ensures 0 <= Value(x) < TWO32
  {
  }

  /** Adding one to a word that is not all ones adds one to its value. */
  lemma NextWord(x: bv32)
    ensures Value(x) < TWO32 - 1 ==> Value(Succ(x)) == Value(x) + 1
  {
    hide Succ, Value;
    ValueBound(x);
    if Value(x) < TWO32 - 1 {
      var y := WordAndNext(Value(x));
      SameValue(x, y);
    }
  }

  lemma LastWord(x: bv32)
    ensures x as int == TWO32 - 1 <==> x == 0xffff_ffff
    ensures x as int == 0 <==> x == 0
    ensures x + 1 == 0 <==> x == 0xffff_ffff
  {
  }

  /** The value of a 32-bit field read as a two's-complement number. */
  function Signed(k: u32): int { if k < 0x8000_0000 then k else k - TWO32 }
}
