/**
 * The word operators against arithmetic: bits as digits, shifts as multiplication and division,
 * products as repeated sums.
 */
module Bits {
  import opened Words

  function Pow2(n: nat): (p: nat)
    ensures p > 0
  {
    if n == 0 then 1 else 2 * Pow2(n - 1)
  }

  /** Binary digit `n` of a number. */
  predicate Bit(a: nat, n: nat) { a / Pow2(n) % 2 == 1 }

  /** Digit `n + 1` is digit `n` of the half. */
  lemma BitHalf(a: nat, n: nat)
    ensures Bit(a, n + 1) == Bit(a / 2, n) && (Bit(a, 0) <==> a % 2 == 1)
  {
    DivTwice(a, Pow2(n));
    assert Pow2(n + 1) == 2 * Pow2(n);
  }

  /** Dividing by 2 before or after, or by twice as much, is the same. */
  lemma DivTwice(a: nat, p: nat)
    requires p > 0
    ensures a / (2 * p) == a / 2 / p == a / p / 2
  {
    var q, r := a / (2 * p), a % (2 * p);
    var t := p * q;
    assert a == 2 * t + r;
    QuotientIs(a / 2, p, q, r / 2);
    var e := if r < p then 0 else 1;
    Twofold(p, q, e);
    QuotientIs(a, p, 2 * q + e, if r < p then r else r - p);
  }

  lemma Twofold(p: nat, q: nat, e: nat)
    ensures p * (2 * q + e) == 2 * (p * q) + p * e
  {
  }

  lemma Apart(d: nat, q: int, q': int)
    requires d > 0
    ensures q > q' ==> d * q >= d * q' + d
  {
    if q > q' {
      var k := q - q' - 1;
      assert d * k >= 0;
      assert d * q == d * (q' + 1 + k) == d * q' + d + d * k;
    }
  }

  lemma QuotientIs(a: nat, d: nat, q: nat, r: nat)
    requires d > 0 && a == d * q + r && r < d
    ensures a / d == q && a % d == r
  {
    var q', r' := a / d, a % d;
    assert a == d * q' + r';
    Apart(d, q, q');
    Apart(d, q', q);
  }

  // ---------------------------------------------------------------------
  // And, or, exclusive or: digit by digit
  // ---------------------------------------------------------------------

  /** A word whose last digit is `odd` and whose other digits are those of `h`. */
  function Append(h: bv32, odd: bool): bv32 { if odd then TwicePlus(h) else Twice(h) }

  predicate Short(h: bv32) { h < 0x8000_0000 }

  lemma ShortValue(h: bv32)
    ensures Value(h) < 0x8000_0000 <==> Short(h)
  {
  }

  lemma AndEvenEven(h: bv32, k: bv32)
    ensures AndW(Twice(h), Twice(k)) == Twice(AndW(h, k))
  {
  }

  lemma AndEvenOdd(h: bv32, k: bv32)
    ensures AndW(Twice(h), TwicePlus(k)) == Twice(AndW(h, k))
  {
  }

  lemma AndOddEven(h: bv32, k: bv32)
    ensures AndW(TwicePlus(h), Twice(k)) == Twice(AndW(h, k))
  {
  }

  lemma AndOddOdd(h: bv32, k: bv32)
    ensures AndW(TwicePlus(h), TwicePlus(k)) == TwicePlus(AndW(h, k))
  {
  }

  lemma AppendAnd(h: bv32, k: bv32, p: bool, q: bool)
    ensures AndW(Append(h, p), Append(k, q)) == Append(AndW(h, k), p && q)
  {
    hide AndW, Twice, TwicePlus;
    AndEvenEven(h, k);
    AndEvenOdd(h, k);
    AndOddEven(h, k);
    AndOddOdd(h, k);
  }

  lemma OrEvenEven(h: bv32, k: bv32)
    ensures OrW(Twice(h), Twice(k)) == Twice(OrW(h, k))
  {
  }

  lemma OrEvenOdd(h: bv32, k: bv32)
    ensures OrW(Twice(h), TwicePlus(k)) == TwicePlus(OrW(h, k))
  {
  }

  lemma OrOddEven(h: bv32, k: bv32)
    ensures OrW(TwicePlus(h), Twice(k)) == TwicePlus(OrW(h, k))
  {
  }

  lemma OrOddOdd(h: bv32, k: bv32)
    ensures OrW(TwicePlus(h), TwicePlus(k)) == TwicePlus(OrW(h, k))
  {
  }

  lemma AppendOr(h: bv32, k: bv32, p: bool, q: bool)
    ensures OrW(Append(h, p), Append(k, q)) == Append(OrW(h, k), p || q)
  {
    hide OrW, Twice, TwicePlus;
    OrEvenEven(h, k);
    OrEvenOdd(h, k);
    OrOddEven(h, k);
    OrOddOdd(h, k);
  }

  lemma XorEvenEven(h: bv32, k: bv32)
    ensures XorW(Twice(h), Twice(k)) == Twice(XorW(h, k))
  {
  }

  lemma XorEvenOdd(h: bv32, k: bv32)
    ensures XorW(Twice(h), TwicePlus(k)) == TwicePlus(XorW(h, k))
  {
  }

  lemma XorOddEven(h: bv32, k: bv32)
    ensures XorW(TwicePlus(h), Twice(k)) == TwicePlus(XorW(h, k))
  {
  }

  lemma XorOddOdd(h: bv32, k: bv32)
    ensures XorW(TwicePlus(h), TwicePlus(k)) == Twice(XorW(h, k))
  {
  }

  lemma AppendXor(h: bv32, k: bv32, p: bool, q: bool)
    ensures XorW(Append(h, p), Append(k, q)) == Append(XorW(h, k), p != q)
  {
    hide XorW, Twice, TwicePlus;
    XorEvenEven(h, k);
    XorEvenOdd(h, k);
    XorOddEven(h, k);
    XorOddOdd(h, k);
  }

  lemma ShortWords(h: bv32, k: bv32)
    requires Short(h) && Short(k)
    ensures Short(AndW(h, k)) && Short(OrW(h, k)) && Short(XorW(h, k))
  {
  }

  /** A number as a word, from its half and its last digit. */
  lemma WordHalf(a: u32)
    ensures Short(Word(a / 2)) && Word(a) == Append(Word(a / 2), a % 2 == 1)
  {
    hide Twice, TwicePlus, Value, Word, Short;
    WordValue(a);
    WordValue(a / 2);
    var h := Word(a / 2);
    ShortValue(h);
    DoubleValue(h);
    SameValue(Word(a), Append(h, a % 2 == 1));
  }

  lemma AppendValue(h: bv32, odd: bool)
    requires Short(h)
    ensures Value(Append(h, odd)) == 2 * Value(h) + if odd then 1 else 0
  {
    hide Short;
    ShortValue(h);
    DoubleValue(h);
  }

  /** The operators halve with their operands, and act on the last digits. */
  lemma OpsHalve(a: u32, b: u32)
    ensures BitAnd(a, b) == 2 * BitAnd(a / 2, b / 2) + if a % 2 == 1 && b % 2 == 1 then 1 else 0
    ensures BitOr(a, b) == 2 * BitOr(a / 2, b / 2) + if a % 2 == 1 || b % 2 == 1 then 1 else 0
    ensures BitXor(a, b) == 2 * BitXor(a / 2, b / 2) + if (a % 2 == 1) != (b % 2 == 1) then 1 else 0
  {
    hide AndW, OrW, XorW, Short, Value, Word, Twice, TwicePlus;
    var h, k, p, q := Word(a / 2), Word(b / 2), a % 2 == 1, b % 2 == 1;
    WordHalf(a);
    WordHalf(b);
    AppendAnd(h, k, p, q);
    AppendOr(h, k, p, q);
    AppendXor(h, k, p, q);
    ShortWords(h, k);
    AppendValue(AndW(h, k), p && q);
    AppendValue(OrW(h, k), p || q);
    AppendValue(XorW(h, k), p != q);
  }

  /** Digit by digit, BitAnd is conjunction, BitOr disjunction and BitXor difference. */
  lemma {:induction false} OpsBits(a: u32, b: u32, n: nat)
    ensures Bit(BitAnd(a, b), n) <==> Bit(a, n) && Bit(b, n)
    ensures Bit(BitOr(a, b), n) <==> Bit(a, n) || Bit(b, n)
    ensures Bit(BitXor(a, b), n) <==> Bit(a, n) != Bit(b, n)
    decreases n
  {
    hide Bit, BitAnd, BitOr, BitXor;
    OpsHalve(a, b);
    BitHalf(a, 0);
    BitHalf(b, 0);
    BitHalf(BitAnd(a, b), 0);
    BitHalf(BitOr(a, b), 0);
    BitHalf(BitXor(a, b), 0);
    if n > 0 {
      OpsBits(a / 2, b / 2, n - 1);
      BitHalf(a, n - 1);
      BitHalf(b, n - 1);
      BitHalf(BitAnd(a, b), n - 1);
      BitHalf(BitOr(a, b), n - 1);
      BitHalf(BitXor(a, b), n - 1);
    }
  }

  /** A number with no digit set is 0. */
  lemma {:induction false} NoBits(a: u32) returns (n: nat)
    requires a != 0
    ensures n < 32 && Bit(a, n)
    decreases a
  {
    PowersOf2();
    n := TopBit(a, 32);
  }

  lemma {:induction false} TopBit(a: nat, m: nat) returns (n: nat)
    requires 0 < a < Pow2(m)
    ensures n < m && Bit(a, n)
    decreases m
  {
    hide Bit;
    BitHalf(a, 0);
    if a % 2 == 1 {
      n := 0;
    } else {
      n := TopBit(a / 2, m - 1);
      BitHalf(a, n);
      n := n + 1;
    }
  }

  lemma PowersOf2()
    ensures Pow2(4) == 16 && Pow2(8) == 256 && Pow2(16) == 0x1_0000 && Pow2(32) == TWO32
  {
    assert Pow2(4) == 16;
    assert Pow2(8) == 256;
    assert Pow2(12) == 4096;
    assert Pow2(16) == 0x1_0000;
    assert Pow2(20) == 0x10_0000;
    assert Pow2(24) == 0x100_0000;
    assert Pow2(28) == 0x1000_0000;
  }

  /** Numbers with the same digits are equal, so OpsBits leaves nothing open. */
  lemma {:induction false} SameBits(a: nat, b: nat)
    requires forall n: nat :: Bit(a, n) == Bit(b, n)
    ensures a == b
    decreases a + b
  {
    hide Bit;
    if a != b {
      BitHalf(a, 0);
      BitHalf(b, 0);
      assert Bit(a, 0) == Bit(b, 0);
      forall n: nat
        ensures Bit(a / 2, n) == Bit(b / 2, n)
      {
        BitHalf(a, n);
        BitHalf(b, n);
        assert Bit(a, n + 1) == Bit(b, n + 1);
      }
      SameBits(a / 2, b / 2);
    }
  }

  // ---------------------------------------------------------------------
  // Shifts
  // ---------------------------------------------------------------------

  const TOP: bv32 := 0x8000_0000

  lemma TopOff(x: bv32)
    requires !Short(x)
    ensures var h := XorW(x, TOP); Short(h) && x == h | 0x8000_0000 && Twice(x) == Twice(h)
  {
  }

  lemma TopValue(h: bv32)
    requires h < 0x8000_0000
    ensures Value(h | 0x8000_0000) == Value(h) + 0x8000_0000
  {
  }

  /** Shifting left by one doubles and drops what does not fit. */
  lemma TwiceValue(x: bv32)
    ensures Value(Twice(x)) == 2 * Value(x) % TWO32
  {
    hide Value, Twice, XorW, TwicePlus;
    ShortValue(x);
    if Short(x) {
      DoubleValue(x);
    } else {
      TopOff(x);
      var h := XorW(x, TOP);
      TopValue(h);
      ShortValue(h);
      DoubleValue(h);
    }
  }

  lemma AppendShr(h: bv32, odd: bool)
    requires Short(h)
    ensures ShrW(Append(h, odd), 1) == h
  {
  }

  /** Shifting right by one halves. */
  lemma HalfValue(x: bv32)
    ensures Value(ShrW(x, 1)) == Value(x) / 2
  {
    hide Word, Value, ShrW, Short, Append;
    var v := Value(x);
    WordValue(v);
    SameValue(x, Word(v));
    WordHalf(v);
    AppendShr(Word(v / 2), v % 2 == 1);
    WordValue(v / 2);
  }

  lemma ShlNext(x: bv32, n: bv32)
    requires n < 31
    ensures Succ(n) < 32 && ShlW(x, Succ(n)) == Twice(ShlW(x, n))
  {
  }

  lemma ShrNext(x: bv32, n: bv32)
    requires n < 31
    ensures Succ(n) < 32 && ShrW(x, Succ(n)) == ShrW(ShrW(x, n), 1)
  {
  }

  lemma WordSucc(n: u32)
    requires n < 31
    ensures Word(n + 1) == Succ(Word(n)) && Word(n) < 31
  {
    hide Word, Value, Succ;
    WordValue(n);
    WordValue(n + 1);
    NextWord(Word(n));
    SameValue(Word(n + 1), Succ(Word(n)));
    Under31(Word(n));
  }

  lemma Under31(x: bv32)
    ensures Value(x) < 31 <==> x < 31
  {
  }

  lemma NoShift(x: bv32)
    ensures Word(0) == 0 && ShlW(x, 0) == x == ShrW(x, 0)
  {
  }

  lemma WrapTwice(y: nat)
    ensures 2 * (y % TWO32) % TWO32 == 2 * y % TWO32
  {
  }

  /** A left shift multiplies by a power of 2 modulo 2^32. */
  lemma {:induction false} ShiftLeftMultiplies(a: u32, n: u32)
    requires n < 32
    ensures ShiftLeft(a, n) == a * Pow2(n) % TWO32
  {
    hide Word, Value, ShlW, Twice, Succ;
    SmallWord(n);
    if n == 0 {
      WordValue(a);
      NoShift(Word(a));
    } else {
      ShiftLeftMultiplies(a, n - 1);
      WordSucc(n - 1);
      ShlNext(Word(a), Word(n - 1));
      TwiceValue(ShlW(Word(a), Word(n - 1)));
      var y := a * Pow2(n - 1);
      assert a * Pow2(n) == 2 * y;
      WrapTwice(y);
    }
  }

  /** A right shift divides by a power of 2. */
  lemma {:induction false} ShiftRightDivides(a: u32, n: u32)
    requires n < 32
    ensures ShiftRight(a, n) == a / Pow2(n)
  {
    hide Word, Value, ShrW, Succ;
    SmallWord(n);
    if n == 0 {
      WordValue(a);
      NoShift(Word(a));
    } else {
      ShiftRightDivides(a, n - 1);
      WordSucc(n - 1);
      ShrNext(Word(a), Word(n - 1));
      HalfValue(ShrW(Word(a), Word(n - 1)));
      DivTwice(a, Pow2(n - 1));
    }
  }

  // ---------------------------------------------------------------------
  // Products, quotients
  // ---------------------------------------------------------------------

  /** `n` times `a`, by adding. */
  function Repeated(a: u32, n: nat): u32 { if n == 0 then 0 else Plus(Repeated(a, n - 1), a) }

  lemma WrapSum(y: int, a: u32)
    ensures Plus(Wrap(y), a) == Wrap(y + a)
  {
  }

  lemma ProductNext(a: int, n: int)
    ensures a * n == a * (n - 1) + a
  {
  }

  lemma TimesIs(a: u32, n: u32, y: int)
    requires y == a * n
    ensures Times(a, n) == Wrap(y)
  {
  }

  lemma TimesNext(a: u32, n: u32)
    requires n > 0
    ensures Times(a, n) == Plus(Times(a, n - 1), a)
  {
    hide Times, Plus, Wrap;
    var y := a * (n - 1);
    ProductNext(a, n);
    TimesIs(a, n - 1, y);
    TimesIs(a, n, y + a);
    WrapSum(y, a);
  }

  lemma TimesNothing(a: u32)
    ensures Times(a, 0) == 0
  {
  }

  /** The 32-bit product is what repeated 32-bit addition gives. */
  lemma {:induction false} TimesIsRepeated(a: u32, n: u32)
    ensures Times(a, n) == Repeated(a, n)
    decreases n
  {
    hide Times, Plus;
    if n == 0 {
      TimesNothing(a);
    } else {
      TimesIsRepeated(a, n - 1);
      TimesNext(a, n);
    }
  }
}
