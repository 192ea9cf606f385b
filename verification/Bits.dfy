/** Unsigned bitwise arithmetic on natural numbers, and `MakePowerOfTwo`.
    A `size_t` is a natural number below `WORD`; the operators below are the
    bit-by-bit meaning of `&`, `|` and `>>` on such numbers. */
module Bits {

  /** Number of values of a 64-bit `size_t`. */
  const WORD: nat := 0x1_0000_0000_0000_0000

  function Pow2(n: nat): (p: nat)
    ensures p > 0
  {
    if n == 0 then 1 else 2 * Pow2(n - 1)
  }

  ghost predicate IsPow2(x: nat) {
    exists n: nat :: x == Pow2(n)
  }

  function BitAnd(x: nat, y: nat): (r: nat)
    ensures r <= x && r <= y
  {
    if x == 0 || y == 0 then 0
    else 2 * BitAnd(x / 2, y / 2) + if x % 2 == 1 && y % 2 == 1 then 1 else 0
  }

  function BitOr(x: nat, y: nat): nat
    decreases x + y
  {
    if x == 0 && y == 0 then 0
    else 2 * BitOr(x / 2, y / 2) + if x % 2 == 1 || y % 2 == 1 then 1 else 0
  }

  function ShiftRight(x: nat, s: nat): nat
    decreases s
  {
    if s == 0 then x else ShiftRight(x / 2, s - 1)
  }

  predicate Bit(x: nat, i: nat) {
    ShiftRight(x, i) % 2 == 1
  }

  // ---------------------------------------------------------------------
  // The mask of the queue: `x & (2^n - 1)` is `x % 2^n`
  // ---------------------------------------------------------------------

  lemma ModDouble(x: nat, p: nat)
    requires p > 0
    ensures x % (2 * p) == 2 * ((x / 2) % p) + x % 2
  {
    var q, r := (x / 2) / p, (x / 2) % p;
    assert x / 2 == q * p + r;
    assert x == q * (2 * p) + (2 * r + x % 2);
    DivModUnique(x, 2 * p, q, 2 * r + x % 2);
  }

  /** Quotient and remainder are determined by `x == q * d + r` and `r < d`. */
  lemma DivModUnique(x: nat, d: nat, q: nat, r: nat)
    requires x == q * d + r && r < d
    ensures x / d == q && x % d == r
  {
    QuotientUnique(d, x / d, x % d, q, r);
  }

  lemma QuotientUnique(d: nat, q: int, r: nat, q': int, r': nat)
    requires q * d + r == q' * d + r' && r < d && r' < d
    ensures q == q' && r == r'
  {
    MulGap(d, q, q');
    MulGap(d, q', q);
  }

  lemma MulGap(d: nat, a: int, b: int)
    ensures a < b ==> a * d + d <= b * d
  {
    if a < b {
      assert b * d == (a + 1) * d + (b - a - 1) * d;
      assert (b - a - 1) * d >= 0;
    }
  }

  lemma QuotientGap(d: nat, qa: int, qb: int, r: nat)
    requires qa * d + r < qb * d + r
    ensures qa * d + d <= qb * d
  {
    MulGap(d, qa, qb);
    MulGap(d, qb, qa);
  }

  /** Numbers with one remainder are at least the divisor apart. */
  lemma SameRemainder(d: nat, a: nat, b: nat)
    requires d > 0 && a % d == b % d && a < b
    ensures a + d <= b
  {
    QuotientGap(d, a / d, b / d, a % d);
  }

  lemma AddDivisor(d: nat, a: nat)
    requires d > 0
    ensures (a + d) % d == a % d && (a + d) / d == a / d + 1
  {
    var q, r := a / d, a % d;
    assert a + d == (q + 1) * d + r;
    DivModUnique(a + d, d, q + 1, r);
  }

  lemma MaskDouble(x: nat, p: nat)
    requires p > 0 && x > 0
    ensures BitAnd(x, 2 * p - 1) == 2 * BitAnd(x / 2, p - 1) + x % 2
  {
    var y := 2 * p - 1;
    assert y / 2 == p - 1 && y % 2 == 1;
  }

  /** The mask keeps exactly the remainder. */
  lemma {:induction false} MaskIsMod(x: nat, n: nat, p: nat)
    requires p == Pow2(n)
    ensures BitAnd(x, p - 1) == x % p
    decreases n
  {
    if n == 0 {
      assert BitAnd(x, 0) == 0;
    } else if x == 0 {
      DivModUnique(0, p, 0, 0);
    } else {
      var h := Pow2(n - 1);
      MaskIsMod(x / 2, n - 1, h);
      MaskDouble(x, h);
      ModDouble(x, h);
    }
  }

  // ---------------------------------------------------------------------
  // The constructor's assertion: `c & (c - 1) == 0` for powers of two only
  // ---------------------------------------------------------------------

  lemma {:induction false} BitAndSelf(x: nat)
    ensures BitAnd(x, x) == x
  {
    if x > 0 {
      BitAndSelf(x / 2);
    }
  }

  lemma {:induction false} PowerOfTwoTest(c: nat)
    requires c > 0
    ensures BitAnd(c, c - 1) == 0 <==> IsPow2(c)
  {
    if c == 1 {
      assert Pow2(0) == 1;
    } else if c % 2 == 1 {
      assert (c - 1) / 2 == c / 2;
      BitAndSelf(c / 2);
      forall n: nat ensures c != Pow2(n) {
        assert n == 0 || Pow2(n) % 2 == 0;
      }
    } else {
      var h := c / 2;
      assert (c - 1) / 2 == h - 1;
      PowerOfTwoTest(h);
      if IsPow2(h) {
        var n: nat :| h == Pow2(n);
        assert c == Pow2(n + 1);
      }
      if IsPow2(c) {
        var n: nat :| c == Pow2(n);
        assert n > 0 && h == Pow2(n - 1);
      }
    }
  }

  // ---------------------------------------------------------------------
  // Bits of shifts and of bitwise or
  // ---------------------------------------------------------------------

  lemma {:induction false} Pow2Add(a: nat, b: nat)
    ensures Pow2(a + b) == Pow2(a) * Pow2(b)
  {
    if a > 0 {
      Pow2Add(a - 1, b);
      DoubleProduct(Pow2(a - 1), Pow2(b));
    }
  }

  lemma DoubleProduct(x: nat, y: nat)
    ensures 2 * (x * y) == (2 * x) * y
  {
  }

  lemma {:induction false} Pow2Monotone(a: nat, b: nat)
    requires a <= b
    ensures Pow2(a) <= Pow2(b)
    ensures a < b ==> Pow2(a) < Pow2(b)
    decreases b
  {
    if a < b {
      Pow2Monotone(a, b - 1);
    }
  }

  lemma {:induction false} ShiftShift(x: nat, a: nat, b: nat)
    ensures ShiftRight(ShiftRight(x, a), b) == ShiftRight(x, a + b)
    decreases a
  {
    if a > 0 {
      ShiftShift(x / 2, a - 1, b);
    }
  }

  lemma BitHalf(x: nat, i: nat)
    ensures Bit(x, 0) <==> x % 2 == 1
    ensures Bit(x / 2, i) == Bit(x, i + 1)
  {
  }

  lemma {:induction false} BitOfOr(x: nat, y: nat, i: nat)
    ensures Bit(BitOr(x, y), i) <==> Bit(x, i) || Bit(y, i)
    decreases i
  {
    var z := BitOr(x, y);
    BitHalf(x, 0);
    BitHalf(y, 0);
    BitHalf(z, 0);
    assert z / 2 == BitOr(x / 2, y / 2) by {
      if x == 0 && y == 0 {
        assert BitOr(0, 0) == 0;
      }
    }
    if i > 0 {
      BitHalf(x, i - 1);
      BitHalf(y, i - 1);
      BitHalf(z, i - 1);
      BitOfOr(x / 2, y / 2, i - 1);
    }
  }

  lemma {:induction false} BitAboveIsClear(x: nat, n: nat, i: nat)
    requires x < Pow2(n) && n <= i
    ensures ShiftRight(x, i) == 0
    decreases i
  {
    if n == 0 {
      if i > 0 { BitAboveIsClear(0, 0, i - 1); }
    } else {
      BitAboveIsClear(x / 2, n - 1, i - 1);
    }
  }

  lemma {:induction false} TopBitIsSet(x: nat, n: nat)
    requires Pow2(n) <= x < Pow2(n + 1)
    ensures ShiftRight(x, n) == 1
    decreases n
  {
    if n > 0 {
      TopBitIsSet(x / 2, n - 1);
    }
  }

  /** A number whose set bits are exactly the lowest `n` is `2^n - 1`. */
  lemma {:induction false} LowOnes(x: nat, n: nat)
    requires forall i: nat :: Bit(x, i) <==> i < n
    ensures x == Pow2(n) - 1
    decreases x + n
  {
    BitHalf(x, 0);
    assert Bit(x, 0) <==> 0 < n;
    if x > 0 || n > 0 {
      var m := if n > 0 then n - 1 else 0;
      forall i: nat ensures Bit(x / 2, i) <==> i < m {
        BitHalf(x, i);
        assert Bit(x, i + 1) <==> i + 1 < n;
      }
      LowOnes(x / 2, m);
    }
  }

  lemma {:induction false} TopBit(y: nat) returns (n: nat)
    requires y > 0
    ensures Pow2(n) <= y < Pow2(n + 1)
  {
    if y == 1 {
      n := 0;
    } else {
      var m := TopBit(y / 2);
      n := m + 1;
    }
  }

  // ---------------------------------------------------------------------
  // MakePowerOfTwo
  // ---------------------------------------------------------------------

  /** Bits `n - s + 1 .. n` of `y` are set and nothing above `n` is. */
  ghost predicate Smeared(y: nat, n: nat, s: nat) {
    && (forall i: nat :: i <= n < i + s ==> Bit(y, i))
    && (forall i: nat :: n < i ==> !Bit(y, i))
  }

  /** `y |= y >> s` as one expression. */
  function OrShift(y: nat, s: nat): nat {
    BitOr(y, ShiftRight(y, s))
  }

  lemma SmearStart(y: nat, n: nat)
    requires Pow2(n) <= y < Pow2(n + 1)
    ensures Smeared(y, n, 1)
  {
    TopBitIsSet(y, n);
    forall i: nat | n < i ensures !Bit(y, i) {
      BitAboveIsClear(y, n + 1, i);
    }
  }

  lemma SmearStep(y: nat, n: nat, s: nat)
    requires Smeared(y, n, s)
    ensures Smeared(OrShift(y, s), n, 2 * s)
  {
    var z := ShiftRight(y, s);
    var w := BitOr(y, z);
    forall i: nat
      ensures Bit(w, i) <==> Bit(y, i) || Bit(y, i + s)
      ensures i <= n < i + 2 * s ==> Bit(w, i)
      ensures n < i ==> !Bit(w, i)
    {
      BitOfOr(y, z, i);
      ShiftShift(y, s, i);
      if i <= n < i + 2 * s && n >= i + s {
        assert Bit(y, i + s);
      }
    }
  }

  /** The six shifts of `MakePowerOfTwo`. */
  function Smear(y: nat): nat {
    OrShift(OrShift(OrShift(OrShift(OrShift(OrShift(y, 1), 2), 4), 8), 16), 32)
  }

  /** The six shifts smear the top bit of any 64-bit number over all lower bits. */
  lemma {:induction false} SmearAll(y: nat, n: nat)
    requires Pow2(n) <= y < Pow2(n + 1) && n < 64
    ensures Smear(y) == Pow2(n + 1) - 1
  {
    SmearStart(y, n);
    SmearStep(y, n, 1);
    var y1 := OrShift(y, 1);
    SmearStep(y1, n, 2);
    var y2 := OrShift(y1, 2);
    SmearStep(y2, n, 4);
    var y4 := OrShift(y2, 4);
    SmearStep(y4, n, 8);
    var y8 := OrShift(y4, 8);
    SmearStep(y8, n, 16);
    var y16 := OrShift(y8, 16);
    SmearStep(y16, n, 32);
    FullySmeared(OrShift(y16, 32), n);
  }

  lemma FullySmeared(y: nat, n: nat)
    requires Smeared(y, n, 64) && n < 64
    ensures y == Pow2(n + 1) - 1
  {
    LowOnes(y, n + 1);
  }

  lemma SmearZero(s: nat)
    ensures OrShift(0, s) == 0
  {
    BitAboveIsClear(0, 0, s);
  }

  lemma SmearedBelow(x: nat, k: nat)
    requires x > 0 && k <= 64 && x <= Pow2(k) && (k > 0 ==> Pow2(k - 1) < x)
    ensures Smear(x - 1) == Pow2(k) - 1
  {
    if k == 0 {
      SmearZero(1); SmearZero(2); SmearZero(4); SmearZero(8); SmearZero(16); SmearZero(32);
    } else {
      SmearAll(x - 1, k - 1);
    }
  }

  /** What `MakePowerOfTwo` computes; the sum is taken modulo 2^64. */
  function PowerOfTwoFor(x: nat): nat
    requires x < WORD
  {
    if x == 0 then 1 else (Smear(x - 1) + 1) % WORD
  }

  /** The result is the least power of two that is at least `x` and at least 1, unless that power
      is 2^64, in which case the 64-bit sum wraps around to 0. */
  lemma LeastPowerOfTwo(x: nat)
    requires x < WORD
    ensures var r := PowerOfTwoFor(x);
            && (x <= WORD / 2 ==> IsPow2(r) && x <= r && r <= WORD / 2)
            && (x <= WORD / 2 ==> forall p: nat :: IsPow2(p) && x <= p ==> r <= p)
            && (x > WORD / 2 ==> r == 0)
            && (r >= 2 <==> 2 <= x <= WORD / 2)
            && (r == 1 <==> x <= 1)
  {
    assert IsPow2(1) by { assert Pow2(0) == 1; }
    if x > 0 {
      var k := ExponentAtLeast(x);
      SmearedBelow(x, k);
      LeastPower(x, k);
      WordIsPower();
      Wrap(Pow2(k));
    }
  }

  lemma Wrap(p: nat)
    ensures p == WORD ==> p % WORD == 0
    ensures p < WORD ==> p % WORD == p
  {
  }

  method MakePowerOfTwo(x: nat) returns (r: nat)
    requires x < WORD
    ensures r == PowerOfTwoFor(x)
    ensures x <= WORD / 2 ==> IsPow2(r) && x <= r && r <= WORD / 2
    ensures x <= WORD / 2 ==> forall p: nat :: IsPow2(p) && x <= p ==> r <= p
    ensures x > WORD / 2 ==> r == 0
    ensures r >= 2 <==> 2 <= x <= WORD / 2
  {
    LeastPowerOfTwo(x);
    if x == 0 {
      return 1;
    }
    var y := x - 1;
    y := OrShift(y, 1);
    y := OrShift(y, 2);
    y := OrShift(y, 4);
    y := OrShift(y, 8);
    y := OrShift(y, 16);
    y := OrShift(y, 32);
    return (y + 1) % WORD;
  }

  /** The exponent of the least power of two at or above `x`. */
  lemma ExponentAtLeast(x: nat) returns (k: nat)
    requires 0 < x < WORD
    ensures k <= 64 && x <= Pow2(k) && (k > 0 ==> Pow2(k - 1) < x)
  {
    if x == 1 {
      k := 0;
    } else {
      var n := TopBit(x - 1);
      WordIsPower();
      if n >= 64 { Pow2Monotone(64, n); }
      k := n + 1;
    }
  }

  lemma WordIsPower()
    ensures Pow2(64) == WORD && Pow2(63) == WORD / 2
  {
    assert Pow2(8) == 0x100;
    DoubleExponent(8, 0x100);
    DoubleExponent(16, 0x1_0000);
    DoubleExponent(32, 0x1_0000_0000);
  }

  lemma DoubleExponent(n: nat, p: nat)
    requires Pow2(n) == p
    ensures Pow2(2 * n) == p * p
  {
    Pow2Add(n, n);
  }

  /** For `2^(k-1) < x <= 2^k`, the least power of two at or above `x` is `2^k`. */
  lemma LeastPower(x: nat, k: nat)
    requires x <= Pow2(k) && (k > 0 ==> Pow2(k - 1) < x) && 0 < x < WORD && k <= 64
    ensures forall p: nat :: IsPow2(p) && x <= p ==> Pow2(k) <= p
    ensures x <= WORD / 2 <==> k <= 63
    ensures if k <= 63 then Pow2(k) <= WORD / 2 else Pow2(k) == WORD
  {
    WordIsPower();
    forall p: nat | IsPow2(p) && x <= p ensures Pow2(k) <= p {
      var m: nat :| p == Pow2(m);
      if m < k {
        Pow2Monotone(m, k - 1);
      } else {
        Pow2Monotone(k, m);
      }
    }
    if k <= 63 { Pow2Monotone(k, 63); }
  }
}
