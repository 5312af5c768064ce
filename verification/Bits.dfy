/**
  The bit operators of C on natural numbers, by recursion on the lowest bit, and
  what they come to in arithmetic for the masks and shifts common.h uses. Words are
  numbers below a power of two; wrap-around is written out.
  */
module Bits {
  const TWO_32: nat := 0x1_0000_0000
  const TWO_64: nat := 0x1_0000_0000_0000_0000

  type u8 = x: int | 0 <= x < 0x100
  type u16 = x: int | 0 <= x < 0x1_0000
  type u32 = x: int | 0 <= x < 0x1_0000_0000
  type u64 = x: int | 0 <= x < 0x1_0000_0000_0000_0000
  type i32 = x: int | -0x8000_0000 <= x <= 0x7FFF_FFFF
  type i64 = x: int | -0x8000_0000_0000_0000 <= x <= 0x7FFF_FFFF_FFFF_FFFF

  function Pow2(n: nat): (p: nat)
    ensures p > 0
  {
    if n == 0 then 1 else 2 * Pow2(n - 1)
  }

  function And(x: nat, y: nat): nat {
    if x == 0 || y == 0 then 0
    else 2 * And(x / 2, y / 2) + if x % 2 == 1 && y % 2 == 1 then 1 else 0
  }

  function Or(x: nat, y: nat): nat {
    if x == 0 then y else if y == 0 then x
    else 2 * Or(x / 2, y / 2) + if x % 2 == 1 || y % 2 == 1 then 1 else 0
  }

  function Xor(x: nat, y: nat): nat {
    if x == 0 then y else if y == 0 then x
    else 2 * Xor(x / 2, y / 2) + if x % 2 != y % 2 then 1 else 0
  }

  function Shr(x: nat, n: nat): nat {
    QuotientNat(x, Pow2(n));
    x / Pow2(n)
  }

  function Shl32(x: nat, n: nat): u32 {
    x * Pow2(n) % TWO_32
  }

  /** The right shift of a signed number. */
  function Sar(x: int, n: nat): int {
    x / Pow2(n)
  }

  // Conversions between a signed integer and the word of the same width.

  function U32(x: i32): u32 { x % TWO_32 }
  function I32(v: u32): i32 { if v < 0x8000_0000 then v else v - TWO_32 }
  function U64(x: i64): u64 { x % TWO_64 }
  function I64(v: u64): i64 { if v < 0x8000_0000_0000_0000 then v else v - TWO_64 }

  /** A bit of a word: bit 0 is the lowest. */
  predicate Bit(x: nat, k: nat) {
    if k == 0 then x % 2 == 1 else Bit(x / 2, k - 1)
  }

  // ---------------------------------------------------------------- powers of two

  lemma {:induction false} Pow2Add(a: nat, b: nat)
    ensures Pow2(a + b) == Pow2(a) * Pow2(b)
  {
    if b > 0 {
      Pow2Add(a, b - 1);
    }
  }

  lemma DivMul(x: nat, p: nat)
    requires p > 0
    ensures x / (2 * p) == x / 2 / p
    ensures x % (2 * p) == 2 * (x / 2 % p) + x % 2
  {
    var q, r := x / 2 / p, x / 2 % p;
    assert x / 2 == p * q + r;
    assert x == (2 * p) * q + (2 * r + x % 2);
    DivUnique(x, 2 * p, q, 2 * r + x % 2);
  }

  lemma DivUnique(x: int, d: nat, q: int, r: nat)
    requires x == d * q + r && r < d
    ensures x / d == q && x % d == r
  {
    var q', r' := x / d, x % d;
    MulDistributes(d, q, q');
    MulDistributes(d, q', q);
    if q > q' {
      MulAtLeast(d, q - q');
    } else if q < q' {
      MulAtLeast(d, q' - q);
    }
  }

  lemma QuotientNat(x: nat, d: nat)
    requires d > 0
    ensures x / d >= 0
  {
    var q := x / d;
    assert x == d * q + x % d;
    if q < 0 {
      MulAtLeast(d, -q);
    }
  }

  lemma MulDistributes(d: int, a: int, b: int)
    ensures d * (a - b) == d * a - d * b
  {
  }

  lemma MulAtLeast(d: nat, n: int)
    requires n >= 1
    ensures d * n >= d
  {
    assert d * (n - 1) >= 0;
  }

  lemma {:induction false} ShrShr(x: nat, a: nat, b: nat)
    ensures Shr(Shr(x, a), b) == Shr(x, a + b)
  {
    if a > 0 {
      DivMul(x, Pow2(a - 1));
      ShrShr(x / 2, a - 1, b);
      DivMul(x, Pow2(a - 1 + b));
    }
  }

  // ---------------------------------------------------------------- masks

  /** Masking with ones in the k lowest positions is the remainder. */
  lemma {:induction false} AndLow(x: nat, k: nat)
    ensures And(x, Pow2(k) - 1) == x % Pow2(k)
  {
    if k > 0 {
      AndLow(x / 2, k - 1);
      DivMul(x, Pow2(k - 1));
      assert (Pow2(k) - 1) / 2 == Pow2(k - 1) - 1;
    }
  }

  /** Masking with a single one picks that bit. */
  lemma {:induction false} AndBit(x: nat, k: nat)
    ensures And(x, Pow2(k)) == if Bit(x, k) then Pow2(k) else 0
  {
    if k > 0 {
      AndBit(x / 2, k - 1);
    } else {
      assert And(x / 2, 0) == 0;
    }
    if x == 0 {
      ZeroBits(k);
    }
  }

  lemma {:induction false} ZeroBits(k: nat)
    ensures !Bit(0, k)
  {
    if k > 0 {
      ZeroBits(k - 1);
    }
  }

  lemma {:induction false} BitIsQuotient(x: nat, k: nat)
    ensures Bit(x, k) <==> Shr(x, k) % 2 == 1
  {
    if k > 0 {
      BitIsQuotient(x / 2, k - 1);
      DivMul(x, Pow2(k - 1));
    }
  }

  /** Or of numbers without a common bit position is their sum. */
  lemma {:induction false} OrDisjoint(a: nat, y: nat, k: nat)
    requires y < Pow2(k)
    ensures Or(a * Pow2(k), y) == a * Pow2(k) + y
  {
    if k > 0 {
      OrDisjoint(a, y / 2, k - 1);
      OrEven(a * Pow2(k - 1), y);
      TwiceProduct(a, Pow2(k - 1));
    }
  }

  lemma TwiceProduct(a: nat, p: nat)
    ensures a * (2 * p) == 2 * (a * p)
  {
  }

  lemma OrEven(x: nat, y: nat)
    requires Or(x, y / 2) == x + y / 2
    ensures Or(2 * x, y) == 2 * x + y
  {
  }

  /** Masking a w-bit word with ones from position k up clears the lower positions. */
  lemma {:induction false} AndHigh(x: nat, k: nat, w: nat)
    requires k <= w && x < Pow2(w)
    ensures Pow2(k) <= Pow2(w)
    ensures And(x, Pow2(w) - Pow2(k)) == x - x % Pow2(k)
  {
    if k == 0 {
      AndLow(x, w);
      DivUnique(x, Pow2(w), 0, x);
    } else {
      AndHigh(x / 2, k - 1, w - 1);
      AndHighStep(x, Pow2(k - 1), Pow2(w - 1) - Pow2(k - 1));
      assert Pow2(w) - Pow2(k) == 2 * (Pow2(w - 1) - Pow2(k - 1));
    }
  }

  lemma AndHighStep(x: nat, p: nat, m: nat)
    requires p > 0 && And(x / 2, m) == x / 2 - x / 2 % p
    ensures And(x, 2 * m) == x - x % (2 * p)
  {
    DivMul(x, p);
    AndEven(x, m);
  }

  lemma AndEven(x: nat, m: nat)
    ensures And(x, 2 * m) == 2 * And(x / 2, m)
  {
  }

  /** Xor with all ones is the complement. */
  lemma {:induction false} XorOnes(x: nat, w: nat)
    requires x < Pow2(w)
    ensures Xor(Pow2(w) - 1, x) == Pow2(w) - 1 - x
  {
    if w > 0 && x > 0 {
      XorOnes(x / 2, w - 1);
      XorOdd(Pow2(w - 1), x / 2, x % 2);
    }
  }

  lemma XorOdd(p: nat, y: nat, b: nat)
    requires y < p && b < 2 && Xor(p - 1, y) == p - 1 - y
    ensures Xor(2 * p - 1, 2 * y + b) == 2 * p - 1 - (2 * y + b)
  {
    XorDigit(p - 1, 1, y, b);
    assert 2 * (p - 1) + 1 == 2 * p - 1;
  }

  lemma XorDigit(a: nat, b: nat, m: nat, c: nat)
    requires b < 2 && c < 2
    ensures Xor(2 * a + b, 2 * m + c) == 2 * Xor(a, m) + if b != c then 1 else 0
  {
  }

  // ---------------------------------------------------------------- the operators bit by bit

  lemma {:induction false} XorBelow(x: nat, y: nat, w: nat)
    requires x < Pow2(w) && y < Pow2(w)
    ensures Xor(x, y) < Pow2(w)
  {
    if w > 0 && x > 0 && y > 0 {
      XorBelow(x / 2, y / 2, w - 1);
    }
  }

  lemma {:induction false} OrBelow(x: nat, y: nat, w: nat)
    requires x < Pow2(w) && y < Pow2(w)
    ensures Or(x, y) < Pow2(w)
  {
    if w > 0 && x > 0 && y > 0 {
      OrBelow(x / 2, y / 2, w - 1);
    }
  }

  lemma {:induction false} BitOfAnd(x: nat, y: nat, k: nat)
    ensures Bit(And(x, y), k) <==> Bit(x, k) && Bit(y, k)
  {
    if x == 0 || y == 0 {
      ZeroBits(k);
    } else if k > 0 {
      BitOfAnd(x / 2, y / 2, k - 1);
    }
  }

  lemma {:induction false} BitOfOr(x: nat, y: nat, k: nat)
    ensures Bit(Or(x, y), k) <==> Bit(x, k) || Bit(y, k)
  {
    if x == 0 || y == 0 {
      ZeroBits(k);
    } else if k > 0 {
      BitOfOr(x / 2, y / 2, k - 1);
    }
  }

  lemma {:induction false} BitOfXor(x: nat, y: nat, k: nat)
    ensures Bit(Xor(x, y), k) <==> Bit(x, k) != Bit(y, k)
  {
    if x == 0 || y == 0 {
      ZeroBits(k);
    } else if k > 0 {
      BitOfXor(x / 2, y / 2, k - 1);
    }
  }

  /** The top bit of a word says whether it is in the upper half. */
  lemma {:induction false} TopBit(x: nat, w: nat)
    requires x < Pow2(w + 1)
    ensures Bit(x, w) <==> x >= Pow2(w)
  {
    if w > 0 {
      TopBit(x / 2, w - 1);
    }
  }
}
