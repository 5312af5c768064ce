/**
  The rounding macros of libavutil/common.h over unbounded integers. Division is C's,
  which truncates toward zero; right shifts of negative numbers keep the sign.
  */
module Rounding {
  import opened Bits

  /** C's quotient for a positive divisor. */
  function Quotient(a: int, b: int): int
    requires b > 0
  {
    if a >= 0 then a / b else -((-a) / b)
  }

  lemma Scale(b: int, x: int, y: int)
    requires b > 0
    ensures x < y ==> b * x + b <= b * y
    ensures b * x < b * y ==> x < y
  {
    MulDistributes(b, y, x);
    if x < y {
      MulAtLeast(b, y - x);
    } else {
      assert b * (x - y) >= 0;
      MulDistributes(b, x, y);
    }
  }

  // ---------------------------------------------------------------- rounding to nearest

  /** ROUNDED_DIV */
  function RoundedDiv(a: int, b: int): int
    requires b > 0
  {
    Quotient(if a >= 0 then a + Sar(b, 1) else a - Sar(b, 1), b)
  }

  /** q is the nearest to a / b; a tie goes away from zero. */
  predicate Nearest(a: int, b: int, q: int)
  {
    && -b <= 2 * (a - b * q) <= b
    && (a >= 0 ==> 2 * (a - b * q) < b)
    && (a < 0 ==> 2 * (a - b * q) > -b)
  }

  lemma OddSymmetric(a: int, b: int)
    requires b > 0
    ensures RoundedDiv(-a, b) == -RoundedDiv(a, b)
  {
    Half(b);
    if a == 0 {
      DivUnique(b / 2, b, 0, b / 2);
    } else {
      Opposite(a + b / 2, b);
      Opposite(a - b / 2, b);
    }
  }

  lemma Opposite(n: int, b: int)
    requires b > 0
    ensures Quotient(-n, b) == -Quotient(n, b)
  {
    if n == 0 {
      DivUnique(0, b, 0, 0);
    }
  }

  lemma Half(b: int)
    ensures Sar(b, 1) == b / 2
  {
    assert Pow2(1) == 2 * Pow2(0);
  }

  /** The macro gives the nearest number, and there is only one. */
  lemma RoundedDivIsNearest(a: int, b: int, q: int)
    requires b > 0
    ensures q == RoundedDiv(a, b) <==> Nearest(a, b, q)
    ensures q == RoundedDiv(a, b) ==> -b <= 2 * (a - b * q) <= b
  {
    if a >= 0 {
      NearestUp(a, b);
    } else {
      NearestUp(-a, b);
      OddSymmetric(a, b);
      NearestDown(a, b, RoundedDiv(-a, b));
    }
    if Nearest(a, b, q) {
      OnlyNearest(a, b, RoundedDiv(a, b), q);
    }
  }

  lemma NearestDown(a: int, b: int, p: int)
    requires a < 0 && Nearest(-a, b, p)
    ensures Nearest(a, b, -p)
  {
    assert b * -p == -(b * p);
  }

  lemma NearestUp(a: int, b: int)
    requires b > 0 && a >= 0
    ensures Nearest(a, b, RoundedDiv(a, b))
  {
    var n := a + b / 2;
    Half(b);
    assert n == b * (n / b) + n % b;
  }

  lemma OnlyNearest(a: int, b: int, p: int, q: int)
    requires b > 0 && Nearest(a, b, p) && Nearest(a, b, q)
    ensures p == q
  {
    Scale(b, p, q);
    Scale(b, q, p);
  }

  /** RSHIFT */
  function RShift(a: int, k: nat): int {
    if a > 0 then Sar(a + Sar(Pow2(k), 1), k) else Sar(a + Sar(Pow2(k), 1) - 1, k)
  }

  /** The shift rounds as the division by 2^k does, except that shifting by nothing takes one from what is not positive. */
  lemma RShiftExact(a: int, k: nat)
    ensures RShift(a, k) == RoundedDiv(a, Pow2(k)) <==> k > 0 || a > 0
  {
    if k == 0 {
      Half(1);
      assert RoundedDiv(a, 1) == a;
      assert RShift(a, 0) == if a > 0 then a else a - 1;
    } else {
      var h := Pow2(k - 1);
      Half(2 * h);
      ShiftIsNearest(a, h, if a > 0 then a + h else a + h - 1);
      RoundedDivIsNearest(a, 2 * h, RShift(a, k));
    }
  }

  lemma ShiftIsNearest(a: int, h: int, n: int)
    requires h > 0 && n == if a > 0 then a + h else a + h - 1
    ensures Nearest(a, 2 * h, n / (2 * h))
  {
    assert n == (2 * h) * (n / (2 * h)) + n % (2 * h);
  }

  // ---------------------------------------------------------------- rounding up

  /** The ceiling of a / b. */
  predicate Ceiling(a: int, b: int, q: int) {
    b * (q - 1) < a <= b * q
  }

  /** AV_CEIL_RSHIFT with a shift the compiler does not know. */
  function CeilRShiftVariable(a: int, k: nat): int {
    -Sar(-a, k)
  }

  /** AV_CEIL_RSHIFT with a constant shift. */
  function CeilRShiftConstant(a: int, k: nat): int {
    Sar(a + Pow2(k) - 1, k)
  }

  /** Both forms are the ceiling and nothing else is. */
  lemma CeilRShiftExact(a: int, k: nat, q: int)
    ensures q == CeilRShiftVariable(a, k) <==> Pow2(k) * (q - 1) < a <= Pow2(k) * q
    ensures q == CeilRShiftConstant(a, k) <==> Pow2(k) * (q - 1) < a <= Pow2(k) * q
  {
    CeilingOf(a, Pow2(k));
    OnlyCeiling(a, Pow2(k), CeilRShiftVariable(a, k), q);
    OnlyCeiling(a, Pow2(k), CeilRShiftConstant(a, k), q);
  }

  lemma CeilingOf(a: int, b: int)
    requires b > 0
    ensures Ceiling(a, b, -(-a / b))
    ensures Ceiling(a, b, (a + b - 1) / b)
  {
    var d, u := -a / b, (a + b - 1) / b;
    assert -a == b * d + (-a) % b;
    assert a + b - 1 == b * u + (a + b - 1) % b;
    assert b * -d == -(b * d) && b * (-d - 1) == -(b * d) - b;
    assert b * (u - 1) == b * u - b;
  }

  lemma OnlyCeiling(a: int, b: int, p: int, q: int)
    requires b > 0 && Ceiling(a, b, p)
    ensures Ceiling(a, b, q) <==> p == q
  {
    Scale(b, p - 1, q);
    Scale(b, q - 1, p);
  }

  // ---------------------------------------------------------------- rounding down

  /** FFUDIV */
  function FfuDiv(a: int, b: int): int
    requires b > 0
  {
    Quotient(if a > 0 then a else a - b + 1, b)
  }

  /** FFUMOD */
  function FfuMod(a: int, b: int): int
    requires b > 0
  {
    a - b * FfuDiv(a, b)
  }

  /** Together they are the floor quotient and its remainder, which nothing else is. */
  lemma FloorExact(a: int, b: int, q: int, r: int)
    requires b > 0
    ensures q == FfuDiv(a, b) && r == FfuMod(a, b) <==> a == b * q + r && 0 <= r < b
  {
    FloorOf(a, b);
    if a == b * q + r && 0 <= r < b {
      Scale(b, q, FfuDiv(a, b));
      Scale(b, FfuDiv(a, b), q);
    }
  }

  lemma FloorOf(a: int, b: int)
    requires b > 0
    ensures 0 <= FfuMod(a, b) < b
  {
    if a > 0 {
      assert a == b * (a / b) + a % b;
    } else {
      var n := -a + b - 1;
      assert n == b * (n / b) + n % b;
      assert b * -(n / b) == -(b * (n / b));
    }
  }
}
