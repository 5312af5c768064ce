/**
  av_sat_add64_c and av_sat_sub64_c of libavutil/common.h. Each has two bodies, chosen
  by the compiler: one asks a builtin whether the sum leaves 64 bits, the other works
  that out from signs or comparisons. Both are shown to be the clamp of the exact sum.
  */
module Saturate {
  import opened Bits
  import opened IntMath
  import opened Clip

  const INT64_MIN: int := -0x8000_0000_0000_0000
  const INT64_MAX: int := 0x7FFF_FFFF_FFFF_FFFF

  // ---------------------------------------------------------------- with the builtin

  datatype Checked = Checked(overflow: bool, tmp: i64)

  /** What __builtin_add_overflow and __builtin_sub_overflow give for an exact result. */
  function Check(exact: int): Checked {
    Checked(!(INT64_MIN <= exact <= INT64_MAX), I64(exact % TWO_64))
  }

  /** The wrapped result of one overflow has the sign opposite to the exact one. */
  lemma WrappedSign(exact: int)
    requires 2 * INT64_MIN <= exact <= 2 * INT64_MAX + 1
    ensures Check(exact).overflow ==> (Check(exact).tmp < 0 <==> exact > 0)
    ensures !Check(exact).overflow ==> Check(exact).tmp == exact
  {
  }

  function AddBuiltin(a: i64, b: i64): (r: i64)
    ensures r == Clamp(a + b, INT64_MIN, INT64_MAX)
  {
    WrappedSign(a + b);
    var c := Check(a + b);
    if !c.overflow then c.tmp else if c.tmp < 0 then INT64_MAX else INT64_MIN
  }

  function SubBuiltin(a: i64, b: i64): (r: i64)
    ensures r == Clamp(a - b, INT64_MIN, INT64_MAX)
  {
    WrappedSign(a - b);
    var c := Check(a - b);
    if !c.overflow then c.tmp else if c.tmp < 0 then INT64_MAX else INT64_MIN
  }

  // ---------------------------------------------------------------- without it

  lemma Pow2Of64()
    ensures Pow2(64) == TWO_64 && Pow2(63) == 0x8000_0000_0000_0000
  {
    Pow2Values();
  }

  /** The sign of a number is the top bit of its word. */
  lemma SignBit(v: u64)
    ensures Bit(v, 63) <==> I64(v) < 0
  {
    Pow2Of64();
    TopBit(v, 63);
  }

  function XorWord(x: u64, y: u64): (r: u64)
    ensures I64(r) < 0 <==> (I64(x) < 0) != (I64(y) < 0)
  {
    Pow2Of64();
    XorBelow(x, y, 64);
    BitOfXor(x, y, 63);
    SignBit(x);
    SignBit(y);
    SignBit(Xor(x, y));
    Xor(x, y)
  }

  function OrWord(x: u64, y: u64): (r: u64)
    ensures I64(r) < 0 <==> I64(x) < 0 || I64(y) < 0
  {
    Pow2Of64();
    OrBelow(x, y, 64);
    BitOfOr(x, y, 63);
    SignBit(x);
    SignBit(y);
    SignBit(Or(x, y));
    Or(x, y)
  }

  /** a ^ b | ~s ^ b for the wrapped sum s, as the source takes it. */
  function Signs(a: i64, b: i64, s: i64): (v: i64)
    ensures v >= 0 <==> (a < 0 <==> b < 0) && !(s < 0 <==> b < 0)
  {
    I64(OrWord(XorWord(U64(a), U64(b)), XorWord(Not64(U64(s)), U64(b))))
  }

  /** The sign test finds exactly the sums that leave 64 bits. */
  lemma SignsTest(a: i64, b: i64)
    ensures Signs(a, b, I64((a + U64(b)) % TWO_64)) >= 0 <==> Check(a + b).overflow
    ensures I64((a + U64(b)) % TWO_64) == Check(a + b).tmp
  {
    assert U64(b) == b || U64(b) == b + TWO_64;
    assert (a + U64(b)) % TWO_64 == (a + b) % TWO_64;
  }

  function AddPortable(a: i64, b: i64): (r: i64)
    ensures r == Clamp(a + b, INT64_MIN, INT64_MAX)
  {
    SignsTest(a, b);
    WrappedSign(a + b);
    SignOf64(b);
    FlipMax(Sar(b, 63));
    var s: i64 := I64((a + U64(b)) % TWO_64);
    if Signs(a, b, s) >= 0 then XorSigned64(INT64_MAX, Sar(b, 63)) else s
  }

  lemma FlipMax(s: i64)
    requires s == 0 || s == -1
    ensures XorSigned64(INT64_MAX, s) == if s == 0 then INT64_MAX else INT64_MIN
  {
    XorCommutes(U64(INT64_MAX), U64(s));
    Flip64(s, INT64_MAX);
  }

  lemma {:induction false} XorCommutes(x: nat, y: nat)
    ensures Xor(x, y) == Xor(y, x)
  {
    if x > 0 && y > 0 {
      XorCommutes(x / 2, y / 2);
    }
  }

  /** Every intermediate value is typed as 64 bits: none of the comparisons overflows. */
  function SubPortable(a: i64, b: i64): (r: i64)
    ensures r == Clamp(a - b, INT64_MIN, INT64_MAX)
  {
    if b <= 0 && (var top: i64 := INT64_MAX + b; a >= top) then INT64_MAX
    else if b >= 0 && (var bottom: i64 := INT64_MIN + b; a <= bottom) then INT64_MIN
    else a - b
  }

  /** The bodies agree, and saturating subtraction is addition of the opposite wherever that exists. */
  lemma BodiesAgree(a: i64, b: i64)
    ensures AddBuiltin(a, b) == AddPortable(a, b) == AddPortable(b, a)
    ensures SubBuiltin(a, b) == SubPortable(a, b)
    ensures b != INT64_MIN ==> SubPortable(a, b) == AddPortable(a, -b)
  {
  }

  /**
    With the least number, which has no opposite in 64 bits, adding the greatest instead
    is right exactly where the subtraction saturates.
    */
  lemma SubtractLeast(a: i64)
    ensures SubPortable(a, INT64_MIN) == AddPortable(a, INT64_MAX) <==> a >= 0
  {
  }
}
