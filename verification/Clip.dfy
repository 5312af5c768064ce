/**
  The integer clips of libavutil/common.h that test with one mask and compute the
  bound from the sign, and the 32-bit saturating operations built on them. Words of
  32 and 64 bits are converted explicitly; right shifts of negative numbers keep the
  sign.
  */
module Clip {
  import opened Bits
  import opened IntMath

  const INT32_MIN: int := -0x8000_0000
  const INT32_MAX: int := 0x7FFF_FFFF

  /** The mathematical clamp. */
  function Clamp(x: int, lo: int, hi: int): (r: int)
    requires lo <= hi
    ensures lo <= r <= hi
    ensures lo <= x <= hi ==> r == x
  {
    if x < lo then lo else if x > hi then hi else x
  }

  /** The clamp is the number of the range nearest to x, and no other is as near. */
  lemma ClampIsNearest(x: int, lo: int, hi: int, y: int)
    requires lo <= y <= hi
    ensures
      var r := Clamp(x, lo, hi);
      && (if x >= r then x - r else r - x) <= (if x >= y then x - y else y - x)
      && ((if x >= r then x - r else r - x) == (if x >= y then x - y else y - x) ==> y == r)
  {
  }

  lemma ClampIsMonotone(x: int, y: int, lo: int, hi: int)
    requires x <= y && lo <= hi
    ensures Clamp(x, lo, hi) <= Clamp(y, lo, hi)
  {
    ClampIsNearest(x, lo, hi, Clamp(y, lo, hi));
    ClampIsNearest(y, lo, hi, Clamp(x, lo, hi));
  }

  /** The complement of a word. */
  function Not32(v: u32): (r: u32)
    ensures r == 0xFFFF_FFFF - v
  {
    Pow2Values();
    XorOnes(v, 32);
    Xor(0xFFFF_FFFF, v)
  }

  function Not64(v: u64): (r: u64)
    ensures r == 0xFFFF_FFFF_FFFF_FFFF - v
  {
    Pow2Values();
    XorOnes(v, 64);
    Xor(0xFFFF_FFFF_FFFF_FFFF, v)
  }

  /** Shifting out all but the sign leaves 0 or -1. */
  lemma SignOf32(a: i32)
    ensures Sar(a, 31) == if a >= 0 then 0 else -1
  {
    Pow2Values();
    DivUnique(a, 0x8000_0000, if a >= 0 then 0 else -1, if a >= 0 then a else a + 0x8000_0000);
  }

  lemma SignOf64(a: i64)
    ensures Sar(a, 63) == if a >= 0 then 0 else -1
  {
    Pow2Values();
    DivUnique(a, 0x8000_0000_0000_0000, if a >= 0 then 0 else -1, if a >= 0 then a else a + 0x8000_0000_0000_0000);
  }

  /** The complement of a number has the opposite sign. */
  lemma SignOfComplement(a: i32)
    ensures Sar(I32(Not32(U32(a))), 31) == if a >= 0 then -1 else 0
  {
    assert I32(Not32(U32(a))) == -1 - a;
    SignOf32(-1 - a);
  }

  /** The exclusive or of signed numbers, by way of their words. */
  function XorSigned32(x: i32, y: i32): i32 {
    Pow2Values();
    XorBelow(U32(x), U32(y), 32);
    I32(Xor(U32(x), U32(y)))
  }

  function XorSigned64(x: i64, y: i64): i64 {
    Pow2Values();
    XorBelow(U64(x), U64(y), 64);
    I64(Xor(U64(x), U64(y)))
  }

  /** Flipping the low bits of 0 or -1. */
  lemma Flip32(s: i32, m: i32)
    requires m >= 0 && (s == 0 || s == -1)
    ensures XorSigned32(s, m) == if s == 0 then m else -1 - m
  {
    Words32(s);
    assert Not32(m) == Xor(0xFFFF_FFFF, m);
  }

  lemma Words32(s: i32)
    ensures s >= 0 ==> U32(s) == s
    ensures s == -1 ==> U32(s) == 0xFFFF_FFFF
  {
  }

  lemma Flip64(s: i64, m: i64)
    requires m >= 0 && (s == 0 || s == -1)
    ensures XorSigned64(s, m) == if s == 0 then m else -1 - m
  {
    Words64(s);
    assert Not64(m) == Xor(0xFFFF_FFFF_FFFF_FFFF, m);
  }

  lemma Words64(s: i64)
    ensures s >= 0 ==> U64(s) == s
    ensures s == -1 ==> U64(s) == 0xFFFF_FFFF_FFFF_FFFF
  {
  }

  lemma Pow2Of31()
    ensures Pow2(31) == 0x8000_0000
  {
    Pow2Values();
  }

  lemma Pow2Of30()
    ensures Pow2(30) == 0x4000_0000
  {
    Pow2Of31();
    assert Pow2(31) == 2 * Pow2(30);
  }

  lemma Pow2Of16()
    ensures Pow2(16) == 0x1_0000 && Pow2(15) == 0x8000
  {
    Pow2Values();
    assert Pow2(16) == 2 * Pow2(15);
  }

  lemma Moved(a: i32, q: nat)
    requires 0 < q <= 0x4000_0000
    ensures (U32(a) + q) % TWO_32 < 2 * q <==> -1 * q <= a < q
  {
  }

  /** The word of a, moved up by 2^k, has no bit from k + 1 up exactly when a is a signed (k + 1)-bit number. */
  lemma SignedRangeTest(a: i32, k: nat)
    requires k <= 30
    ensures 0 < Pow2(k) <= 0x4000_0000
    ensures And((U32(a) + Pow2(k)) % TWO_32, TWO_32 - 2 * Pow2(k)) == 0 <==> -1 * Pow2(k) <= a < Pow2(k)
  {
    Pow2Of30();
    Pow2Monotone(k, 30);
    Moved(a, Pow2(k));
    Pow2Of32();
    MaskTest((U32(a) + Pow2(k)) % TWO_32, k + 1, 32);
  }

  lemma UnsignedRangeTest(a: i32, k: nat)
    requires k <= 30
    ensures 0 < Pow2(k) <= 0x4000_0000
    ensures And(U32(a), TWO_32 - Pow2(k)) == 0 <==> 0 <= a < Pow2(k)
  {
    Pow2Of30();
    Pow2Monotone(k, 30);
    Pow2Of32();
    MaskTest(U32(a), k, 32);
  }

  lemma LongRangeTest(a: i64)
    requires a + 0x8000_0000 <= 0x7FFF_FFFF_FFFF_FFFF
    ensures And(U64(a + 0x8000_0000), TWO_64 - TWO_32) == 0 <==> INT32_MIN <= a <= INT32_MAX
  {
    LongMoved(a);
    Pow2Values();
    MaskTest(U64(a + 0x8000_0000), 32, 64);
  }

  lemma LongMoved(a: i64)
    requires a + 0x8000_0000 <= 0x7FFF_FFFF_FFFF_FFFF
    ensures U64(a + 0x8000_0000) < TWO_32 <==> INT32_MIN <= a <= INT32_MAX
  {
  }

  // ---------------------------------------------------------------- the clips

  /** av_clip_uint8_c; the result is cut to eight bits on return. */
  function AvClipUint8(a: i32): (r: u8)
    ensures r == Clamp(a, 0, 255)
  {
    Pow2Small();
    UnsignedRangeTest(a, 8);
    SignOfComplement(a);
    if And(U32(a), Not32(0xFF)) != 0 then Sar(I32(Not32(U32(a))), 31) % 0x100 else a
  }

  /** av_clip_int8_c */
  function AvClipInt8(a: i32): (r: i32)
    ensures r == Clamp(a, -128, 127)
  {
    Pow2Small();
    SignedRangeTest(a, 7);
    SignOf32(a);
    Flip32(Sar(a, 31), 0x7F);
    if And((U32(a) + 0x80) % TWO_32, Not32(0xFF)) != 0 then XorSigned32(Sar(a, 31), 0x7F) else a
  }

  /** av_clip_uint16_c */
  function AvClipUint16(a: i32): (r: u16)
    ensures r == Clamp(a, 0, 65535)
  {
    Pow2Of16();
    UnsignedRangeTest(a, 16);
    SignOfComplement(a);
    if And(U32(a), Not32(0xFFFF)) != 0 then Sar(I32(Not32(U32(a))), 31) % 0x1_0000 else a
  }

  /** av_clip_int16_c */
  function AvClipInt16(a: i32): (r: i32)
    ensures r == Clamp(a, -32768, 32767)
  {
    Pow2Of16();
    SignedRangeTest(a, 15);
    SignOf32(a);
    Flip32(Sar(a, 31), 0x7FFF);
    if And((U32(a) + 0x8000) % TWO_32, Not32(0xFFFF)) != 0 then XorSigned32(Sar(a, 31), 0x7FFF) else a
  }

  /** Given that the test is right, flipping the sign gives the bound. */
  lemma SignedClip(a: i32, q: nat, s: i32, test: nat)
    requires 0 < q <= 0x4000_0000 && s == if a >= 0 then 0 else -1
    requires test == 0 <==> -1 * q <= a < q
    ensures (if test != 0 then XorSigned32(s, q - 1) else a) == Clamp(a, -1 * q, q - 1)
  {
    Flip32(s, q - 1);
  }

  lemma IntpTest(a: i32, p: nat, q: nat)
    requires p <= 29 && q == Pow2(p)
    ensures 0 < q <= 0x4000_0000
    ensures And((U32(a) + q) % TWO_32, Not32(2 * q - 1)) == 0 <==> -1 * q <= a < q
  {
    SignedRangeTest(a, p);
    var mask := Not32(2 * q - 1);
    assert mask == TWO_32 - 2 * q;
  }

  /** av_clip_intp2_c, for the p whose shifts stay in an int. */
  function AvClipIntp2(a: i32, p: nat): (r: i32)
    requires p <= 29
    ensures r == Clamp(a, -1 * Pow2(p), Pow2(p) - 1)
  {
    var q := Pow2(p);
    IntpTest(a, p, q);
    SignOf32(a);
    var s: i32 := Sar(a, 31);
    var test := And((U32(a) + q) % TWO_32, Not32(2 * q - 1));
    SignedClip(a, q, s, test);
    if test != 0 then XorSigned32(s, q - 1) else a
  }

  lemma LowOfOnes(p: nat)
    requires p <= 32
    ensures And(0xFFFF_FFFF, Pow2(p) - 1) == Pow2(p) - 1
  {
    AndLow(0xFFFF_FFFF, p);
    Pow2Of32();
    Pow2Add(32 - p, p);
    OnesRemainder(Pow2(32 - p), Pow2(p));
  }

  lemma OnesRemainder(c: nat, q: nat)
    requires c * q == TWO_32
    ensures q > 0 && 0xFFFF_FFFF % q == q - 1
  {
    assert q * (c - 1) + (q - 1) == c * q - 1;
    DivUnique(0xFFFF_FFFF, q, c - 1, q - 1);
  }

  lemma SignMask(s: i32, m: nat, p: nat)
    requires p <= 32 && m == Pow2(p) - 1 && (s == 0 || s == -1)
    ensures And(U32(s), m) == if s == -1 then m else 0
  {
    LowOfOnes(p);
    Words32(s);
  }

  /** av_clip_uintp2_c */
  function AvClipUintp2(a: i32, p: nat): (r: u32)
    requires p <= 30
    ensures r == Clamp(a, 0, Pow2(p) - 1)
  {
    UnsignedRangeTest(a, p);
    SignOfComplement(a);
    var s: i32 := Sar(I32(Not32(U32(a))), 31);
    SignMask(s, Pow2(p) - 1, p);
    if And(U32(a), Not32(Pow2(p) - 1)) != 0 then And(U32(s), Pow2(p) - 1) else U32(a)
  }

  /** av_clipl_int32_c, where a + 0x80000000u does not leave 64 bits. */
  function AvCliplInt32(a: i64): (r: i32)
    requires a + 0x8000_0000 <= 0x7FFF_FFFF_FFFF_FFFF
    ensures r == Clamp(a, INT32_MIN, INT32_MAX)
  {
    LongRangeTest(a);
    SignOf64(a);
    Flip64(Sar(a, 63), 0x7FFF_FFFF);
    if And(U64(a + 0x8000_0000), Not64(0xFFFF_FFFF)) != 0 then XorSigned64(Sar(a, 63), 0x7FFF_FFFF) else a
  }

  /** No clip turns an order of arguments round. */
  lemma ClipsAreMonotone(a: i32, b: i32, p: nat)
    requires a <= b && p <= 29
    ensures AvClipUint8(a) <= AvClipUint8(b) && AvClipInt8(a) <= AvClipInt8(b)
    ensures AvClipUint16(a) <= AvClipUint16(b) && AvClipInt16(a) <= AvClipInt16(b)
    ensures AvClipIntp2(a, p) <= AvClipIntp2(b, p) && AvClipUintp2(a, p) <= AvClipUintp2(b, p)
  {
    ClampIsMonotone(a, b, 0, 255);
    ClampIsMonotone(a, b, -128, 127);
    ClampIsMonotone(a, b, 0, 65535);
    ClampIsMonotone(a, b, -32768, 32767);
    ClampIsMonotone(a, b, -1 * Pow2(p), Pow2(p) - 1);
    ClampIsMonotone(a, b, 0, Pow2(p) - 1);
  }

  /** What an unsigned clip makes of a number outside its range. */
  lemma UnsignedClipsOutside(a: i32, p: nat)
    requires p <= 30
    ensures a < 0 ==> AvClipUint8(a) == 0 && AvClipUint16(a) == 0 && AvClipUintp2(a, p) == 0
    ensures a > 255 ==> AvClipUint8(a) == 255
    ensures a > 65535 ==> AvClipUint16(a) == 65535
    ensures a >= Pow2(p) ==> AvClipUintp2(a, p) == Pow2(p) - 1
  {
    ClampIsNearest(a, 0, 255, 0);
    ClampIsNearest(a, 0, 255, 255);
    ClampIsNearest(a, 0, 65535, 0);
    ClampIsNearest(a, 0, 65535, 65535);
    ClampIsNearest(a, 0, Pow2(p) - 1, 0);
    ClampIsNearest(a, 0, Pow2(p) - 1, Pow2(p) - 1);
  }

  // ---------------------------------------------------------------- saturation in 32 bits

  /** av_sat_add32_c */
  function AvSatAdd32(a: i32, b: i32): (r: i32)
    ensures r == Clamp(a + b, INT32_MIN, INT32_MAX)
  {
    AvCliplInt32(a + b)
  }

  /** av_sat_dadd32_c */
  function AvSatDadd32(a: i32, b: i32): (r: i32)
    ensures r == Clamp(a + Clamp(2 * b, INT32_MIN, INT32_MAX), INT32_MIN, INT32_MAX)
  {
    AvSatAdd32(a, AvSatAdd32(b, b))
  }

  /** av_sat_sub32_c */
  function AvSatSub32(a: i32, b: i32): (r: i32)
    ensures r == Clamp(a - b, INT32_MIN, INT32_MAX)
  {
    AvCliplInt32(a - b)
  }

  /** av_sat_dsub32_c */
  function AvSatDsub32(a: i32, b: i32): (r: i32)
    ensures r == Clamp(a - Clamp(2 * b, INT32_MIN, INT32_MAX), INT32_MIN, INT32_MAX)
  {
    AvSatSub32(a, AvSatAdd32(b, b))
  }

  /** Saturating twice differs from saturating a + 2b once exactly when the doubling saturates against the sign of a. */
  lemma TwoStagesMatter(a: i32, b: i32)
    ensures AvSatDadd32(a, b) == Clamp(a + 2 * b, INT32_MIN, INT32_MAX) <==>
            (2 * b > INT32_MAX ==> a >= 0) && (2 * b < INT32_MIN ==> a <= 0)
    ensures AvSatDsub32(a, b) == Clamp(a - 2 * b, INT32_MIN, INT32_MAX) <==>
            (2 * b > INT32_MAX ==> a < 0) && (2 * b < INT32_MIN ==> a >= -1)
  {
    var d := Clamp(2 * b, INT32_MIN, INT32_MAX);
    assert AvSatDadd32(a, b) == Clamp(a + d, INT32_MIN, INT32_MAX);
    assert AvSatDsub32(a, b) == Clamp(a - d, INT32_MIN, INT32_MAX);
  }
}
