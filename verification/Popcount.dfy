/**
  av_popcount_c, av_popcount64_c and av_parity_c of libavutil/common.h: counting bits
  in parallel in fields of 2, 4 and 8 bits. Each step is shown to hold, in every
  field, the bit count of that field of the argument, for words of any width; the
  last step adds up the four bytes of a 32-bit word.
  */
module Popcount {
  import opened Bits
  import opened IntMath

  /** The definition: how many bits of x are one. */
  function BitCount(x: nat): nat {
    if x == 0 then 0 else x % 2 + BitCount(x / 2)
  }

  /** The word whose fields, digits to the given base, hold the bit counts of the fields of x. */
  function Pack(x: nat, base: nat): nat
    requires base in {4, 16, 256}
    decreases x
  {
    if x == 0 then 0 else base * Pack(x / base, base) + BitCount(x % base)
  }

  /** n fields each holding m: the masks 0x55..., 0x33... and 0x0F.... */
  function Repeated(m: nat, base: nat, n: nat): nat {
    if n == 0 then 0 else base * Repeated(m, base, n - 1) + m
  }

  // ---------------------------------------------------------------- fields of a word

  lemma And2(a: nat, b: nat, m: nat, c: nat)
    requires b < 2 && c < 2
    ensures And(2 * a + b, 2 * m + c) == 2 * And(a, m) + And(b, c)
  {
  }

  lemma And4Bits(a: nat, e: nat, d: nat, m: nat, f: nat, g: nat)
    requires e < 2 && d < 2 && f < 2 && g < 2
    ensures And(4 * a + 2 * e + d, 4 * m + 2 * f + g) == 4 * And(a, m) + 2 * And(e, f) + And(d, g)
  {
    And2(2 * a + e, d, 2 * m + f, g);
    And2(a, e, m, f);
    assert 2 * (2 * a + e) + d == 4 * a + 2 * e + d;
  }

  lemma And4(a: nat, b: nat, m: nat, c: nat)
    requires b < 4 && c < 4
    ensures And(4 * a + b, 4 * m + c) == 4 * And(a, m) + And(b, c)
  {
    var e, d := b / 2, b % 2;
    var f, g := c / 2, c % 2;
    And4Bits(a, e, d, m, f, g);
    And2(e, d, f, g);
  }

  /** The same for two digits to base four. */
  lemma And16Digits(a: nat, e: nat, d: nat, m: nat, f: nat, g: nat)
    requires e < 4 && d < 4 && f < 4 && g < 4
    ensures And(16 * a + 4 * e + d, 16 * m + 4 * f + g) == 16 * And(a, m) + 4 * And(e, f) + And(d, g)
  {
    And4(4 * a + e, d, 4 * m + f, g);
    And4(a, e, m, f);
    assert 4 * (4 * a + e) + d == 16 * a + 4 * e + d;
  }

  lemma And16(a: nat, b: nat, m: nat, c: nat)
    requires b < 16 && c < 16
    ensures And(16 * a + b, 16 * m + c) == 16 * And(a, m) + And(b, c)
  {
    var e, d := Below16(b);
    var f, g := Below16(c);
    And16Digits(a, e, d, m, f, g);
    And4(e, d, f, g);
  }

  /** The same for two digits to base sixteen. */
  lemma And256Digits(a: nat, e: nat, d: nat, m: nat, f: nat, g: nat)
    requires e < 16 && d < 16 && f < 16 && g < 16
    ensures And(256 * a + 16 * e + d, 256 * m + 16 * f + g) == 256 * And(a, m) + 16 * And(e, f) + And(d, g)
  {
    And16(16 * a + e, d, 16 * m + f, g);
    And16(a, e, m, f);
    assert 16 * (16 * a + e) + d == 256 * a + 16 * e + d;
  }

  lemma LowMasks(x: nat)
    ensures And(x, 1) == x % 2 && And(x, 3) == x % 4 && And(x, 15) == x % 16 && And(x, 63) == x % 64
  {
    Pow2Small();
    AndLow(x, 1);
    AndLow(x, 2);
    AndLow(x, 4);
    AndLow(x, 6);
  }

  lemma Count2(a: nat, b: nat)
    requires b < 2
    ensures BitCount(2 * a + b) == BitCount(a) + b
  {
  }

  lemma Count4(a: nat, c: nat, b: nat)
    requires b < 2 && c < 2
    ensures BitCount(4 * a + 2 * c + b) == BitCount(a) + c + b
  {
    Count2(2 * a + c, b);
    Count2(a, c);
  }

  /** A number below four is its two bits. */
  lemma Below4(d: nat) returns (c: nat, b: nat)
    requires d < 4
    ensures d == 2 * c + b && b < 2 && c < 2 && BitCount(d) == c + b
  {
    c, b := d / 2, d % 2;
    Count4(0, c, b);
  }

  lemma CountDigit4(a: nat, d: nat)
    requires d < 4
    ensures BitCount(4 * a + d) == BitCount(a) + BitCount(d) && BitCount(d) <= 2
  {
    var c, b := Below4(d);
    Count4(a, c, b);
  }

  lemma CountDigit16(a: nat, e: nat, d: nat)
    requires d < 4 && e < 4
    ensures BitCount(16 * a + 4 * e + d) == BitCount(a) + BitCount(e) + BitCount(d)
    ensures BitCount(4 * e + d) == BitCount(e) + BitCount(d) <= 4
  {
    CountDigit4(4 * a + e, d);
    CountDigit4(a, e);
    CountDigit4(e, d);
    assert 4 * (4 * a + e) + d == 16 * a + 4 * e + d;
  }

  lemma Below16(d: nat) returns (e: nat, c: nat)
    requires d < 16
    ensures d == 4 * e + c && e < 4 && c < 4
  {
    e, c := d / 4, d % 4;
  }

  lemma CountNibble(a: nat, d: nat)
    requires d < 16
    ensures BitCount(16 * a + d) == BitCount(a) + BitCount(d) && BitCount(d) <= 4
  {
    var e, c := Below16(d);
    CountDigit16(a, e, c);
  }

  lemma CountByte(a: nat, e: nat, d: nat)
    requires d < 16 && e < 16
    ensures BitCount(256 * a + (16 * e + d)) == BitCount(a) + BitCount(16 * e + d)
    ensures BitCount(16 * e + d) == BitCount(e) + BitCount(d) && BitCount(e) <= 4 && BitCount(d) <= 4
  {
    CountNibble(16 * a + e, d);
    CountNibble(a, e);
    CountNibble(e, d);
    assert 16 * (16 * a + e) + d == 256 * a + (16 * e + d);
  }

  lemma PackDigit4(h: nat, d: nat)
    requires d < 4
    ensures Pack(4 * h + d, 4) == 4 * Pack(h, 4) + BitCount(d)
  {
    DivUnique(4 * h + d, 4, h, d);
  }

  lemma PackDigit16(h: nat, d: nat)
    requires d < 16
    ensures Pack(16 * h + d, 16) == 16 * Pack(h, 16) + BitCount(d)
  {
    DivUnique(16 * h + d, 16, h, d);
  }

  lemma PackDigit256(h: nat, d: nat)
    requires d < 256
    ensures Pack(256 * h + d, 256) == 256 * Pack(h, 256) + BitCount(d)
  {
    DivUnique(256 * h + d, 256, h, d);
  }

  // ---------------------------------------------------------------- the three parallel steps

  lemma SplitAt2(h: nat, c: nat, b: nat)
    requires c < 2 && b < 2
    ensures (4 * h + 2 * c + b) / 2 == 4 * (h / 2) + (2 * (h % 2) + c)
    ensures 2 * (h % 2) + c < 4 && (2 * (h % 2) + c) % 2 == c
  {
  }

  lemma MaskOnce(h: nat, c: nat, b: nat, m: nat)
    requires c < 2 && b < 2
    ensures And((4 * h + 2 * c + b) / 2, 4 * m + 1) == 4 * And(h / 2, m) + c
  {
    SplitAt2(h, c, b);
    And4(h / 2, 2 * (h % 2) + c, m, 1);
    LowMasks(2 * (h % 2) + c);
  }

  lemma PackOne4(h: nat, c: nat, b: nat)
    requires c < 2 && b < 2
    ensures Pack(4 * h + 2 * c + b, 4) == 4 * Pack(h, 4) + c + b
  {
    Count4(0, c, b);
    PackDigit4(h, 2 * c + b);
    assert 4 * h + (2 * c + b) == 4 * h + 2 * c + b;
  }

  lemma QuadDigit(x: nat) returns (h: nat, c: nat, b: nat)
    ensures x == 4 * h + 2 * c + b && c < 2 && b < 2
  {
    h := x / 4;
    c, b := Below4(x % 4);
  }

  lemma FewerDigits(h: nat, x: nat, n: nat)
    requires n > 0 && x < Pow2(2 * n) && 4 * h <= x
    ensures h < Pow2(2 * (n - 1))
  {
    assert Pow2(2 * n) == 2 * Pow2(2 * n - 1) == 4 * Pow2(2 * (n - 1));
  }

  /** x - (x >> 1 & 0x55...): counts in fields of two bits, without borrow between fields. */
  lemma {:induction false} CountsOf2(x: nat, n: nat)
    requires x < Pow2(2 * n)
    ensures And(x / 2, Repeated(1, 4, n)) <= x
    ensures x - And(x / 2, Repeated(1, 4, n)) == Pack(x, 4)
  {
    if n > 0 {
      var h, c, b := QuadDigit(x);
      FewerDigits(h, x, n);
      CountsOf2(h, n - 1);
      MaskOnce(h, c, b, Repeated(1, 4, n - 1));
      PackOne4(h, c, b);
    }
  }

  lemma SplitAt4(p: nat, ce: nat, cd: nat)
    requires ce < 4 && cd < 4
    ensures (16 * p + 4 * ce + cd) / 4 == 16 * (p / 4) + 4 * (p % 4) + ce
  {
    assert 16 * p + 4 * ce + cd == 4 * (4 * p + ce) + cd;
  }

  lemma LowPair(e: nat, d: nat)
    requires d < 4
    ensures And(e, 0) == 0 && And(d, 3) == d
  {
    LowMasks(d);
  }

  lemma MaskTwice(p: nat, ce: nat, cd: nat, m: nat)
    requires ce < 4 && cd < 4
    ensures And(16 * p + 4 * ce + cd, 16 * m + 3) == 16 * And(p, m) + cd
    ensures And((16 * p + 4 * ce + cd) / 4, 16 * m + 3) == 16 * And(p / 4, m) + ce
  {
    And16Digits(p, ce, cd, m, 0, 3);
    LowPair(ce, cd);
    SplitAt4(p, ce, cd);
    And16Digits(p / 4, p % 4, ce, m, 0, 3);
    LowPair(p % 4, ce);
  }

  lemma PackTwo4(h: nat, e: nat, d: nat)
    requires d < 4 && e < 4
    ensures Pack(16 * h + 4 * e + d, 4) == 16 * Pack(h, 4) + 4 * BitCount(e) + BitCount(d)
  {
    assert 4 * (4 * h + e) + d == 16 * h + 4 * e + d;
    PackDigit4(4 * h + e, d);
    PackDigit4(h, e);
  }

  lemma PackOne16(h: nat, e: nat, d: nat)
    requires d < 4 && e < 4
    ensures Pack(16 * h + 4 * e + d, 16) == 16 * Pack(h, 16) + BitCount(e) + BitCount(d)
    ensures BitCount(e) <= 2 && BitCount(d) <= 2
  {
    CountDigit16(h, e, d);
    CountDigit4(0, e);
    CountDigit4(0, d);
    PackDigit16(h, 4 * e + d);
    assert 16 * h + (4 * e + d) == 16 * h + 4 * e + d;
  }

  lemma CountsOf4Step(h: nat, e: nat, d: nat, m: nat)
    requires d < 4 && e < 4 && And(Pack(h, 4), m) + And(Pack(h, 4) / 4, m) == Pack(h, 16)
    ensures
      var y := Pack(16 * h + 4 * e + d, 4);
      And(y, 16 * m + 3) + And(y / 4, 16 * m + 3) == Pack(16 * h + 4 * e + d, 16)
  {
    PackTwo4(h, e, d);
    PackOne16(h, e, d);
    MaskTwice(Pack(h, 4), BitCount(e), BitCount(d), m);
  }

  lemma HexDigit(x: nat) returns (h: nat, e: nat, d: nat)
    ensures x == 16 * h + 4 * e + d && e < 4 && d < 4
  {
    h := x / 16;
    e, d := Below16(x % 16);
  }

  lemma Pow2Step(m: nat)
    ensures Pow2(m + 4) == 16 * Pow2(m) && Pow2(m + 8) == 256 * Pow2(m)
  {
    Pow2Small();
    Pow2Add(m, 4);
    Pow2Add(m, 8);
  }

  /** (x & 0x33...) + (x >> 2 & 0x33...): counts in fields of four bits. */
  lemma {:induction false} CountsOf4(x: nat, n: nat)
    requires x < Pow2(4 * n)
    ensures And(Pack(x, 4), Repeated(3, 16, n)) + And(Pack(x, 4) / 4, Repeated(3, 16, n)) == Pack(x, 16)
  {
    if n > 0 {
      Pow2Step(4 * (n - 1));
      var h, e, d := HexDigit(x);
      CountsOf4(h, n - 1);
      CountsOf4Step(h, e, d, Repeated(3, 16, n - 1));
    }
  }

  /** The low field of packed counts is at most four, so adding a shifted copy stays within a byte. */
  lemma LowNibble(h: nat)
    ensures Pack(h, 16) % 16 <= 4
  {
    var g, e, d := HexDigit(h);
    PackOne16(g, e, d);
    LowDigit16(Pack(g, 16), BitCount(e) + BitCount(d));
  }

  lemma LowDigit16(q: nat, c: nat)
    requires c < 16
    ensures (16 * q + c) % 16 == c
  {
  }

  lemma NibbleSum(p: nat, ce: nat, cd: nat)
    requires p % 16 <= 4 && ce <= 4 && cd <= 4
    ensures
      var y := 256 * p + 16 * ce + cd;
      var low := 16 * (p % 16 + ce) + (ce + cd);
      y + y / 16 == 256 * (p + p / 16) + low && low < 256 && low % 16 == ce + cd
  {
    assert (256 * p + 16 * ce + cd) / 16 == 16 * p + ce;
    assert 16 * p == 256 * (p / 16) + 16 * (p % 16);
  }

  lemma LowByteSum(x: nat, n: nat)
    requires n < 16
    ensures And(x, 0) == 0 && And(n, 15) == n
  {
    LowMasks(n);
  }

  lemma MaskSum(p: nat, ce: nat, cd: nat, m: nat)
    requires p % 16 <= 4 && ce <= 4 && cd <= 4
    ensures
      var y := 256 * p + 16 * ce + cd;
      And(y + y / 16, 256 * m + 15) == 256 * And(p + p / 16, m) + (ce + cd)
  {
    NibbleSum(p, ce, cd);
    And256Digits(p + p / 16, p % 16 + ce, ce + cd, m, 0, 15);
    LowByteSum(p % 16 + ce, ce + cd);
  }

  lemma PackTwo16(h: nat, e: nat, d: nat)
    requires d < 16 && e < 16
    ensures Pack(256 * h + 16 * e + d, 16) == 256 * Pack(h, 16) + 16 * BitCount(e) + BitCount(d)
  {
    assert 16 * (16 * h + e) + d == 256 * h + 16 * e + d;
    PackDigit16(16 * h + e, d);
    PackDigit16(h, e);
  }

  lemma PackOne256(h: nat, e: nat, d: nat)
    requires d < 16 && e < 16
    ensures Pack(256 * h + 16 * e + d, 256) == 256 * Pack(h, 256) + (BitCount(e) + BitCount(d))
    ensures BitCount(e) <= 4 && BitCount(d) <= 4
  {
    CountByte(h, e, d);
    PackDigit256(h, 16 * e + d);
    assert 256 * h + (16 * e + d) == 256 * h + 16 * e + d;
  }

  lemma CountsOf8Step(h: nat, e: nat, d: nat, m: nat)
    requires d < 16 && e < 16 && And(Pack(h, 16) + Pack(h, 16) / 16, m) == Pack(h, 256)
    ensures
      var y := Pack(256 * h + 16 * e + d, 16);
      And(y + y / 16, 256 * m + 15) == Pack(256 * h + 16 * e + d, 256)
  {
    PackTwo16(h, e, d);
    PackOne256(h, e, d);
    LowNibble(h);
    MaskSum(Pack(h, 16), BitCount(e), BitCount(d), m);
  }

  lemma ByteDigit(x: nat) returns (h: nat, e: nat, d: nat)
    ensures x == 256 * h + 16 * e + d && e < 16 && d < 16
  {
    h, e, d := x / 256, x % 256 / 16, x % 16;
  }

  /** (x + (x >> 4)) & 0x0F...: counts in bytes; no unmasked sum leaves its byte. */
  lemma {:induction false} CountsOf8(x: nat, n: nat)
    requires x < Pow2(8 * n)
    ensures And(Pack(x, 16) + Pack(x, 16) / 16, Repeated(15, 256, n)) == Pack(x, 256)
  {
    if n > 0 {
      Pow2Step(8 * (n - 1));
      var h, e, d := ByteDigit(x);
      CountsOf8(h, n - 1);
      CountsOf8Step(h, e, d, Repeated(15, 256, n - 1));
    }
  }

  // ---------------------------------------------------------------- the code

  lemma Masks()
    ensures Repeated(1, 4, 16) == 0x5555_5555 && Repeated(3, 16, 8) == 0x3333_3333 && Repeated(15, 256, 4) == 0x0F0F_0F0F
  {
    assert Repeated(1, 4, 4) == 0x55;
    assert Repeated(1, 4, 8) == 0x5555;
    assert Repeated(1, 4, 12) == 0x55_5555;
    assert Repeated(3, 16, 4) == 0x3333;
  }

  lemma OneByte(x: nat) returns (h: nat, c: nat)
    ensures h == x / 256 && c <= 8
    ensures Pack(x, 256) == 256 * Pack(h, 256) + c && BitCount(x) == BitCount(h) + c
  {
    var e, d;
    h, e, d := ByteDigit(x);
    PackOne256(h, e, d);
    CountByte(h, e, d);
    c := BitCount(e) + BitCount(d);
    assert x == 256 * h + (16 * e + d);
  }

  /** The four bytes of packed counts and their sum. */
  lemma Bytes32(x: u32) returns (b3: nat, b2: nat, b1: nat, b0: nat)
    ensures b0 <= 8 && b1 <= 8 && b2 <= 8 && b3 <= 8
    ensures Pack(x, 256) == 0x100_0000 * b3 + 0x1_0000 * b2 + 0x100 * b1 + b0
    ensures BitCount(x) == b3 + b2 + b1 + b0
  {
    var h0, h1, h2, h3;
    h0, b0 := OneByte(x);
    h1, b1 := OneByte(h0);
    h2, b2 := OneByte(h1);
    h3, b3 := OneByte(h2);
    assert h3 == 0;
  }

  /** Adding the bytes of a word of small bytes with two shifts and a mask; no sum wraps. */
  lemma AddBytes(y: nat, b3: nat, b2: nat, b1: nat, b0: nat)
    requires b0 <= 8 && b1 <= 8 && b2 <= 8 && b3 <= 8
    requires y == 0x100_0000 * b3 + 0x1_0000 * b2 + 0x100 * b1 + b0
    ensures
      var z := y + y / 0x100;
      && z < TWO_32 && z + z / 0x1_0000 < TWO_32
      && (z + z / 0x1_0000) % 64 == b3 + b2 + b1 + b0
  {
    var a := 0x1_0000 * b3 + 0x100 * b2 + b1;
    DivUnique(y, 0x100, a, b0);
    var z := y + a;
    DivUnique(z, 0x1_0000, 257 * b3 + b2, 0x100 * (b2 + b1) + (b1 + b0));
    var k := 0x400 * (257 * b3 + b2) + 4 * (b2 + b1) + 4 * b3;
    DivUnique(z + (257 * b3 + b2), 64, k, b3 + b2 + b1 + b0);
  }

  lemma {:induction false} AndAtMost(x: nat, y: nat)
    ensures And(x, y) <= y
  {
    if x > 0 && y > 0 {
      AndAtMost(x / 2, y / 2);
    }
  }

  /** The shifts of the code as divisions. */
  lemma Shift(y: nat, n: nat, d: nat)
    requires d == Pow2(n)
    ensures Shr(y, n) == y / d
  {
  }

  lemma Shift1(y: nat)
    ensures Shr(y, 1) == y / 2
  {
    Pow2Small();
    Shift(y, 1, 2);
  }

  lemma Shift2(y: nat)
    ensures Shr(y, 2) == y / 4
  {
    Pow2Small();
    Shift(y, 2, 4);
  }

  lemma Shift4(y: nat)
    ensures Shr(y, 4) == y / 16
  {
    Pow2Small();
    Shift(y, 4, 16);
  }

  lemma Shift8(y: nat)
    ensures Shr(y, 8) == y / 0x100
  {
    Pow2Small();
    Shift(y, 8, 0x100);
  }

  lemma Shift16(y: nat)
    ensures Shr(y, 16) == y / 0x1_0000
  {
    Pow2Values();
    Shift(y, 16, 0x1_0000);
  }

  lemma Step1(x: u32)
    ensures And(x / 2, 0x5555_5555) <= x && x - And(x / 2, 0x5555_5555) == Pack(x, 4)
  {
    Masks();
    Pow2Values();
    CountsOf2(x, 16);
  }

  lemma Step2(x: u32)
    ensures And(Pack(x, 4), 0x3333_3333) + And(Pack(x, 4) / 4, 0x3333_3333) == Pack(x, 16)
    ensures Pack(x, 16) <= 0x6666_6666
  {
    Masks();
    Pow2Values();
    CountsOf4(x, 8);
    AndAtMost(Pack(x, 4), 0x3333_3333);
    AndAtMost(Pack(x, 4) / 4, 0x3333_3333);
  }

  lemma Step3(x: u32)
    ensures And(Pack(x, 16) + Pack(x, 16) / 16, 0x0F0F_0F0F) == Pack(x, 256)
  {
    Masks();
    Pow2Values();
    CountsOf8(x, 4);
  }

  lemma Line4(y: nat, b3: nat, b2: nat, b1: nat, b0: nat)
    requires b0 <= 8 && b1 <= 8 && b2 <= 8 && b3 <= 8
    requires y == 0x100_0000 * b3 + 0x1_0000 * b2 + 0x100 * b1 + b0
    ensures (y + Shr(y, 8)) % TWO_32 == y + y / 0x100
  {
    AddBytes(y, b3, b2, b1, b0);
    Shift8(y);
    NoWrap(y + y / 0x100);
  }

  lemma Line5(z: nat, n: nat)
    requires z + z / 0x1_0000 < TWO_32 && (z + z / 0x1_0000) % 64 == n
    ensures And((z + Shr(z, 16)) % TWO_32, 0x3F) == n
  {
    Shift16(z);
    NoWrap(z + z / 0x1_0000);
    LowSix(z + z / 0x1_0000);
  }

  /** The last two lines leave the sum of the bytes. */
  lemma AddedUp(y: nat, z: nat, x: u32)
    requires y == Pack(x, 256) && z == (y + Shr(y, 8)) % TWO_32
    ensures And((z + Shr(z, 16)) % TWO_32, 0x3F) == BitCount(x) <= 32
  {
    var b3, b2, b1, b0 := Bytes32(x);
    Line4(y, b3, b2, b1, b0);
    AddBytes(y, b3, b2, b1, b0);
    Line5(z, b3 + b2 + b1 + b0);
  }

  lemma LowSix(x: nat)
    ensures And(x, 0x3F) == x % 64
  {
    Pow2Small();
    AndLow(x, 6);
  }

  lemma NoWrap(x: nat)
    requires x < TWO_32
    ensures x % TWO_32 == x
  {
  }

  // What each assignment of the code leaves in x.

  lemma Line1(x: u32)
    ensures (x - And(Shr(x, 1), 0x5555_5555)) % TWO_32 == Pack(x, 4)
  {
    Shift1(x);
    Step1(x);
    NoWrap(Pack(x, 4));
  }

  lemma Line2(x: u32, y: nat)
    requires y == Pack(x, 4)
    ensures (And(y, 0x3333_3333) + And(Shr(y, 2), 0x3333_3333)) % TWO_32 == Pack(x, 16)
  {
    Shift2(y);
    Step2(x);
    NoWrap(Pack(x, 16));
  }

  lemma Line3(x: u32, y: nat)
    requires y == Pack(x, 16)
    ensures And((y + Shr(y, 4)) % TWO_32, 0x0F0F_0F0F) == Pack(x, 256)
  {
    Shift4(y);
    Step2(x);
    Sixteenth(y);
    NoWrap(y + Shr(y, 4));
    Step3(x);
  }

  lemma Sixteenth(y: nat)
    requires y <= 0x6666_6666
    ensures y + y / 16 < TWO_32
  {
  }

  /** av_popcount_c: x is rewritten in place, modulo 2^32, with the shifts, masks and order of the source. */
  method AvPopcount(x0: u32) returns (n: nat)
    ensures n == BitCount(x0) <= 32
  {
    var x: nat := x0;
    Line1(x0);
    x := (x - And(Shr(x, 1), 0x5555_5555)) % TWO_32;
    Line2(x0, x);
    x := (And(x, 0x3333_3333) + And(Shr(x, 2), 0x3333_3333)) % TWO_32;
    Line3(x0, x);
    x := And((x + Shr(x, 4)) % TWO_32, 0x0F0F_0F0F);
    AddedUp(x, (x + Shr(x, 8)) % TWO_32, x0);
    x := (x + Shr(x, 8)) % TWO_32;
    n := And((x + Shr(x, 16)) % TWO_32, 0x3F);
  }

  // ---------------------------------------------------------------- 64 bits and parity

  lemma Halved(x: nat, q: nat, b: nat)
    requires x == 2 * q + b
    ensures x / 2 == q + b / 2 && x % 2 == b % 2
  {
  }

  lemma OneBit(x: nat)
    ensures BitCount(x) == x % 2 + BitCount(x / 2)
  {
  }

  /** The bits of a number from position w up and those below are counted apart. */
  lemma {:induction false} CountHigh(x: nat, a: nat, b: nat, w: nat)
    requires b < Pow2(w) && x == a * Pow2(w) + b
    ensures BitCount(x) == BitCount(a) + BitCount(b)
    decreases w
  {
    if w > 0 {
      TwiceProduct(a, Pow2(w - 1));
      Halved(x, a * Pow2(w - 1), b);
      CountHigh(x / 2, a, b / 2, w - 1);
      OneBit(x);
      OneBit(b);
    } else {
      assert Pow2(0) == 1;
    }
  }

  lemma Halves(x: u64)
    ensures Shr(x, 32) % TWO_32 == x / TWO_32
    ensures BitCount(x) == BitCount(x / TWO_32) + BitCount(x % TWO_32)
  {
    Pow2Values();
    NoWrap(x / TWO_32);
    CountHigh(x, x / TWO_32, x % TWO_32, 32);
  }

  /** av_popcount64_c: the two halves counted apart. */
  method AvPopcount64(x: u64) returns (n: nat)
    ensures n == BitCount(x) <= 64
  {
    Halves(x);
    var low := AvPopcount(x % TWO_32);
    var high := AvPopcount(Shr(x, 32) % TWO_32);
    n := low + high;
  }

  /** av_parity_c. */
  method AvParity(v: u32) returns (p: nat)
    ensures p == BitCount(v) % 2
  {
    var n := AvPopcount(v);
    LowMasks(n);
    p := And(n, 1);
  }

  lemma XorCountDigit(a: nat, i: nat, b: nat, j: nat)
    requires i < 2 && j < 2
    requires BitCount(Xor(a, b)) + 2 * BitCount(And(a, b)) == BitCount(a) + BitCount(b)
    ensures BitCount(Xor(2 * a + i, 2 * b + j)) + 2 * BitCount(And(2 * a + i, 2 * b + j))
            == BitCount(2 * a + i) + BitCount(2 * b + j)
  {
    XorDigit(a, i, b, j);
    And2(a, i, b, j);
    AndOfBits(i, j);
    Count2(Xor(a, b), if i != j then 1 else 0);
    Count2(And(a, b), And(i, j));
    Count2(a, i);
    Count2(b, j);
  }

  lemma AndOfBits(i: nat, j: nat)
    requires i < 2 && j < 2
    ensures And(i, j) == if i == 1 && j == 1 then 1 else 0
  {
  }

  /** Where both words have a one, xor has two fewer than they have together. */
  lemma {:induction false} XorCount(a: nat, b: nat)
    ensures BitCount(Xor(a, b)) + 2 * BitCount(And(a, b)) == BitCount(a) + BitCount(b)
  {
    if a > 0 && b > 0 {
      XorCount(a / 2, b / 2);
      XorCountDigit(a / 2, a % 2, b / 2, b % 2);
    }
  }

  /** The parity of a xor is the xor of the parities. */
  lemma ParityOfXor(a: nat, b: nat)
    ensures BitCount(Xor(a, b)) % 2 == Xor(BitCount(a) % 2, BitCount(b) % 2)
  {
    XorCount(a, b);
    ParityOfSum(BitCount(Xor(a, b)), BitCount(And(a, b)), BitCount(a), BitCount(b));
    XorOfBits(BitCount(a) % 2, BitCount(b) % 2);
  }

  lemma ParityOfSum(x: nat, t: nat, a: nat, b: nat)
    requires x + 2 * t == a + b
    ensures x % 2 == if a % 2 == b % 2 then 0 else 1
  {
  }

  lemma XorOfBits(x: nat, y: nat)
    requires x < 2 && y < 2
    ensures Xor(x, y) == if x == y then 0 else 1
  {
  }
}
