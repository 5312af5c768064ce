/**
  PUT_UTF16 and GET_UTF16 of libavutil/common.h against sections 2.1 and 2.2 of
  RFC 2781: the definition is arithmetic to base 1024, the code is shifts and masks
  on 32-bit words cut to 16 bits.
  */
module Utf16 {
  import opened Options
  import opened Bits
  import opened IntMath
  import opened Utf8

  /** A Unicode scalar value: no surrogate, at most 0x10FFFF. */
  predicate IsScalar(v: nat) {
    v < 0xD800 || 0xE000 <= v <= 0x10_FFFF
  }

  type Scalar = v: int | 0 <= v < 0xD800 || 0xE000 <= v <= 0x10_FFFF

  function Encode16(v: nat): (units: seq<u16>)
    requires v <= 0x10_FFFF
    ensures |units| == if v < 0x1_0000 then 1 else 2
  {
    if v < 0x1_0000 then [v] else [0xD800 + (v - 0x1_0000) / 1024, 0xDC00 + v % 1024]
  }

  /** What the writer puts out for any word; above 0x10FFFF the first unit is cut to 16 bits. */
  function Written(v: u32): seq<u16> {
    if v <= 0x10_FFFF then Encode16(v)
    else [Or(0xD800, (v - 0x1_0000) / 1024) % 0x1_0000, 0xDC00 + v % 1024]
  }

  lemma Pow2Ten()
    ensures Pow2(10) == 1024
  {
    Pow2Small();
    Pow2Add(8, 2);
  }

  lemma HighUnit(x: nat)
    ensures Shr(x, 10) == x / 1024
    ensures x < 0x10_0000 ==> Or(0xD800, x / 1024) == 0xD800 + x / 1024
  {
    Pow2Ten();
    if x < 0x10_0000 {
      OrDisjoint(0x36, x / 1024, 10);
    }
  }

  lemma LowUnit(x: nat)
    ensures Or(0xDC00, And(x, 0x3FF)) == 0xDC00 + x % 1024
  {
    Pow2Ten();
    AndLow(x, 10);
    OrDisjoint(0x37, x % 1024, 10);
  }

  lemma FirstUnit(v: u32)
    requires v >= 0x1_0000
    ensures Or(0xD800, Shr(v - 0x1_0000, 10)) % 0x1_0000 == Written(v)[0]
  {
    var x := v - 0x1_0000;
    HighUnit(x);
    if v <= 0x10_FFFF {
      CutNothing(0xD800 + x / 1024);
    }
  }

  lemma CutNothing(x: nat)
    requires x < 0x1_0000
    ensures x % 0x1_0000 == x
  {
  }

  lemma LowDigit(v: nat)
    requires v >= 0x1_0000
    ensures (v - 0x1_0000) % 1024 == v % 1024
  {
  }

  lemma SecondUnit(v: u32)
    requires v >= 0x1_0000
    ensures Or(0xDC00, And(v - 0x1_0000, 0x3FF)) % 0x1_0000 == Written(v)[1]
  {
    LowUnit(v - 0x1_0000);
    LowDigit(v);
    CutNothing(0xDC00 + v % 1024);
  }

  /** PUT_UTF16, appending where PUT_16BIT writes. */
  method PutUtf16(val: u32) returns (out: seq<u16>)
    ensures out == Written(val)
  {
    out := [];
    if val < 0x1_0000 {
      out := out + [val];
    } else {
      FirstUnit(val);
      SecondUnit(val);
      var tmp := Or(0xD800, Shr(val - 0x1_0000, 10)) % 0x1_0000;
      out := out + [tmp];
      tmp := Or(0xDC00, And(val - 0x1_0000, 0x3FF)) % 0x1_0000;
      out := out + [tmp];
    }
  }

  /** GET_16BIT over a buffer, in the form that keeps returning 0 at the end. */
  function UnitAt(input: seq<u16>, i: nat): u16 {
    if i < |input| then input[i] else 0
  }

  predicate IsHigh(u: u16) {
    0xD800 <= u < 0xDC00
  }

  predicate IsLow(u: u16) {
    0xDC00 <= u < 0xE000
  }

  function Parse16(input: seq<u16>, pos: nat): (r: Option<Decoded>)
    requires pos < |input|
    ensures r.Some? ==> pos < r.value.next <= |input| && IsScalar(r.value.value)
  {
    var u, w := input[pos], UnitAt(input, pos + 1);
    if !IsHigh(u) && !IsLow(u) then Some(Decoded(u, pos + 1))
    else if IsHigh(u) && IsLow(w) then Some(Decoded(0x1_0000 + (u - 0xD800) * 1024 + (w - 0xDC00), pos + 2))
    else None
  }

  /** GET_UTF16 with GET_16BIT reading from a buffer; None where ERROR is run. */
  method GetUtf16(input: seq<u16>, pos: nat) returns (r: Option<Decoded>)
    requires pos < |input|
    ensures r == Parse16(input, pos)
  {
    Pow2Ten();
    var val := input[pos];
    var next := pos + 1;
    var hi := (val - 0xD800 + TWO_32) % TWO_32;
    if hi < 0x800 {
      var low := (UnitAt(input, next) - 0xDC00 + TWO_32) % TWO_32;
      next := next + 1;
      if low > 0x3FF || hi > 0x3FF {
        return None;
      }
      return Some(Decoded((low + Shl32(hi, 10) + 0x1_0000) % TWO_32, next));
    }
    return Some(Decoded(val, next));
  }
}
