/**
  PUT_UTF8 and GET_UTF8 of libavutil/common.h: UTF-8 in its original form, values
  below 2^31 in one to six bytes (section 2 of RFC 2279). The definition is
  arithmetic, digits to base 64; the writer and the reader are the shifts, masks and
  loops of the source, with the wrap-around of uint32_t written out.
  */
module Utf8 {
  import opened Options
  import opened Bits
  import opened IntMath

  const LIMIT: nat := 0x8000_0000

  type Ucs4 = v: int | 0 <= v < 0x8000_0000

  // ---------------------------------------------------------------- the definition in RFC 2279

  /** The number of octets, from the first column of the table. */
  function Length(v: nat): (n: nat)
    ensures 1 <= n <= 6
  {
    if v < 0x80 then 1 else if v < 0x800 then 2 else if v < 0x1_0000 then 3
    else if v < 0x20_0000 then 4 else if v < 0x400_0000 then 5 else 6
  }

  /** The fixed bits of the first octet, from the second column of the table. */
  function Mark(n: nat): nat
    requires 1 <= n <= 6
  {
    if n == 1 then 0x00 else if n == 2 then 0xC0 else if n == 3 then 0xE0
    else if n == 4 then 0xF0 else if n == 5 then 0xF8 else 0xFC
  }

  /** The value without its j lowest groups of six bits. */
  function Drop(v: nat, j: nat): nat {
    if j == 0 then v else Drop(v / 64, j - 1)
  }

  /** k further octets, filled from the lowest-order bits, which go into the last. */
  function Further(v: nat, k: nat): (bytes: seq<u8>)
    ensures |bytes| == k
  {
    if k == 0 then [] else Further(v / 64, k - 1) + [0x80 + v % 64]
  }

  function Lead(v: nat): nat {
    Mark(Length(v)) + Drop(v, Length(v) - 1)
  }

  /** The value bits of the first octet fit beside its fixed bits. */
  lemma LeadFits(v: nat)
    requires v < LIMIT
    ensures Lead(v) < 0xFE
    ensures Length(v) == 1 ==> Lead(v) == v
    ensures Length(v) >= 2 ==> Mark(Length(v)) <= Lead(v) && Drop(v, Length(v) - 1) < [0, 0, 32, 16, 8, 4, 2][Length(v)]
  {
    var n := Length(v);
    if n == 2 {
      assert Drop(v, 1) == v / 64;
    } else if n == 3 {
      assert Drop(v, 2) == Drop(v / 64, 1) == v / 64 / 64;
    } else if n == 4 {
      assert Drop(v, 3) == Drop(v / 64 / 64, 1) == v / 64 / 64 / 64;
    } else if n == 5 {
      assert Drop(v, 4) == Drop(v / 64 / 64, 2) == Drop(v / 64 / 64 / 64 / 64, 0);
    } else if n == 6 {
      assert Drop(v, 5) == Drop(v / 64 / 64, 3) == Drop(v / 64 / 64 / 64 / 64, 1) == v / 64 / 64 / 64 / 64 / 64;
    }
  }

  function Encode(v: Ucs4): (bytes: seq<u8>)
    ensures |bytes| == Length(v)
  {
    LeadFits(v);
    [Lead(v)] + Further(v, Length(v) - 1)
  }

  // ---------------------------------------------------------------- the writer

  lemma BytesFromLog2(v: nat, n: nat)
    requires 0x80 <= v < LIMIT && Pow2(n) <= v < Pow2(n + 1)
    ensures (n + 4) / 5 == Length(v)
  {
    Pow2Small();
    Pow2Values();
    Pow2Add(8, 3);
    Pow2Add(16, 5);
    Pow2Add(16, 8);
    Pow2Add(24, 2);
    OnlyBelow(v, n, 7);
    OnlyBelow(v, n, 11);
    OnlyBelow(v, n, 16);
    OnlyBelow(v, n, 21);
    OnlyBelow(v, n, 26);
    OnlyBelow(v, n, 31);
  }

  lemma OnlyBelow(v: nat, n: nat, k: nat)
    requires Pow2(n) <= v < Pow2(n + 1)
    ensures v < Pow2(k) <==> n < k
  {
    if n < k {
      Pow2Monotone(n + 1, k);
    } else {
      Pow2Monotone(k, n);
    }
  }

  lemma {:induction false} DropIsShr(v: nat, j: nat)
    ensures Shr(v, 6 * j) == Drop(v, j)
  {
    Pow2Small();
    if j > 0 {
      DropIsShr(v / 64, j - 1);
      ShrShr(v, 6, 6 * (j - 1));
      assert Shr(v, 6) == v / 64;
    }
  }

  /** Most significant first: the i-th further octet as the loop of the writer reaches it. */
  lemma {:induction false} FurtherAt(v: nat, k: nat, i: nat)
    requires i < k
    ensures Further(v, k)[i] == 0x80 + Drop(v, k - 1 - i) % 64
  {
    if i < k - 1 {
      FurtherAt(v / 64, k - 1, i);
    }
  }

  lemma MarkIsShifted(n: nat)
    requires 2 <= n <= 6
    ensures Pow2(n) >= 1 && Shr(256, n) <= 256
    ensures 256 - Shr(256, n) == (Pow2(n) - 1) * Pow2(8 - n) == Mark(n)
  {
    Pow2Small();
    assert n == 2 || n == 3 || n == 4 || n == 5 || n == 6;
  }

  lemma FirstOctet(v: nat, n: nat)
    requires 0x80 <= v < LIMIT && n == Length(v)
    ensures Shr(256, n) <= 256
    ensures Or(256 - Shr(256, n), Shr(v, 6 * (n - 1))) == Encode(v)[0]
  {
    LeadFits(v);
    MarkIsShifted(n);
    DropIsShr(v, n - 1);
    BesideMark(Drop(v, n - 1), n);
    OrDisjoint(Pow2(n) - 1, Drop(v, n - 1), 8 - n);
  }

  lemma BesideMark(d: nat, n: nat)
    requires 2 <= n <= 6 && d < [0, 0, 32, 16, 8, 4, 2][n]
    ensures d < Pow2(8 - n)
  {
    Pow2Small();
    assert n == 2 || n == 3 || n == 4 || n == 5 || n == 6;
  }

  lemma OctetOfGroup(x: nat)
    ensures Or(0x80, And(x, 0x3F)) == 0x80 + x % 64
  {
    Pow2Small();
    AndLow(x, 6);
    OrDisjoint(2, x % 64, 6);
  }

  lemma NextOctet(v: nat, i: nat)
    requires v < LIMIT && 1 <= i < Length(v)
    ensures Or(0x80, And(Shr(v, 6 * (Length(v) - 1 - i)), 0x3F)) == Encode(v)[i]
  {
    var j := Length(v) - 1 - i;
    OctetOfGroup(Shr(v, 6 * j));
    FurtherAt(v, Length(v) - 1, i - 1);
    DropIsShr(v, j);
  }

  /** PUT_UTF8, appending where PUT_BYTE writes. */
  method PutUtf8(val: Ucs4) returns (out: seq<u8>)
    ensures out == Encode(val)
  {
    out := [];
    if val < 0x80 {
      out := out + [val];
    } else {
      var log := Log2(val);
      var bytes := (log + 4) / 5;
      BytesFromLog2(val, log);
      var shift := (bytes - 1) * 6;
      FirstOctet(val, bytes);
      out := out + [Or(256 - Shr(256, bytes), Shr(val, shift))];
      while shift >= 6
        invariant 0 <= shift == 6 * (bytes - |out|)
        invariant |out| >= 1 && out == Encode(val)[..|out|]
      {
        shift := shift - 6;
        NextOctet(val, |out|);
        out := out + [Or(0x80, And(Shr(val, shift), 0x3F))];
      }
    }
  }

  // ---------------------------------------------------------------- what the reader accepts

  /** A value and the position after its last octet. */
  datatype Decoded = Decoded(value: nat, next: nat)

  /** GET_BYTE over a buffer, in the form that keeps returning 0 at the end. */
  function ByteAt(input: seq<u8>, i: nat): u8 {
    if i < |input| then input[i] else 0
  }

  predicate IsFurther(b: u8) {
    0x80 <= b < 0xC0
  }

  /** How many further octets a first octet announces. */
  function Announced(b: u8): (n: nat)
    ensures n <= 5
  {
    if b < 0x80 then 0 else if b < 0xE0 then 1 else if b < 0xF0 then 2
    else if b < 0xF8 then 3 else if b < 0xFC then 4 else 5
  }

  predicate AllFurther(input: seq<u8>, i: nat, k: nat) {
    forall j :: i <= j < i + k ==> IsFurther(ByteAt(input, j))
  }

  /** The value of k digits to base 64 after a leading number. */
  function Digits(lead: nat, input: seq<u8>, i: nat, k: nat): nat
    requires AllFurther(input, i, k)
  {
    if k == 0 then lead else 64 * Digits(lead, input, i, k - 1) + (ByteAt(input, i + k - 1) - 0x80)
  }

  function Parse(input: seq<u8>, pos: nat): (r: Option<Decoded>)
    requires pos < |input|
    ensures r.Some? ==> pos < r.value.next <= |input|
  {
    var b := input[pos];
    var n := Announced(b);
    if IsFurther(b) || b >= 0xFE || !AllFurther(input, pos + 1, n) then None
    else
      assert n > 0 ==> IsFurther(ByteAt(input, pos + n));
      Some(Decoded(Digits(b - Mark(n + 1), input, pos + 1, n), pos + 1 + n))
  }

  // ---------------------------------------------------------------- the reader

  /** After k further octets top has been shifted k times by five. */
  function Top(k: nat): u32 {
    if k == 0 then 64 else Shl32(Top(k - 1), 5)
  }

  lemma {:induction false} DigitsSplit(lead: nat, input: seq<u8>, i: nat, k: nat)
    requires AllFurther(input, i, k)
    ensures Digits(lead, input, i, k) == lead * Pow2(6 * k) + Digits(0, input, i, k)
    ensures Digits(0, input, i, k) < Pow2(6 * k)
  {
    if k > 0 {
      DigitsSplit(lead, input, i, k - 1);
      Pow2Add(6 * (k - 1), 6);
      Pow2Small();
      var p := Pow2(6 * (k - 1));
      assert lead * (p * 64) == 64 * (lead * p);
    }
  }

  lemma {:induction false} TopIs(k: nat)
    requires k <= 5
    ensures Top(k) == Pow2(6 + 5 * k)
  {
    if k > 0 {
      TopIs(k - 1);
      Pow2Small();
      Pow2Add(6 + 5 * (k - 1), 5);
      Pow2Values();
      Pow2Monotone(6 + 5 * k, 31);
      ShiftedTop(Top(k - 1), Pow2(6 + 5 * k));
    } else {
      Pow2Small();
    }
  }

  lemma ShiftedTop(top: u32, p: nat)
    requires p == 32 * top && p <= 0x8000_0000
    ensures Shl32(top, 5) == p
  {
    Pow2Small();
  }

  lemma Distribute(q: nat, c: nat, w: nat, u: nat)
    ensures (q * c + w) * u == q * (c * u) + w * u
  {
    assert q * c * u == q * (c * u);
  }

  /** Wrapping at 32 bits keeps the low part of a number and the low digits of its high part. */
  lemma Wrapped(m: nat, u: nat, rest: nat, c: nat)
    requires rest < u && u * c == TWO_32 && c > 0
    ensures (m * u + rest) % TWO_32 / u == m % c && (m * u + rest) % TWO_32 % u == rest
  {
    var q, w := m / c, m % c;
    Distribute(q, c, w, u);
    assert c * u == TWO_32;
    assert m * u + rest == TWO_32 * q + (w * u + rest);
    MulLeq(w + 1, c, u);
    assert (w + 1) * u == w * u + u;
    DivUnique(m * u + rest, TWO_32, q, w * u + rest);
    DivUnique(w * u + rest, u, w, rest);
  }

  /** Splitting the leading number of some digits splits the whole number. */
  lemma Spread(b: nat, s: nat, p: nat, t: nat)
    requires s > 0 && t < p
    ensures b * p + t == (b / s) * (s * p) + (b % s * p + t)
    ensures b % s * p + t < s * p
  {
    var q, r := b / s, b % s;
    Distribute(q, s, r, p);
    MulLeq(r + 1, s, p);
    assert (r + 1) * p == r * p + p;
  }

  lemma SpreadWrapped(b: nat, s: nat, p: nat, t: nat, c: nat)
    requires s > 0 && c > 0 && t < p && (s * p) * c == TWO_32
    ensures s * p > 0
    ensures (b * p + t) % TWO_32 / (s * p) == b / s % c && (b * p + t) % TWO_32 % (s * p) == b % s * p + t
  {
    Spread(b, s, p, t);
    var m, u, rest := b / s, s * p, b % s * p + t;
    Wrapped(m, u, rest, c);
    assert b * p + t == m * u + rest;
  }

  /** What k further octets and wrapping leave of the first octet, above and below its j-th bit. */
  lemma FirstOctetBits(b: u8, t: nat, k: nat, j: nat)
    requires t < Pow2(6 * k) && j + 6 * k <= 32
    ensures (b * Pow2(6 * k) + t) % TWO_32 / Pow2(j + 6 * k) == b / Pow2(j) % Pow2(32 - (j + 6 * k))
    ensures (b * Pow2(6 * k) + t) % TWO_32 % Pow2(j + 6 * k) == b % Pow2(j) * Pow2(6 * k) + t
  {
    Pow2Add(j, 6 * k);
    Pow2Add(j + 6 * k, 32 - (j + 6 * k));
    Pow2Values();
    SpreadWrapped(b, Pow2(j), Pow2(6 * k), t, Pow2(32 - (j + 6 * k)));
  }

  lemma ParityOfMod(m: nat, p: nat)
    requires p > 0
    ensures m % (2 * p) % 2 == m % 2
  {
    DivMul(m, p);
  }

  lemma AnnouncingTable(b: u8, k: nat)
    requires 0xC0 <= b < 0xFE && k <= Announced(b)
    ensures b / Pow2(6 - k) % 2 == 1 <==> k < Announced(b)
    ensures k == Announced(b) ==> b >= Mark(k + 1) && b % Pow2(7 - k) == b - Mark(k + 1)
  {
    Pow2Small();
    assert k == 0 || k == 1 || k == 2 || k == 3 || k == 4 || k == 5;
  }

  lemma TestTop(val: nat, k: nat)
    requires k <= 5
    ensures And(val, Top(k)) != 0 <==> Shr(val, 6 + 5 * k) % 2 == 1
  {
    TopIs(k);
    AndBit(val, 6 + 5 * k);
    BitIsQuotient(val, 6 + 5 * k);
  }

  lemma BitParity(b: u8, t: nat, k: nat)
    requires k <= 5 && t < Pow2(6 * k)
    ensures Shr((b * Pow2(6 * k) + t) % TWO_32, 6 + 5 * k) % 2 == b / Pow2(6 - k) % 2
  {
    FirstOctetHigh(b, t, k, 6 - k, 6 + 5 * k);
    ParityAbove(b / Pow2(6 - k), 26 - 5 * k);
  }

  lemma FirstOctetHigh(b: u8, t: nat, k: nat, j: nat, n: nat)
    requires t < Pow2(6 * k) && j + 6 * k == n <= 32
    ensures Shr((b * Pow2(6 * k) + t) % TWO_32, n) == b / Pow2(j) % Pow2(32 - n)
  {
    FirstOctetBits(b, t, k, j);
  }

  lemma ParityAbove(m: nat, w: nat)
    requires w > 0
    ensures m % Pow2(w) % 2 == m % 2
  {
    ParityOfMod(m, Pow2(w - 1));
  }

  /** Adding lower digits and wrapping does not disturb the announcing bits of the first octet. */
  lemma AnnouncingBit(b: u8, t: nat, k: nat)
    requires 0xC0 <= b < 0xFE && k <= Announced(b) && t < Pow2(6 * k)
    ensures And((b * Pow2(6 * k) + t) % TWO_32, Top(k)) != 0 <==> k < Announced(b)
  {
    TestTop((b * Pow2(6 * k) + t) % TWO_32, k);
    BitParity(b, t, k);
    AnnouncingTable(b, k);
  }

  function LastMask(top: u32): u32 {
    (Shl32(top, 1) + TWO_32 - 1) % TWO_32
  }

  lemma LastMaskIs(k: nat)
    requires k <= 5
    ensures LastMask(Top(k)) == Pow2(7 + 5 * k) - 1
  {
    TopIs(k);
    DoubleWraps(Top(k), 6 + 5 * k);
  }

  lemma DoubleWraps(top: u32, n: nat)
    requires n <= 31 && top == Pow2(n)
    ensures LastMask(top) == Pow2(n + 1) - 1
  {
    Pow2Of32();
    Pow2Monotone(n + 1, 32);
    DoubledLessOne(top, Pow2(n + 1));
  }

  lemma DoubledLessOne(top: u32, d: nat)
    requires 0 < d <= TWO_32 && d == 2 * top
    ensures LastMask(top) == d - 1
  {
    assert Pow2(1) == 2 * Pow2(0) == 2;
    assert Shl32(top, 1) == d % TWO_32;
  }

  /** The last mask removes the fixed bits of the first octet and nothing else. */
  lemma MaskLeavesValue(b: u8, t: nat, k: nat)
    requires 0xC0 <= b < 0xFE && k == Announced(b) && t < Pow2(6 * k)
    ensures b >= Mark(k + 1)
    ensures And((b * Pow2(6 * k) + t) % TWO_32, LastMask(Top(k))) == (b - Mark(k + 1)) * Pow2(6 * k) + t
  {
    LastMaskIs(k);
    AndLow((b * Pow2(6 * k) + t) % TWO_32, 7 + 5 * k);
    FirstOctetBits(b, t, k, 7 - k);
    AnnouncingTable(b, k);
  }

  lemma FirstTests(b: u8)
    ensures Shr(And(b, 128), 1) == if b >= 0x80 then Top(0) else 0
    ensures And(b, 0xC0) == 0x80 <==> IsFurther(b)
  {
    Pow2Small();
    AndBit(b, 7);
    TopBit(b, 7);
    AndHigh(b, 6, 8);
  }

  lemma FurtherTest(b: u8)
    ensures
      var tmp := (b - 128 + TWO_32) % TWO_32;
      && (Shr(tmp, 6) == 0 <==> IsFurther(b))
      && (IsFurther(b) ==> tmp == b - 0x80)
  {
    Pow2Small();
  }

  lemma NextDigit(d: nat, t: nat)
    ensures (Shl32(d % TWO_32, 6) + t) % TWO_32 == (64 * d + t) % TWO_32
  {
    Pow2Small();
  }

  /** The loop goes on as long as octets are announced, whatever the digits read so far. */
  lemma LoopTest(input: seq<u8>, pos: nat, k: nat)
    requires pos < |input| && k <= Announced(input[pos]) && AllFurther(input, pos + 1, k)
    requires !IsFurther(input[pos]) && input[pos] < 0xFE
    ensures
      var top := if input[pos] < 0x80 then 0 else Top(k);
      And(Digits(input[pos], input, pos + 1, k) % TWO_32, top) != 0 <==> k < Announced(input[pos])
  {
    var b := input[pos];
    if b < 0x80 {
      AndZero(Digits(b, input, pos + 1, k) % TWO_32);
    } else {
      DigitsSplit(b, input, pos + 1, k);
      AnnouncingBit(b, Digits(0, input, pos + 1, k), k);
    }
  }

  lemma LastStep(b: u8, input: seq<u8>, i: nat, k: nat)
    requires 0xC0 <= b < 0xFE && k == Announced(b) && AllFurther(input, i, k)
    ensures b >= Mark(k + 1)
    ensures And(Digits(b, input, i, k) % TWO_32, LastMask(Top(k))) == Digits(b - Mark(k + 1), input, i, k)
  {
    AnnouncingTable(b, k);
    DigitsSplit(b, input, i, k);
    DigitsSplit(b - Mark(k + 1), input, i, k);
    MaskLeavesValue(b, Digits(0, input, i, k), k);
  }

  /** The state of the reader after k further octets. */
  ghost predicate ReadTo(input: seq<u8>, pos: nat, k: nat, val: nat, top: u32)
    requires pos < |input|
  {
    var b := input[pos];
    && !IsFurther(b) && b < 0xFE && k <= Announced(b) && AllFurther(input, pos + 1, k)
    && val == Digits(b, input, pos + 1, k) % TWO_32
    && top == (if b < 0x80 then 0 else Top(k))
    && (And(val, top) != 0 <==> k < Announced(b))
  }

  lemma Begins(input: seq<u8>, pos: nat)
    requires pos < |input|
    ensures
      var b := input[pos];
      if And(b, 0xC0) == 0x80 || b >= 0xFE then Parse(input, pos) == None
      else Shr(And(b, 128), 1) < TWO_32 && ReadTo(input, pos, 0, b, Shr(And(b, 128), 1))
  {
    FirstTests(input[pos]);
    if !IsFurther(input[pos]) && input[pos] < 0xFE {
      LoopTest(input, pos, 0);
    }
  }

  /** What one turn of the loop does with the octet it reads. */
  lemma OctetRead(input: seq<u8>, pos: nat, k: nat, val: nat, top: u32)
    requires pos < |input| && ReadTo(input, pos, k, val, top) && k < Announced(input[pos])
    ensures
      var tmp := (ByteAt(input, pos + 1 + k) - 128 + TWO_32) % TWO_32;
      if Shr(tmp, 6) != 0 then Parse(input, pos) == None
      else ReadTo(input, pos, k + 1, (Shl32(val, 6) + tmp) % TWO_32, Shl32(top, 5))
  {
    var b := ByteAt(input, pos + 1 + k);
    FurtherTest(b);
    if IsFurther(b) {
      NextDigit(Digits(input[pos], input, pos + 1, k), b - 0x80);
      LoopTest(input, pos, k + 1);
    }
  }

  lemma FinishOne(b: u8, input: seq<u8>, i: nat, val: nat)
    requires b < 0x80 && val == b
    ensures And(val, LastMask(0)) == Digits(b - Mark(1), input, i, 0)
  {
    AllOnes(val);
  }

  lemma Finish(b: u8, input: seq<u8>, i: nat, k: nat, val: nat, top: u32)
    requires !IsFurther(b) && b < 0xFE && k == Announced(b) && AllFurther(input, i, k)
    requires val == Digits(b, input, i, k) % TWO_32 && top == if b < 0x80 then 0 else Top(k)
    ensures b >= Mark(k + 1)
    ensures And(val, LastMask(top)) == Digits(b - Mark(k + 1), input, i, k)
  {
    if b < 0x80 {
      FinishOne(b, input, i, val);
    } else {
      LastStep(b, input, i, k);
    }
  }

  lemma Ends(input: seq<u8>, pos: nat, k: nat, val: nat, top: u32)
    requires pos < |input| && ReadTo(input, pos, k, val, top) && k == Announced(input[pos])
    ensures Parse(input, pos) == Some(Decoded(And(val, LastMask(top)), pos + 1 + k))
  {
    Finish(input[pos], input, pos + 1, k, val, top);
  }

  /** GET_UTF8 with GET_BYTE reading from a buffer; None where ERROR is run. */
  method GetUtf8(input: seq<u8>, pos: nat) returns (r: Option<Decoded>)
    requires pos < |input|
    ensures r == Parse(input, pos)
  {
    var val: nat := input[pos];
    var next := pos + 1;
    var top: nat := Shr(And(val, 128), 1);
    Begins(input, pos);
    if And(val, 0xC0) == 0x80 || val >= 0xFE {
      return None;
    }
    ghost var k := 0;
    while And(val, top) != 0
      invariant next == pos + 1 + k && top < TWO_32 && ReadTo(input, pos, k, val, top)
      decreases Announced(input[pos]) - k
    {
      OctetRead(input, pos, k, val, top);
      var tmp := (ByteAt(input, next) - 128 + TWO_32) % TWO_32;
      next := next + 1;
      if Shr(tmp, 6) != 0 {
        return None;
      }
      val := (Shl32(val, 6) + tmp) % TWO_32;
      top := Shl32(top, 5);
      k := k + 1;
    }
    Ends(input, pos, k, val, top);
    val := And(val, (Shl32(top, 1) + TWO_32 - 1) % TWO_32);
    return Some(Decoded(val, next));
  }

  lemma AndZero(x: nat)
    ensures And(x, 0) == 0
  {
  }

  lemma AllOnes(x: u32)
    ensures And(x, LastMask(0)) == x
  {
    assert LastMask(0) == 0xFFFF_FFFF;
    AndOnes(x);
  }

  lemma AndOnes(x: u32)
    ensures And(x, 0xFFFF_FFFF) == x
  {
    Pow2Values();
    AndLow(x, 32);
  }
}
