/**
  What the UTF-8 reader and writer are to each other: inverse on every stream of
  values, and the writer the shortest of all forms the reader accepts.
  */
module Utf8Laws {
  import opened Options
  import opened Bits
  import opened IntMath
  import opened Utf8

  // ---------------------------------------------------------------- one value

  lemma {:induction false} DigitsOfFurther(v: nat, k: nat, input: seq<u8>, i: nat)
    requires i + k <= |input| && input[i..i + k] == Further(v, k)
    ensures AllFurther(input, i, k)
    ensures Digits(Drop(v, k), input, i, k) == v
  {
    if k > 0 {
      var last := Further(v, k)[k - 1];
      assert input[i..i + (k - 1)] == Further(v, k)[..k - 1] == Further(v / 64, k - 1);
      DigitsOfFurther(v / 64, k - 1, input, i);
      assert ByteAt(input, i + k - 1) == input[i..i + k][k - 1] == last == 0x80 + v % 64;
    }
  }

  lemma LeadAnnounces(v: Ucs4)
    ensures Announced(Encode(v)[0]) == Length(v) - 1
    ensures !IsFurther(Encode(v)[0]) && Encode(v)[0] < 0xFE
    ensures Encode(v)[0] - Mark(Length(v)) == Drop(v, Length(v) - 1)
  {
    LeadFits(v);
  }

  /** Reading what was written gives the value back and stops exactly behind it, whatever comes next. */
  lemma RoundTripAt(input: seq<u8>, pos: nat, v: Ucs4)
    requires pos + Length(v) <= |input| && input[pos..pos + Length(v)] == Encode(v)
    ensures Parse(input, pos) == Some(Decoded(v, pos + Length(v)))
  {
    var n := Length(v);
    LeadAnnounces(v);
    assert input[pos] == input[pos..pos + n][0] == Encode(v)[0];
    assert input[pos + 1..pos + 1 + (n - 1)] == Encode(v)[1..] == Further(v, n - 1);
    DigitsOfFurther(v, n - 1, input, pos + 1);
  }

  lemma EncodeParts(v: Ucs4, n: nat)
    requires n == Length(v)
    ensures Encode(v) == [Mark(n) + Drop(v, n - 1)] + Further(v, n - 1)
  {
  }

  /** The table of RFC 2279, row by row. */
  lemma EncodeTable(v: Ucs4)
    ensures v < 0x80 ==> Encode(v) == [v]
    ensures 0x80 <= v < 0x800 ==> Encode(v) == [0xC0 + v / 64, 0x80 + v % 64]
    ensures 0x800 <= v < 0x1_0000 ==>
              Encode(v) == [0xE0 + v / 64 / 64, 0x80 + v / 64 % 64, 0x80 + v % 64]
    ensures 0x1_0000 <= v < 0x20_0000 ==>
              Encode(v) == [0xF0 + v / 64 / 64 / 64, 0x80 + v / 64 / 64 % 64, 0x80 + v / 64 % 64, 0x80 + v % 64]
    ensures 0x20_0000 <= v < 0x400_0000 ==>
              Encode(v) == [0xF8 + v / 64 / 64 / 64 / 64, 0x80 + v / 64 / 64 / 64 % 64, 0x80 + v / 64 / 64 % 64,
                            0x80 + v / 64 % 64, 0x80 + v % 64]
    ensures 0x400_0000 <= v ==>
              Encode(v) == [0xFC + v / 64 / 64 / 64 / 64 / 64, 0x80 + v / 64 / 64 / 64 / 64 % 64, 0x80 + v / 64 / 64 / 64 % 64,
                            0x80 + v / 64 / 64 % 64, 0x80 + v / 64 % 64, 0x80 + v % 64]
  {
    EncodeParts(v, Length(v));
    Dropped(v);
    FurtherTable(v);
  }

  lemma Dropped(v: nat)
    ensures Drop(v, 0) == v && Drop(v, 1) == v / 64 && Drop(v, 2) == v / 64 / 64 && Drop(v, 3) == v / 64 / 64 / 64
    ensures Drop(v, 4) == v / 64 / 64 / 64 / 64 && Drop(v, 5) == v / 64 / 64 / 64 / 64 / 64
  {
    assert Drop(v, 3) == Drop(v / 64 / 64, 1);
    assert Drop(v, 4) == Drop(v / 64 / 64, 2);
    assert Drop(v, 5) == Drop(v / 64 / 64, 3) == Drop(v / 64 / 64 / 64 / 64, 1);
  }

  lemma FurtherTable(v: nat)
    ensures Further(v, 0) == [] && Further(v, 1) == [0x80 + v % 64]
    ensures Further(v, 2) == [0x80 + v / 64 % 64, 0x80 + v % 64]
    ensures Further(v, 3) == [0x80 + v / 64 / 64 % 64, 0x80 + v / 64 % 64, 0x80 + v % 64]
    ensures Further(v, 4) == [0x80 + v / 64 / 64 / 64 % 64, 0x80 + v / 64 / 64 % 64, 0x80 + v / 64 % 64, 0x80 + v % 64]
    ensures Further(v, 5) == [0x80 + v / 64 / 64 / 64 / 64 % 64, 0x80 + v / 64 / 64 / 64 % 64, 0x80 + v / 64 / 64 % 64,
                              0x80 + v / 64 % 64, 0x80 + v % 64]
  {
    OneFurther(v, 1);
    OneFurther(v, 2);
    OneFurther(v / 64, 1);
    OneFurther(v, 3);
    OneFurther(v / 64, 2);
    OneFurther(v / 64 / 64, 1);
    OneFurther(v, 4);
    OneFurther(v / 64, 3);
    OneFurther(v / 64 / 64, 2);
    OneFurther(v / 64 / 64 / 64, 1);
    OneFurther(v, 5);
    OneFurther(v / 64, 4);
    OneFurther(v / 64 / 64, 3);
    OneFurther(v / 64 / 64 / 64, 2);
    OneFurther(v / 64 / 64 / 64 / 64, 1);
  }

  lemma OneFurther(v: nat, k: nat)
    requires k > 0
    ensures Further(v, k) == Further(v / 64, k - 1) + [0x80 + v % 64]
  {
  }

  // ---------------------------------------------------------------- streams

  function EncodeAll(vs: seq<Ucs4>): seq<u8> {
    if vs == [] then [] else Encode(vs[0]) + EncodeAll(vs[1..])
  }

  function Prepend<T>(front: seq<T>, r: Option<seq<T>>): Option<seq<T>> {
    match r
    case None => None
    case Some(rest) => Some(front + rest)
  }

  lemma PrependTwice<T>(a: seq<T>, b: seq<T>, r: Option<seq<T>>)
    ensures Prepend(a, Prepend(b, r)) == Prepend(a + b, r)
    ensures Prepend([], r) == r
  {
    if r.Some? {
      assert a + (b + r.value) == (a + b) + r.value;
      assert [] + r.value == r.value;
    }
  }

  /** The reader run again and again from pos to the end of the buffer. */
  function DecodeAll(input: seq<u8>, pos: nat): Option<seq<nat>>
    requires pos <= |input|
    decreases |input| - pos
  {
    if pos == |input| then Some([])
    else
      match Parse(input, pos)
      case None => None
      case Some(d) => Prepend([d.value], DecodeAll(input, d.next))
  }

  lemma SplitSlice<T>(input: seq<T>, pos: nat, a: seq<T>, b: seq<T>)
    requires pos <= |input| && input[pos..] == a + b
    ensures pos + |a| <= |input| && input[pos..pos + |a|] == a && input[pos + |a|..] == b
  {
    assert input[pos..pos + |a|] == input[pos..][..|a|];
    assert input[pos + |a|..] == input[pos..][|a|..];
  }

  lemma {:induction false} StreamRoundTripAt(input: seq<u8>, pos: nat, vs: seq<Ucs4>)
    requires pos <= |input| && input[pos..] == EncodeAll(vs)
    ensures DecodeAll(input, pos) == Some(vs)
    decreases |vs|
  {
    if vs == [] {
      assert |input[pos..]| == 0;
    } else {
      SplitSlice(input, pos, Encode(vs[0]), EncodeAll(vs[1..]));
      RoundTripAt(input, pos, vs[0]);
      StreamRoundTripAt(input, pos + Length(vs[0]), vs[1..]);
      assert vs == [vs[0]] + vs[1..];
    }
  }

  /** Any sequence of values below 2^31 survives being written and read as a stream. */
  lemma StreamRoundTrip(vs: seq<Ucs4>)
    ensures DecodeAll(EncodeAll(vs), 0) == Some(vs)
  {
    assert EncodeAll(vs)[0..] == EncodeAll(vs);
    StreamRoundTripAt(EncodeAll(vs), 0, vs);
  }

  /** An octet sequence that is accepted nowhere makes the whole stream fail, whatever was read before it. */
  lemma {:induction false} IllFormedFails(input: seq<u8>, pos: nat, vs: seq<Ucs4>, rest: seq<u8>)
    requires pos <= |input| && input[pos..] == EncodeAll(vs) + rest
    requires rest != [] && Parse(rest, 0).None?
    ensures DecodeAll(input, pos) == None
    decreases |vs|
  {
    if vs == [] {
      assert input[pos..] == rest;
      ParseHere(input, pos, rest);
    } else {
      assert EncodeAll(vs) + rest == Encode(vs[0]) + (EncodeAll(vs[1..]) + rest);
      SplitSlice(input, pos, Encode(vs[0]), EncodeAll(vs[1..]) + rest);
      RoundTripAt(input, pos, vs[0]);
      IllFormedFails(input, pos + Length(vs[0]), vs[1..], rest);
    }
  }

  /** Whether something is accepted depends on what comes from there on only. */
  lemma ParseHere(input: seq<u8>, pos: nat, rest: seq<u8>)
    requires pos < |input| && input[pos..] == rest
    ensures Parse(input, pos).None? <==> Parse(rest, 0).None?
  {
    forall j: nat
      ensures ByteAt(input, pos + j) == ByteAt(rest, j)
    {
      if pos + j < |input| {
        assert input[pos + j] == input[pos..][j];
      }
    }
    FurtherHere(input, pos, rest, Announced(input[pos]));
  }

  lemma FurtherHere(input: seq<u8>, pos: nat, rest: seq<u8>, n: nat)
    requires forall j: nat :: ByteAt(input, pos + j) == ByteAt(rest, j)
    ensures AllFurther(input, pos + 1, n) <==> AllFurther(rest, 1, n)
  {
    forall j | 1 <= j < 1 + n
      ensures ByteAt(input, pos + j) == ByteAt(rest, j)
    {
    }
    if AllFurther(rest, 1, n) {
      forall j | pos + 1 <= j < pos + 1 + n
        ensures IsFurther(ByteAt(input, j))
      {
        assert ByteAt(input, pos + (j - pos)) == ByteAt(rest, j - pos);
      }
    }
  }

  /** No encoding begins with another one. */
  lemma PrefixFree(v: Ucs4, w: Ucs4)
    requires Encode(v) <= Encode(w)
    ensures v == w
  {
    RoundTripAt(Encode(w), 0, w);
    RoundTripAt(Encode(w), 0, v);
  }

  method EncodeStream(vs: seq<Ucs4>) returns (out: seq<u8>)
    ensures out == EncodeAll(vs)
  {
    out := [];
    var i := 0;
    while i < |vs|
      invariant 0 <= i <= |vs|
      invariant out + EncodeAll(vs[i..]) == EncodeAll(vs)
    {
      var bytes := PutUtf8(vs[i]);
      assert vs[i..][1..] == vs[i + 1..];
      out := out + bytes;
      i := i + 1;
    }
  }

  method DecodeStream(input: seq<u8>) returns (r: Option<seq<nat>>)
    ensures r == DecodeAll(input, 0)
  {
    var vs: seq<nat> := [];
    var pos := 0;
    PrependTwice(vs, vs, DecodeAll(input, 0));
    while pos < |input|
      invariant pos <= |input|
      invariant DecodeAll(input, 0) == Prepend(vs, DecodeAll(input, pos))
      decreases |input| - pos
    {
      var d := GetUtf8(input, pos);
      if d.None? {
        return None;
      }
      PrependTwice(vs, [d.value.value], DecodeAll(input, d.value.next));
      vs := vs + [d.value.value];
      pos := d.value.next;
    }
    assert vs + [] == vs;
    return Some(vs);
  }

  // ---------------------------------------------------------------- the shortest form

  lemma {:induction false} FurtherOfDigits(lead: nat, input: seq<u8>, i: nat, k: nat)
    requires i + k <= |input| && AllFurther(input, i, k)
    ensures Drop(Digits(lead, input, i, k), k) == lead
    ensures Further(Digits(lead, input, i, k), k) == input[i..i + k]
  {
    if k > 0 {
      var v := Digits(lead, input, i, k);
      var b := ByteAt(input, i + k - 1);
      assert IsFurther(b) && v / 64 == Digits(lead, input, i, k - 1) && v % 64 == b - 0x80;
      FurtherOfDigits(lead, input, i, k - 1);
      assert input[i..i + k] == input[i..i + (k - 1)] + [b];
    }
  }

  lemma AcceptedBound(input: seq<u8>, pos: nat)
    requires pos < |input| && Parse(input, pos).Some?
    ensures
      var d := Parse(input, pos).value;
      d.value < LIMIT && Length(d.value) <= d.next - pos
  {
    var b, n := input[pos], Announced(input[pos]);
    DigitsSplit(b - Mark(n + 1), input, pos + 1, n);
    LengthBound(b - Mark(n + 1), Digits(0, input, pos + 1, n), n);
  }

  lemma LengthBound(lead: nat, t: nat, n: nat)
    requires n <= 5 && t < Pow2(6 * n) && lead < [128, 32, 16, 8, 4, 2][n]
    ensures lead * Pow2(6 * n) + t < LIMIT && Length(lead * Pow2(6 * n) + t) <= n + 1
  {
    Pow2Small();
    Pow2Add(6, 6);
    Pow2Add(12, 6);
    Pow2Add(18, 6);
    Pow2Add(24, 6);
    assert n == 0 || n == 1 || n == 2 || n == 3 || n == 4 || n == 5;
  }

  /**
    The reader also accepts overlong forms. The writer's form of the value read is never longer than what was read, and is
    the very bytes read exactly when those were as short as that.
    */
  lemma ShortestForm(input: seq<u8>, pos: nat)
    requires pos < |input| && Parse(input, pos).Some?
    ensures
      var d := Parse(input, pos).value;
      && d.value < LIMIT
      && |Encode(d.value)| <= d.next - pos
      && (input[pos..d.next] == Encode(d.value) <==> d.next - pos == |Encode(d.value)|)
  {
    AcceptedBound(input, pos);
    var d, n, b := Parse(input, pos).value, Announced(input[pos]), input[pos];
    if d.next - pos == Length(d.value) {
      FurtherOfDigits(b - Mark(n + 1), input, pos + 1, n);
      assert Encode(d.value) == [Mark(n + 1) + Drop(d.value, n)] + Further(d.value, n);
      assert input[pos..d.next] == [b] + input[pos + 1..d.next];
    }
  }
}
