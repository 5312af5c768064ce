/**
  The UTF-16 reader and writer undo each other exactly on scalar values, and going
  from UTF-8 through UTF-16 and back gives the same bytes exactly when they were in
  shortest form.
  */
module Utf16Laws {
  import opened Options
  import opened Bits
  import opened Utf8
  import opened Utf8Laws
  import opened Utf16

  // ---------------------------------------------------------------- one value

  lemma RoundTrip16At(input: seq<u16>, pos: nat, v: Scalar)
    requires pos + |Encode16(v)| <= |input| && input[pos..pos + |Encode16(v)|] == Encode16(v)
    ensures Parse16(input, pos) == Some(Decoded(v, pos + |Encode16(v)|))
  {
    var e := Encode16(v);
    assert input[pos] == input[pos..pos + |e|][0] == e[0];
    if |e| == 2 {
      assert input[pos + 1] == input[pos..pos + |e|][1] == e[1];
    }
  }

  /** Of all 32-bit values exactly the scalar values come back from being written and read. */
  lemma RoundTrip16Exact(v: u32)
    ensures Parse16(Written(v), 0) == Some(Decoded(v, |Written(v)|)) <==> IsScalar(v)
  {
    if IsScalar(v) {
      assert Written(v)[0..0 + |Encode16(v)|] == Encode16(v);
      RoundTrip16At(Written(v), 0, v);
    }
  }

  /** Below 0x10000 a value is its own unit, surrogates too; the reader refuses those. */
  lemma SingleUnits(v: u16)
    ensures Written(v) == [v]
    ensures Parse16([v], 0) == if IsScalar(v) then Some(Decoded(v, 1)) else None
  {
  }

  /** A value above is a high and a low surrogate that spell it. */
  lemma SurrogatePairs(v: nat)
    requires 0x1_0000 <= v <= 0x10_FFFF
    ensures
      var units := Written(v);
      && |units| == 2 && 0xD800 <= units[0] < 0xDC00 && 0xDC00 <= units[1] < 0xE000
      && var high: int, low: int := units[0], units[1];
      (high - 0xD800) * 1024 + (low - 0xDC00) + 0x1_0000 == v
  {
  }

  // ---------------------------------------------------------------- streams

  function EncodeAll16(vs: seq<Scalar>): seq<u16> {
    if vs == [] then [] else Encode16(vs[0]) + EncodeAll16(vs[1..])
  }

  function DecodeAll16(input: seq<u16>, pos: nat): Option<seq<Scalar>>
    requires pos <= |input|
    decreases |input| - pos
  {
    if pos == |input| then Some([])
    else
      match Parse16(input, pos)
      case None => None
      case Some(d) => Prepend([d.value], DecodeAll16(input, d.next))
  }

  lemma {:induction false} StreamRoundTrip16At(input: seq<u16>, pos: nat, vs: seq<Scalar>)
    requires pos <= |input| && input[pos..] == EncodeAll16(vs)
    ensures DecodeAll16(input, pos) == Some(vs)
    decreases |vs|
  {
    if vs == [] {
      assert |input[pos..]| == 0;
    } else {
      SplitSlice(input, pos, Encode16(vs[0]), EncodeAll16(vs[1..]));
      RoundTrip16At(input, pos, vs[0]);
      StreamRoundTrip16At(input, pos + |Encode16(vs[0])|, vs[1..]);
      assert vs == [vs[0]] + vs[1..];
    }
  }

  /** Any sequence of scalar values survives being written and read as a stream. */
  lemma StreamRoundTrip16(vs: seq<Scalar>)
    ensures DecodeAll16(EncodeAll16(vs), 0) == Some(vs)
  {
    assert EncodeAll16(vs)[0..] == EncodeAll16(vs);
    StreamRoundTrip16At(EncodeAll16(vs), 0, vs);
  }

  lemma ParsedIsEncoded(input: seq<u16>, pos: nat)
    requires pos < |input| && Parse16(input, pos).Some?
    ensures
      var d := Parse16(input, pos).value;
      input[pos..d.next] == Encode16(d.value)
  {
  }

  /** UTF-16 has one form only: writing again what was read gives the units back. */
  lemma {:induction false} Reencode16(input: seq<u16>, pos: nat)
    requires pos <= |input| && DecodeAll16(input, pos).Some?
    ensures EncodeAll16(DecodeAll16(input, pos).value) == input[pos..]
    decreases |input| - pos
  {
    if pos < |input| {
      var d := Parse16(input, pos).value;
      ParsedIsEncoded(input, pos);
      Reencode16(input, d.next);
      var rest := DecodeAll16(input, d.next).value;
      assert ([d.value] + rest)[1..] == rest;
      assert input[pos..] == input[pos..d.next] + input[d.next..];
    }
  }

  // ---------------------------------------------------------------- UTF-8 through UTF-16

  /** A UTF-8 stream written again is never longer, and the same bytes exactly when it is not shorter. */
  lemma {:induction false} ShortestStream(input: seq<u8>, pos: nat, vs: seq<Ucs4>)
    requires pos <= |input| && DecodeAll(input, pos) == Some(vs)
    ensures |EncodeAll(vs)| <= |input| - pos
    ensures |EncodeAll(vs)| == |input| - pos <==> EncodeAll(vs) == input[pos..]
    decreases |input| - pos
  {
    if pos < |input| {
      var d := Parse(input, pos).value;
      ShortestForm(input, pos);
      var rest := DecodeAll(input, d.next).value;
      assert vs[1..] == rest;
      ShortestStream(input, d.next, vs[1..]);
      assert input[pos..] == input[pos..d.next] + input[d.next..];
    }
  }

  /** Every value the reader accepts is below 2^31, so what it accepts can be written. */
  lemma {:induction false} AcceptedInRange(input: seq<u8>, pos: nat)
    requires pos <= |input| && DecodeAll(input, pos).Some?
    ensures forall v :: v in DecodeAll(input, pos).value ==> v < LIMIT
    decreases |input| - pos
  {
    if pos < |input| {
      ShortestForm(input, pos);
      AcceptedInRange(input, Parse(input, pos).value.next);
    }
  }

  /**
    UTF-8 to UTF-16 to UTF-8 on any accepted stream of scalar values: the values arrive, and the bytes are the same exactly
    when the input had as few as the writer uses.
    */
  lemma TranscodeRoundTrip(input: seq<u8>, vs: seq<Scalar>)
    requires DecodeAll(input, 0) == Some(vs)
    ensures DecodeAll16(EncodeAll16(vs), 0) == Some(vs)
    ensures EncodeAll(vs) == input <==> |input| == |EncodeAll(vs)|
  {
    StreamRoundTrip16(vs);
    ShortestStream(input, 0, vs);
    assert input[0..] == input;
  }
}
