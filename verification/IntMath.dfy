/**
  The integer logarithms: ff_log2_c of libavutil/intmath.h, which is av_log2 where
  no count-leading-zeros instruction is used, and av_ceil_log2_c of common.h.
  */
module IntMath {
  import opened Bits

  lemma Pow2Small()
    ensures Pow2(1) == 2 && Pow2(2) == 4 && Pow2(3) == 8 && Pow2(4) == 16
    ensures Pow2(5) == 32 && Pow2(6) == 64 && Pow2(7) == 128 && Pow2(8) == 0x100
  {
    assert Pow2(1) == 2 * Pow2(0);
    assert Pow2(3) == 2 * Pow2(2);
    assert Pow2(5) == 2 * Pow2(4);
    assert Pow2(7) == 2 * Pow2(6);
  }

  lemma Pow2Values()
    ensures Pow2(16) == 0x1_0000 && Pow2(31) == 0x8000_0000 && Pow2(32) == TWO_32
    ensures Pow2(63) == 0x8000_0000_0000_0000 && Pow2(64) == TWO_64
  {
    Pow2Small();
    Pow2Add(8, 8);
    Pow2Add(16, 16);
    Pow2Add(32, 32);
  }

  lemma Pow2Of32()
    ensures Pow2(32) == TWO_32
  {
    Pow2Values();
  }

  /** A word has a bit at or above position k exactly when it is at least 2^k. */
  lemma MaskTest(v: nat, k: nat, w: nat)
    requires k <= w && v < Pow2(w)
    ensures Pow2(k) <= Pow2(w)
    ensures And(v, Pow2(w) - Pow2(k)) == 0 <==> v < Pow2(k)
  {
    AndHigh(v, k, w);
    if v < Pow2(k) {
      DivUnique(v, Pow2(k), 0, v);
    }
  }

  /** ff_log2_tab: the position of the highest bit of a byte. */
  function Log2Tab(v: u8): nat {
    if v < 2 then 0 else if v < 4 then 1 else if v < 8 then 2 else if v < 16 then 3
    else if v < 32 then 4 else if v < 64 then 5 else if v < 128 then 6 else 7
  }

  lemma Log2TabBounds(v: u8)
    ensures v != 0 ==> Pow2(Log2Tab(v)) <= v < Pow2(Log2Tab(v) + 1)
  {
    Pow2Small();
  }

  /** If v is v0 without its n lowest bits, the logarithms differ by n. */
  lemma LogOfShr(v0: nat, n: nat, m: nat)
    requires Pow2(m) <= Shr(v0, n) < Pow2(m + 1)
    ensures Pow2(n + m) <= v0 < Pow2(n + m + 1)
  {
    Pow2Add(m, n);
    Pow2Add(m + 1, n);
    assert v0 == Pow2(n) * Shr(v0, n) + v0 % Pow2(n);
    ScaledBounds(Pow2(n), Shr(v0, n), v0 % Pow2(n), Pow2(m), Pow2(m + 1));
  }

  lemma ScaledBounds(p: nat, q: nat, r: nat, lo: nat, hi: nat)
    requires r < p && lo <= q < hi
    ensures lo * p <= p * q + r < hi * p
  {
    MulLeq(lo, q, p);
    MulLeq(q + 1, hi, p);
    assert (q + 1) * p == p * q + p;
    assert q * p == p * q;
  }

  lemma MulLeq(a: nat, b: nat, p: nat)
    requires a <= b
    ensures a * p <= b * p
  {
    assert (b - a) * p >= 0;
  }

  /** The floor of the binary logarithm, and 0 for 0. */
  method Log2(v0: u32) returns (n: nat)
    ensures n < 32
    ensures v0 != 0 ==> Pow2(n) <= v0 < Pow2(n + 1)
    ensures v0 == 0 ==> n == 0
  {
    var v: nat := v0;
    n := 0;
    Stage16(v0);
    if And(v, 0xFFFF_0000) != 0 {
      v := Shr(v, 16);
      n := n + 16;
    }
    Stage8(v0, v, n);
    if And(v, 0xFF00) != 0 {
      v := Shr(v, 8);
      n := n + 8;
    }
    if v0 != 0 {
      Log2TabBounds(v);
      LogOfShr(v0, n, Log2Tab(v));
    }
    n := n + Log2Tab(v);
  }

  lemma Stage16(v: u32)
    ensures v == Shr(v, 0)
    ensures And(v, 0xFFFF_0000) == 0 <==> v < 0x1_0000
    ensures v >= 0x1_0000 ==> 0 < Shr(v, 16) < 0x1_0000
  {
    assert Pow2(0) == 1;
    Pow2Values();
    Halving(v, v, 0, 16);
  }

  lemma Stage8(v0: u32, v: nat, n: nat)
    requires v == Shr(v0, n) && v < 0x1_0000
    ensures And(v, 0xFF00) == 0 <==> v < 0x100
    ensures v >= 0x100 ==> 0 < Shr(v, 8) < 0x100 && Shr(v, 8) == Shr(v0, n + 8)
  {
    Pow2Small();
    Pow2Values();
    Halving(v0, v, n, 8);
  }

  /** One halving of the word: whichever way the test goes, what is left has k bits and is 0 only if it was. */
  lemma Halving(v0: nat, v: nat, n: nat, k: nat)
    requires v == Shr(v0, n) && v < Pow2(2 * k)
    ensures Pow2(2 * k) >= Pow2(k)
    ensures And(v, Pow2(2 * k) - Pow2(k)) == 0 <==> v < Pow2(k)
    ensures v >= Pow2(k) ==> 0 < Shr(v, k) < Pow2(k) && Shr(v, k) == Shr(v0, n + k)
  {
    MaskTest(v, k, 2 * k);
    ShrShr(v0, n, k);
    Pow2Add(k, k);
    Middle(v, Pow2(k));
  }

  lemma Middle(v: nat, p: nat)
    requires p > 0 && v < p * p
    ensures v >= p ==> 0 < v / p < p
  {
    var q := v / p;
    assert v == p * q + v % p;
    if q >= p {
      MulLeq(p, q, p);
    }
    if q <= 0 {
      MulAtLeast(p, 1 - q);
      assert p * (1 - q) == p - p * q;
    }
  }

  /** The least n with x <= 2^n, for the arguments a logarithm is defined on. */
  method CeilLog2(x: u32) returns (n: nat)
    requires 1 <= x < 0x8000_0000
    ensures x <= Pow2(n)
    ensures forall m :: 0 <= m < n ==> Pow2(m) < x
  {
    n := Log2(Shl32((x - 1) % TWO_32, 1));
    assert Shl32((x - 1) % TWO_32, 1) == 2 * (x - 1);
    forall m | 0 <= m < n
      ensures Pow2(m) < x
    {
      Pow2Monotone(m, n - 1);
    }
  }

  lemma {:induction false} Pow2Monotone(a: nat, b: nat)
    requires a <= b
    ensures Pow2(a) <= Pow2(b)
  {
    if a < b {
      Pow2Monotone(a, b - 1);
    }
  }
}
