/**
  What the player's conversions between bytes, samples and seconds come to: the size of a
  converted frame is the length of its interleaved 16-bit samples, the clock runs one
  second for every freq sample frames, and the test of the wait loop is one of integers.
  */
module PlayerTime {
  import opened Bits
  import opened Options
  import opened PlayerModel

  // ---------------------------------------------------------------- products and quotients of reals

  lemma {:induction false} RealProduct(a: nat, b: int)
    ensures (a * b) as real == a as real * b as real
  {
    if a > 0 {
      RealProduct(a - 1, b);
      RealDistributes(a - 1, b);
    }
  }

  lemma RealDistributes(a: int, b: int)
    ensures (a + 1) * b == a * b + b
    ensures (a + 1) as real * b as real == a as real * b as real + b as real
  {
  }

  lemma RealProductOfInts(a: int, b: int)
    ensures (a * b) as real == a as real * b as real
  {
    if a >= 0 {
      RealProduct(a, b);
    } else {
      RealProduct(-a, b);
      Negated(a, b);
    }
  }

  lemma Negated(a: int, b: int)
    ensures -a * b == -(a * b)
    ensures (-a) as real * b as real == -(a as real * b as real)
  {
    assert (-a) as real == -(a as real);
  }

  lemma QuotientTimes(a: real, d: real)
    requires d > 0.0
    ensures a / d * d == a
  {
  }

  lemma EqualQuotients(x: real, y: real, d: real)
    requires d > 0.0 && x * d == y * d
    ensures x == y
  {
    assert (x - y) * d == 0.0;
  }

  lemma QuotientMonotone(a: real, b: real, d: real)
    requires a <= b && d > 0.0
    ensures a / d <= b / d
  {
    assert b / d - a / d == (b - a) / d;
    assert (b - a) / d >= 0.0;
  }

  // ---------------------------------------------------------------- the clock

  /** Bytes per second: channels times two bytes, freq times. */
  lemma RatePositive(cfg: Config)
    ensures cfg.channels * 2 * cfg.freq > 0
  {
    var c, f := cfg.channels * 2, cfg.freq;
    assert c * f >= 1 * f by { assert (c - 1) * f >= 0; }
  }

  /** The seconds of the clock, without dividing. */
  lemma ClockTimesRate(cfg: Config, bytes: int)
    ensures cfg.ClockSeconds(bytes) * (cfg.channels * 2 * cfg.freq) as real == bytes as real
  {
    RatePositive(cfg);
    QuotientTimes(bytes as real, (cfg.channels * 2 * cfg.freq) as real);
  }

  /** n sample frames, two bytes for each channel, last n / freq seconds. */
  lemma ClockOfSampleFrames(cfg: Config, n: int)
    ensures cfg.ClockSeconds(n * cfg.channels * 2) == n as real / cfg.freq as real
  {
    var w, f := cfg.channels * 2, cfg.freq;
    RatePositive(cfg);
    ClockTimesRate(cfg, n * cfg.channels * 2);
    assert n * cfg.channels * 2 == n * w;
    RealProductOfInts(n, w);
    RealProductOfInts(w, f);
    QuotientTimes(n as real, f as real);
    Regrouped(n as real / f as real, f as real, w as real, n as real);
    EqualQuotients(cfg.ClockSeconds(n * cfg.channels * 2), n as real / f as real, (w * f) as real);
  }

  lemma Regrouped(q: real, f: real, w: real, n: real)
    requires q * f == n
    ensures q * (w * f) == n * w
  {
    assert q * (w * f) == q * f * w;
  }

  lemma ClockMonotone(cfg: Config, a: int, b: int)
    requires a <= b
    ensures cfg.ClockSeconds(a) <= cfg.ClockSeconds(b)
  {
    RatePositive(cfg);
    QuotientMonotone(a as real, b as real, cfg.BytesPerSecond() as real);
  }

  // ---------------------------------------------------------------- presentation times

  /** A presentation time is its number of time base units; a frame without one is due at once. */
  lemma PtsExact(cfg: Config, f: Frame)
    ensures f.pts.Some? ==> cfg.PtsSeconds(f) * cfg.tbDen as real == f.pts.value as real * cfg.tbNum as real
    ensures f.pts.None? ==> cfg.PtsSeconds(f) == 0.0
  {
    match f.pts
    case None =>
    case Some(p) =>
      var unit, d := cfg.tbNum as real / cfg.tbDen as real, cfg.tbDen as real;
      QuotientTimes(cfg.tbNum as real, d);
      Associates(p as real, unit, d);
  }

  lemma Associates(p: real, u: real, d: real)
    ensures p * u * d == p * (u * d)
  {
  }

  // ---------------------------------------------------------------- the wait loop

  /** x > y + 1/50, both sides multiplied by k. */
  lemma Compared(x: real, y: real, k: real, a: real, b: real)
    requires k > 0.0 && x * k == a && y * k == b
    ensures x > y + 0.02 <==> 50.0 * a > 50.0 * b + k
  {
    GapTimes(x, y, k);
    SameSign(x - y - 0.02, k, a - b - 0.02 * k);
  }

  lemma Positive(d: real, r: real)
    requires d > 0.0 && r > 0.0
    ensures d * r > 0.0 && d * r == r * d
  {
  }

  lemma Rescaled(x: real, d: real, r: real, k: real, a: real)
    requires x * d == a && k == d * r
    ensures x * k == a * r
  {
    assert x * d * r == x * (d * r);
  }

  lemma GapTimes(x: real, y: real, k: real)
    ensures (x - y - 0.02) * k == x * k - y * k - 0.02 * k
  {
  }

  lemma SameSign(t: real, k: real, p: real)
    requires k > 0.0 && p == t * k
    ensures t > 0.0 <==> p > 0.0
  {
  }

  /** The comparison of the wait loop in integers: a is the numerator of the presentation time over tbDen. */
  lemma AheadInIntegers(cfg: Config, f: Frame, a: int, bytes: int)
    requires cfg.PtsSeconds(f) * cfg.tbDen as real == a as real
    ensures
      var rate := cfg.channels * 2 * cfg.freq;
      cfg.Ahead(f, bytes) <==> 50 * (a * rate) > 50 * (cfg.tbDen * bytes) + cfg.tbDen * rate
  {
    var rate, d := cfg.channels * 2 * cfg.freq, cfg.tbDen;
    RatePositive(cfg);
    ClockTimesRate(cfg, bytes);
    var k := d as real * rate as real;
    Positive(d as real, rate as real);
    Rescaled(cfg.PtsSeconds(f), d as real, rate as real, k, a as real);
    Rescaled(cfg.ClockSeconds(bytes), rate as real, d as real, k, bytes as real);
    RealProductOfInts(a, rate);
    RealProductOfInts(bytes, d);
    RealProductOfInts(d, rate);
    Compared(cfg.PtsSeconds(f), cfg.ClockSeconds(bytes), k, (a * rate) as real, (bytes * d) as real);
    assert bytes * d == d * bytes;
  }

  /** A frame with presentation time p waits exactly while p units exceed the clock by more than a fiftieth of a second. */
  lemma AheadExact(cfg: Config, f: Frame, p: int, bytes: int)
    requires f.pts == Some(p)
    ensures
      var rate := cfg.channels * 2 * cfg.freq;
      cfg.Ahead(f, bytes) <==> 50 * (p * cfg.tbNum * rate) > 50 * (cfg.tbDen * bytes) + cfg.tbDen * rate
  {
    PtsExact(cfg, f);
    RealProductOfInts(p, cfg.tbNum);
    AheadInIntegers(cfg, f, p * cfg.tbNum, bytes);
  }

  /** A frame without a presentation time waits only for a clock that is behind zero by more than that. */
  lemma NoPtsNoWait(cfg: Config, f: Frame, bytes: int)
    requires f.pts.None?
    ensures cfg.Ahead(f, bytes) <==> 50 * bytes + cfg.channels * 2 * cfg.freq < 0
    ensures bytes >= 0 ==> !cfg.Ahead(f, bytes)
  {
    var rate, d := cfg.channels * 2 * cfg.freq, cfg.tbDen;
    PtsExact(cfg, f);
    RatePositive(cfg);
    AheadInIntegers(cfg, f, 0, bytes);
    assert 50 * (d * bytes) + d * rate == d * (50 * bytes + rate);
    SignOfProduct(d, 50 * bytes + rate);
  }

  lemma SignOfProduct(d: nat, t: int)
    requires d > 0
    ensures d * t < 0 <==> t < 0
  {
  }

  // ---------------------------------------------------------------- the sound of a frame

  /** A 16-bit sample in memory. */
  datatype Sample16 = Sample16(first: u8, second: u8)

  /** One sample for each channel, interleaved. */
  function FrameBytes(samples: seq<Sample16>): seq<u8> {
    if samples == [] then [] else [samples[0].first, samples[0].second] + FrameBytes(samples[1..])
  }

  /** The buffer swr_convert fills with some sample frames. */
  function Buffer(sound: seq<seq<Sample16>>): seq<u8> {
    if sound == [] then [] else FrameBytes(sound[0]) + Buffer(sound[1..])
  }

  lemma {:induction false} FrameBytesLength(samples: seq<Sample16>)
    ensures |FrameBytes(samples)| == 2 * |samples|
  {
    if samples != [] {
      FrameBytesLength(samples[1..]);
    }
  }

  lemma {:induction false} BufferLength(sound: seq<seq<Sample16>>, channels: nat)
    requires forall frame :: frame in sound ==> |frame| == channels
    ensures |Buffer(sound)| == |sound| * channels * 2
  {
    if sound != [] {
      FrameBytesLength(sound[0]);
      BufferLength(sound[1..], channels);
      OneMoreFrame(|sound|, channels);
    }
  }

  lemma OneMoreFrame(n: int, channels: nat)
    ensures n * channels * 2 == (n - 1) * channels * 2 + 2 * channels
  {
    assert n * channels == (n - 1) * channels + channels;
  }

  /** What swr_convert returned fits the buffer it was given. */
  predicate Fits(cfg: Config, frames: seq<Frame>) {
    cfg.resample(frames) <= 192000 / cfg.channels / 2
  }

  /** data_size is the length of the converted sound. */
  lemma DataSizeIsLength(cfg: Config, frames: seq<Frame>, sound: seq<seq<Sample16>>)
    requires |sound| == cfg.resample(frames) && Fits(cfg, frames)
    requires forall frame :: frame in sound ==> |frame| == cfg.channels
    ensures cfg.DataSize(frames) == |Buffer(sound)|
  {
    BufferLength(sound, cfg.channels);
  }

  /** Played, a converted frame moves the clock by its duration. */
  lemma DataSizeIsDuration(cfg: Config, frames: seq<Frame>)
    requires Fits(cfg, frames)
    ensures cfg.ClockSeconds(cfg.DataSize(frames)) == cfg.resample(frames) as real / cfg.freq as real
  {
    ClockOfSampleFrames(cfg, cfg.resample(frames));
  }

  /** After an error nothing is offered to the device. */
  lemma ErrorIsSilent(cfg: Config, frames: seq<Frame>)
    ensures cfg.DataSize(frames) > 0 ==> cfg.resample(frames) > 0
    ensures cfg.resample(frames) <= 0 ==> cfg.Chunk(frames) == 0
  {
    if cfg.resample(frames) <= 0 {
      NotPositive(cfg.resample(frames), cfg.channels);
    }
  }

  lemma NotPositive(n: int, c: nat)
    requires n <= 0
    ensures n * c * 2 <= 0
  {
  }

  /** A result beyond the buffer is cut to the last whole sample frame that fits. */
  lemma CutToBuffer(cfg: Config, frames: seq<Frame>)
    requires !Fits(cfg, frames)
    ensures cfg.DataSize(frames) <= 192000 < cfg.DataSize(frames) + cfg.channels * 2
    ensures cfg.DataSize(frames) % (cfg.channels * 2) == 0
  {
    var c := cfg.channels;
    var each, fit := 192000 / c, 192000 / c / 2;
    assert 192000 == c * each + 192000 % c;
    assert each == 2 * fit + each % 2;
    WholeFrames(c, each, fit);
  }

  lemma WholeFrames(c: nat, each: nat, fit: nat)
    requires c > 0 && c * each <= 192000 < c * each + c && 2 * fit <= each <= 2 * fit + 1
    ensures fit * c * 2 <= 192000 < fit * c * 2 + c * 2
    ensures fit * c * 2 % (c * 2) == 0
  {
    var w := c * 2;
    assert fit * c * 2 == w * fit;
    ScaledBetween(c, each, fit);
    DivUnique(w * fit, w, fit, 0);
  }

  lemma ScaledBetween(c: nat, each: nat, fit: nat)
    requires 2 * fit <= each <= 2 * fit + 1
    ensures c * 2 * fit <= c * each <= c * 2 * fit + c
  {
    assert c * (each - 2 * fit) >= 0;
    assert c * (2 * fit + 1 - each) >= 0;
  }

  // ---------------------------------------------------------------- the sound of a stream

  /** The sample frames converted from some frames, errors apart. */
  function SampleFrames(cfg: Config, frames: seq<Frame>): nat {
    if frames == [] then 0
    else
      SampleFrames(cfg, frames[..|frames| - 1]) + if cfg.resample(frames) > 0 then cfg.resample(frames) else 0
  }

  /** All offered to the device and played, the clock shows the duration of the sound converted. */
  lemma {:induction false} SoundIsSampleFrames(cfg: Config, frames: seq<Frame>)
    requires forall n :: 0 < n <= |frames| ==> Fits(cfg, frames[..n])
    ensures cfg.Sound(frames) == SampleFrames(cfg, frames) * cfg.channels * 2
  {
    if frames != [] {
      var init := frames[..|frames| - 1];
      assert forall n :: 0 < n <= |init| ==> init[..n] == frames[..n];
      SoundIsSampleFrames(cfg, init);
      assert frames[..|frames|] == frames;
      ErrorIsSilent(cfg, frames);
      var n, m := SampleFrames(cfg, init), if cfg.resample(frames) > 0 then cfg.resample(frames) else 0;
      assert (n + m) * cfg.channels == n * cfg.channels + m * cfg.channels;
    }
  }

  lemma SoundIsDuration(cfg: Config, frames: seq<Frame>)
    requires forall n :: 0 < n <= |frames| ==> Fits(cfg, frames[..n])
    ensures cfg.ClockSeconds(cfg.Sound(frames)) == SampleFrames(cfg, frames) as real / cfg.freq as real
  {
    SoundIsSampleFrames(cfg, frames);
    ClockOfSampleFrames(cfg, SampleFrames(cfg, frames));
  }
}
