/**
  File audio sources: downmixing, streaming resampling to 16 kHz by linear interpolation, and
  framing into 960-sample frames.  Positions are scaled by 16000, so they are integers; samples
  are reals.
 */
module AudioSource {
  import opened Common

  const SAMPLE_RATE := 16000
  const FRAME_SAMPLES := 960
  const READ_BYTES := 8192

  type Samples = seq<real>

  // ----- resampling: the whole-stream specification -----

  /** How many output positions lie strictly before the last of n input samples. */
  function OutputCount(n: nat, rate: nat): nat
    requires rate > 0
  {
    if n == 0 then 0 else ((n - 1) * SAMPLE_RATE + rate - 1) / rate
  }

  /** Linear interpolation at scaled position p. */
  function Interpolate(x: Samples, p: nat): real
    requires p / SAMPLE_RATE + 1 < |x|
  {
    var i, frac := p / SAMPLE_RATE, (p % SAMPLE_RATE) as real / 16000.0;
    x[i] * (1.0 - frac) + x[i + 1] * frac
  }

  /** The scaled input position of the j-th output sample. */
  function Position(rate: nat, j: nat): nat {
    j * rate
  }

  lemma PositionSteps(rate: nat, j: nat)
    ensures Position(rate, 0) == 0 && Position(rate, j + 1) == Position(rate, j) + rate
  {
  }

  lemma PositionsGrow(rate: nat, i: nat, j: nat)
    requires i <= j
    ensures Position(rate, i) <= Position(rate, j)
  {
    assert j * rate == i * rate + (j - i) * rate;
  }

  lemma CeilingBounds(total: nat, rate: nat)
    requires rate > 0
    ensures var c := (total + rate - 1) / rate; total <= Position(rate, c) < total + rate
  {
    var a := total + rate - 1;
    assert a == (a / rate) * rate + a % rate;
  }

  lemma OutputCountExact(n: nat, rate: nat, j: nat)
    requires rate > 0
    ensures j < OutputCount(n, rate) <==> Position(rate, j) / SAMPLE_RATE + 1 < n
  {
    if n > 0 {
      var c := OutputCount(n, rate);
      CeilingBounds((n - 1) * SAMPLE_RATE, rate);
      if j < c {
        PositionsGrow(rate, j, c - 1);
        PositionSteps(rate, c - 1);
      } else {
        PositionsGrow(rate, c, j);
      }
      hide Position, OutputCount;
    }
  }

  function ResampledTo(x: Samples, rate: nat, count: nat): (y: Samples)
    requires rate > 0 && count <= OutputCount(|x|, rate)
    ensures |y| == count
  {
    seq(count, j requires 0 <= j < count => OutputCountExact(|x|, rate, j); Interpolate(x, Position(rate, j)))
  }

  /** What a mono stream of any length becomes at 16 kHz. */
  function Resampled(x: Samples, rate: nat): Samples
    requires rate > 0
  {
    if rate == SAMPLE_RATE then x else ResampledTo(x, rate, OutputCount(|x|, rate))
  }

  /** A longer stream only adds output: what was interpolated already does not change. */
  lemma ResampledGrows(x: Samples, more: Samples, rate: nat, count: nat)
    requires rate > 0 && count <= OutputCount(|x|, rate)
    ensures count <= OutputCount(|x + more|, rate)
    ensures ResampledTo(x + more, rate, count) == ResampledTo(x, rate, count)
  {
    if count > 0 {
      OutputCountExact(|x|, rate, count - 1);
      OutputCountExact(|x + more|, rate, count - 1);
    }
    forall j | 0 <= j < count
      ensures ResampledTo(x + more, rate, count)[j] == ResampledTo(x, rate, count)[j]
    {
      OutputCountExact(|x|, rate, j);
    }
  }

  // ----- what interpolation means -----

  /** The line with height a and slope b goes through sample i. */
  predicate Through(x: Samples, i: nat, a: real, b: real)
    requires i < |x|
  {
    x[i] == a + b * (i as real)
  }

  /** s lies at scaled position p of the stream: on every line through the two samples around p, it is
      the left one where p is whole, and it never leaves the range of the two. */
  ghost predicate LiesAt(x: Samples, p: nat, s: real) {
    var i := p / SAMPLE_RATE;
    && i + 1 < |x|
    && (forall a: real, b: real :: Through(x, i, a, b) && Through(x, i + 1, a, b) ==>
          s == a + b * (p as real) / 16000.0)
    && (p % SAMPLE_RATE == 0 ==> s == x[i])
    && (x[i] <= s <= x[i + 1] || x[i + 1] <= s <= x[i])
  }

  lemma InterpolateOnLine(x: Samples, p: nat, a: real, b: real)
    requires p / SAMPLE_RATE + 1 < |x|
    requires Through(x, p / SAMPLE_RATE, a, b) && Through(x, p / SAMPLE_RATE + 1, a, b)
    ensures Interpolate(x, p) == a + b * (p as real) / 16000.0
  {
    var i, f := p / SAMPLE_RATE, p % SAMPLE_RATE;
    var frac := f as real / 16000.0;
    assert p == 16000 * i + f;
    assert (p as real) / 16000.0 == i as real + frac;
    assert x[i + 1] == a + b * (i as real) + b;
    calc {
      Interpolate(x, p);
      (a + b * (i as real)) * (1.0 - frac) + (a + b * (i as real) + b) * frac;
      a + b * (i as real) + b * frac;
      a + b * (i as real + frac);
    }
    assert b * (p as real) / 16000.0 == b * ((p as real) / 16000.0);
  }

  lemma NonNegative(a: real, b: real)
    requires a >= 0.0 && b >= 0.0
    ensures a * b >= 0.0
  {
  }

  lemma Weighted(u: real, v: real, w: real)
    requires 0.0 <= w <= 1.0
    ensures var s := u * (1.0 - w) + v * w; u <= s <= v || v <= s <= u
  {
    var s := u * (1.0 - w) + v * w;
    assert s - u == (v - u) * w;
    assert v - s == (v - u) * (1.0 - w);
    if u <= v {
      NonNegative(v - u, w);
      NonNegative(v - u, 1.0 - w);
    } else {
      NonNegative(u - v, w);
      NonNegative(u - v, 1.0 - w);
      assert u - s == (u - v) * w;
      assert s - v == (u - v) * (1.0 - w);
    }
  }

  lemma InterpolateLiesAt(x: Samples, p: nat)
    requires p / SAMPLE_RATE + 1 < |x|
    ensures LiesAt(x, p, Interpolate(x, p))
  {
    var i, frac := p / SAMPLE_RATE, (p % SAMPLE_RATE) as real / 16000.0;
    forall a: real, b: real | Through(x, i, a, b) && Through(x, i + 1, a, b)
      ensures Interpolate(x, p) == a + b * (p as real) / 16000.0
    {
      InterpolateOnLine(x, p, a, b);
    }
    Weighted(x[i], x[i + 1], frac);
    assert Interpolate(x, p) == x[i] * (1.0 - frac) + x[i + 1] * frac;
    if p % SAMPLE_RATE == 0 {
      assert frac == 0.0;
    }
  }

  /** y is the stream x at the positions 0, rate, 2 * rate and so on, up to the last one strictly
      before x's last sample; at 16 kHz it is x itself. */
  ghost predicate Sampled(x: Samples, rate: nat, y: Samples) {
    if rate == SAMPLE_RATE then y == x
    else
      && (x == [] ==> y == [])
      && (x != [] ==> (|x| - 1) * SAMPLE_RATE <= |y| * rate)
      && (y != [] ==> (|y| - 1) * rate < (|x| - 1) * SAMPLE_RATE)
      && forall j :: 0 <= j < |y| ==> LiesAt(x, j * rate, y[j])
  }

  lemma ResampledIsSampled(x: Samples, rate: nat)
    requires rate > 0
    ensures Sampled(x, rate, Resampled(x, rate))
  {
    if rate != SAMPLE_RATE {
      var y := Resampled(x, rate);
      if x != [] {
        CeilingBounds((|x| - 1) * SAMPLE_RATE, rate);
        assert (|y| - 1) * rate == |y| * rate - rate;
      }
      hide OutputCount;
      forall j | 0 <= j < |y| ensures LiesAt(x, j * rate, y[j]) {
        OutputCountExact(|x|, rate, j);
        InterpolateLiesAt(x, Position(rate, j));
      }
    }
  }

  /** All samples of a stream taken at this rate lie on one line. */
  ghost predicate Straight(x: Samples, rate: nat, a: real, b: real) {
    forall i :: 0 <= i < |x| ==> x[i] == a + b * ((i * rate) as real) / 16000.0
  }

  /** A straight stream stays on its line, at any rate. */
  lemma StraightStays(x: Samples, rate: nat, y: Samples, a: real, b: real)
    requires Sampled(x, rate, y) && Straight(x, SAMPLE_RATE, a, b)
    ensures Straight(y, rate, a, b)
  {
    if rate != SAMPLE_RATE {
      forall j | 0 <= j < |y| ensures y[j] == a + b * ((j * rate) as real) / 16000.0 {
        var p := j * rate;
        var i := p / SAMPLE_RATE;
        assert LiesAt(x, p, y[j]);
        WholePosition(i, b);
        WholePosition(i + 1, b);
        assert Through(x, i, a, b) && Through(x, i + 1, a, b);
      }
    }
  }

  lemma WholePosition(i: nat, b: real)
    ensures b * ((i * SAMPLE_RATE) as real) / 16000.0 == b * (i as real)
  {
    assert (i * SAMPLE_RATE) as real == (i as real) * 16000.0;
  }

  class DownmixResampler {
    const inRate: nat
    var pos: int
    var last: real
    var havePrev: bool
    /** Every sample fed so far, and how many came out. */
    ghost var seen: Samples
    ghost var emitted: nat

    ghost predicate Valid()
      reads this
    {
      && inRate > 0
      && havePrev == (seen != [])
      && (havePrev ==> last == seen[|seen| - 1])
      && (inRate != SAMPLE_RATE ==>
            pos == Position(inRate, emitted) - |seen| * SAMPLE_RATE && emitted == OutputCount(|seen|, inRate))
    }

    constructor (inRate: nat)
      requires inRate > 0
      ensures Valid() && seen == [] && this.inRate == inRate
    {
      this.inRate := inRate;
      pos, last, havePrev, seen, emitted := 0, 0.0, false, [], 0;
    }

    /** One chunk in; out comes exactly what the longer stream adds. */
    method Process(mono: Samples) returns (out: Samples)
      requires Valid()
      modifies this
      ensures Valid() && seen == old(seen) + mono
      ensures Resampled(seen, inRate) == Resampled(old(seen), inRate) + out
    {
      if |mono| == 0 {
        assert seen + mono == seen;
        return [];
      }
      if inRate == SAMPLE_RATE {
        seen, last, havePrev := seen + mono, mono[|mono| - 1], true;
        return mono;
      }
      out := Interpolated(mono);
      pos := pos - |mono| * SAMPLE_RATE;
      last := mono[|mono| - 1];
      havePrev := true;
      seen := seen + mono;
    }

    /** The interpolation loop over one non-empty chunk, the carried sample in front. */
    method Interpolated(mono: Samples) returns (out: Samples)
      requires Valid() && mono != [] && inRate != SAMPLE_RATE
      modifies this`pos, this`emitted
      ensures emitted == OutputCount(|seen + mono|, inRate)
      ensures pos == Position(inRate, emitted) - |seen| * SAMPLE_RATE
      ensures ResampledTo(seen + mono, inRate, emitted) == ResampledTo(seen, inRate, old(emitted)) + out
    {
      hide Position, OutputCount;
      var src, base := mono, 0;
      if havePrev {
        src, base := [last] + mono, 1;
      }
      ghost var x := seen + mono;
      ghost var start := |seen| - base;
      assert src == x[start..];
      out := [];
      ghost var before := ResampledTo(seen, inRate, emitted);
      ResampledGrows(seen, mono, inRate, emitted);
      NextIsInRange(|seen|, inRate, emitted, base);
      hide ResampledTo, Interpolate, LiesAt;
      while (pos + base * SAMPLE_RATE) / SAMPLE_RATE + 1 < |src|
        invariant pos == Position(inRate, emitted) - |seen| * SAMPLE_RATE
        invariant pos + base * SAMPLE_RATE >= 0
        invariant emitted <= OutputCount(|x|, inRate)
        invariant ResampledTo(x, inRate, emitted) == before + out
        decreases |src| * SAMPLE_RATE - pos
      {
        var idx := pos + base * SAMPLE_RATE;
        var s := Between(src, idx);
        NextOutput(x, start, inRate, emitted);
        out := out + [s];
        pos := pos + inRate;
        emitted := emitted + 1;
      }
      NextOutput(x, start, inRate, emitted);
    }
  }

  /** The sample at scaled position idx, between two neighbours. */
  method Between(src: Samples, idx: nat) returns (s: real)
    requires idx / SAMPLE_RATE + 1 < |src|
    ensures s == Interpolate(src, idx) && LiesAt(src, idx, s)
  {
    InterpolateLiesAt(src, idx);
    hide LiesAt;
    var i := idx / SAMPLE_RATE;
    var frac := (idx % SAMPLE_RATE) as real / 16000.0;
    s := src[i] * (1.0 - frac) + src[i + 1] * frac;
  }

  /** One turn of the loop: the window from start decides and computes the next output. */
  lemma NextOutput(x: Samples, start: nat, rate: nat, count: nat)
    requires rate > 0 && start <= |x| && count <= OutputCount(|x|, rate) && Position(rate, count) >= start * SAMPLE_RATE
    ensures var idx := Position(rate, count) - start * SAMPLE_RATE;
            && (idx / SAMPLE_RATE + 1 < |x| - start <==> count < OutputCount(|x|, rate))
            && (count < OutputCount(|x|, rate) ==>
                  ResampledTo(x, rate, count + 1) == ResampledTo(x, rate, count) + [Interpolate(x[start..], idx)])
    ensures Position(rate, count + 1) == Position(rate, count) + rate
  {
    ScaledShift(Position(rate, count), start);
    OutputCountExact(|x|, rate, count);
    if count < OutputCount(|x|, rate) {
      InterpolateSuffix(x, start, Position(rate, count));
      ExtendByOne(x, rate, count);
    }
    PositionSteps(rate, count);
  }

  /** The position of the next output never lies before the carried sample. */
  lemma NextIsInRange(n: nat, rate: nat, emitted: nat, base: nat)
    requires rate > 0 && emitted == OutputCount(n, rate) && base == (if n > 0 then 1 else 0)
    ensures Position(rate, emitted) - n * SAMPLE_RATE + base * SAMPLE_RATE >= 0
  {
    OutputCountExact(n, rate, emitted);
  }

  lemma ScaledShift(p: nat, start: nat)
    requires p >= start * SAMPLE_RATE
    ensures (p - start * SAMPLE_RATE) / SAMPLE_RATE == p / SAMPLE_RATE - start
    ensures (p - start * SAMPLE_RATE) % SAMPLE_RATE == p % SAMPLE_RATE
  {
  }

  lemma InterpolateSuffix(x: Samples, start: nat, p: nat)
    requires start <= |x| && p >= start * SAMPLE_RATE && (p - start * SAMPLE_RATE) / SAMPLE_RATE + 1 < |x| - start
    ensures p / SAMPLE_RATE + 1 < |x|
    ensures Interpolate(x[start..], p - start * SAMPLE_RATE) == Interpolate(x, p)
  {
    ScaledShift(p, start);
  }

  lemma ExtendByOne(x: Samples, rate: nat, count: nat)
    requires rate > 0 && count < OutputCount(|x|, rate) && Position(rate, count) / SAMPLE_RATE + 1 < |x|
    ensures ResampledTo(x, rate, count + 1) == ResampledTo(x, rate, count) + [Interpolate(x, Position(rate, count))]
  {
  }

  /** Chunking invariance: any split of the stream gives the interpolation of the whole of it. */
  method ResampleAll(chunks: seq<Samples>, rate: nat) returns (out: seq<Samples>)
    requires rate > 0
    ensures |out| == |chunks| && Flatten(out) == Resampled(Flatten(chunks), rate)
    ensures Sampled(Flatten(chunks), rate, Flatten(out))
    ensures forall a: real, b: real :: Straight(Flatten(chunks), SAMPLE_RATE, a, b) ==>
              Straight(Flatten(out), rate, a, b)
  {
    var d := new DownmixResampler(rate);
    out := [];
    for k := 0 to |chunks|
      invariant fresh(d) && d.Valid() && d.inRate == rate && |out| == k
      invariant d.seen == Flatten(chunks[..k])
      invariant Flatten(out) == Resampled(d.seen, rate)
    {
      var y := d.Process(chunks[k]);
      FlattenSnoc(chunks[..k], chunks[k]);
      assert chunks[..k] + [chunks[k]] == chunks[..k + 1];
      FlattenSnoc(out, y);
      out := out + [y];
    }
    assert chunks[..|chunks|] == chunks;
    var x := Flatten(chunks);
    ResampledIsSampled(x, rate);
    hide Sampled, Straight, Resampled;
    forall a: real, b: real | Straight(x, SAMPLE_RATE, a, b) ensures Straight(Flatten(out), rate, a, b) {
      StraightStays(x, rate, Flatten(out), a, b);
    }
  }
}
