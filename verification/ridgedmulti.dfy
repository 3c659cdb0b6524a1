/**
  Ridged multifractal noise. Every octave folds the kernel sample into a
  ridge `(offset - |n|)^2`, weights it by the previous octave's signal
  (times `gain`, clamped to [0, 1]) and by a per-octave spectral weight
  `lacunarity^(-i*h)`; the sum is remapped from [0, max_val] to [0, 1].
  The normaliser `max_val` is the same recurrence run on a kernel that is
  0 everywhere.
*/
module RidgedMulti {
  import opened Utils
  import opened NoiseGen
  import Simplex
  import LcgRng
  import Fbm

  /** `f64::powf`, left uninterpreted. */
  type PowF = (real, real) -> real

  datatype RidgedMultiNoise = RidgedMultiNoise(simp: Simplex.SimplexNoise, octaves: int,
                                               gain: real, lacunarity: real, offset: real,
                                               frequencies: seq<real>, maxVal: real)

  /** The ridge of a sample, `(offset - |n|)^2`: never negative. */
  function Ridge(n: real, offset: real): (r: real)
    ensures r >= 0.0
  {
    var d := offset - Abs(n);
    SquarePositive(d);
    d * d
  }

  /** A non-zero square is positive. */
  lemma SquarePositive(d: real)
    ensures d * d >= 0.0
    ensures d != 0.0 ==> d * d > 0.0
  {
    if d > 0.0 {
      MulPositive(d, d);
    } else if d < 0.0 {
      MulPositive(-d, -d);
      assert (-d) * (-d) == d * d;
    }
  }

  /** The ridge is blind to the sample's sign. */
  lemma RidgeSymmetric(n: real, offset: real)
    ensures Ridge(-n, offset) == Ridge(n, offset)
  {
  }

  /** Moving a sample towards 0 (while it stays within the offset) can only
      raise its ridge, so the peak is at n == 0, where the ridge is
      offset^2. */
  lemma RidgeBelowPeak(n: real, offset: real)
    requires Abs(n) <= offset
    ensures Ridge(n, offset) <= Ridge(0.0, offset) == offset * offset
  {
    var d := offset - Abs(n);
    assert 0.0 <= d <= offset;
    MulMonotone(d, offset, d);
    MulMonotone(d, offset, offset);
  }

  /** The exponent of octave i's spectral weight, `(-i as f64) * h`. */
  function Exponent(i: int, h: real): real
  {
    -(i as real) * h
  }

  /** The spectral weights: one per octave, octave i weighted by
      `powf(lacunarity, -i * h)`. */
  function Freqs(octaves: int, lacunarity: real, h: real, powf: PowF): (r: seq<real>)
    ensures |r| == Fbm.OctaveCount(octaves)
  {
    seq(Fbm.OctaveCount(octaves), i => powf(lacunarity, Exponent(i, h)))
  }

  /** The loop that fills the weight vector, one push per octave. */
  method CalcFreqs(octaves: int, lacunarity: real, h: real, powf: PowF) returns (freqs: seq<real>)
    ensures |freqs| == Fbm.OctaveCount(octaves)
    ensures forall i :: 0 <= i < |freqs| ==> freqs[i] == powf(lacunarity, Exponent(i, h))
    ensures freqs == Freqs(octaves, lacunarity, h, powf)
  {
    freqs := [];
    var i := 0;
    while i < octaves
      invariant 0 <= i <= Fbm.OctaveCount(octaves)
      invariant |freqs| == i
      invariant forall k :: 0 <= k < i ==> freqs[k] == powf(lacunarity, Exponent(k, h))
    {
      var f := powf(lacunarity, Exponent(i, h));
      freqs := freqs + [f];
      i := i + 1;
    }
  }

  /** When every weight powf returns is non-negative (as it is for a
      positive lacunarity), so is every spectral weight. */
  lemma FreqsNonNegative(octaves: int, lacunarity: real, h: real, powf: PowF)
    requires forall e: real :: powf(lacunarity, e) >= 0.0
    ensures forall i :: 0 <= i < |Freqs(octaves, lacunarity, h, powf)| ==> Freqs(octaves, lacunarity, h, powf)[i] >= 0.0
  {
  }

  /** The weight an octave's signal receives from the previous one. */
  function Weight(signal: real, gain: real): (w: real)
    ensures 0.0 <= w <= 1.0
    ensures 0.0 <= signal * gain <= 1.0 ==> w == signal * gain
  {
    Clamp(signal * gain, 0.0, 1.0)
  }

  /** The running state of the recurrence: the last octave's signal and
      the sum so far. */
  datatype RidgeState = RidgeState(signal: real, sum: real)

  /** The sample the recurrence sees at octave k (k == 0 is the unscaled
      first sample). */
  type Samples = nat -> real

  /** One octave: weight from the previous signal, a fresh ridged sample
      times that weight, and its contribution scaled by the octave's
      spectral weight. */
  function Octave(prev: RidgeState, sample: real, gain: real, offset: real, freq: real): (s: RidgeState)
    ensures s.signal >= 0.0
    ensures s.sum == prev.sum + s.signal * freq
  {
    var weight := Weight(prev.signal, gain);
    MulNonNegative(Ridge(sample, offset), weight);
    var signal := Ridge(sample, offset) * weight;
    RidgeState(signal, prev.sum + signal * freq)
  }

  /** One loop round as the source writes it, statement by statement. */
  method OctaveStep(signal: real, sum: real, sample: real, gain: real, offset: real, freq: real)
    returns (signal': real, sum': real)
    ensures RidgeState(signal', sum') == Octave(RidgeState(signal, sum), sample, gain, offset, freq)
  {
    var weight := signal * gain;
    weight := Clamp(weight, 0.0, 1.0);
    signal' := Ridge(sample, offset);
    signal' := signal' * weight;
    sum' := sum + signal' * freq;
  }

  /** The state after k octaves: the first ridged sample on its own, then
      one `Octave` per loop round, round i using sample i + 1 and spectral
      weight i. */
  function Recurrence(sample: Samples, gain: real, offset: real, freqs: seq<real>, k: nat): (s: RidgeState)
    requires k <= |freqs|
    ensures s.signal >= 0.0
    ensures k == 0 ==> s.signal == s.sum == Ridge(sample(0), offset)
    decreases k
  {
    if k == 0 then
      var r := Ridge(sample(0), offset);
      RidgeState(r, r)
    else
      Octave(Recurrence(sample, gain, offset, freqs, k - 1), sample(k), gain, offset, freqs[k - 1])
  }

  /** The recurrence reads the samples only up to octave k. */
  lemma {:induction false} RecurrenceDependsOnPrefix(s1: Samples, s2: Samples, gain: real, offset: real,
                                                     freqs: seq<real>, k: nat)
    requires k <= |freqs|
    requires forall i :: 0 <= i <= k ==> s1(i) == s2(i)
    ensures Recurrence(s1, gain, offset, freqs, k) == Recurrence(s2, gain, offset, freqs, k)
  {
    if k > 0 {
      RecurrenceDependsOnPrefix(s1, s2, gain, offset, freqs, k - 1);
      assert s1(k) == s2(k);
    }
  }

  /** With non-negative spectral weights the sum never drops below the
      first ridged sample, so in particular it is never negative. */
  lemma {:induction false} SumAtLeastFirst(sample: Samples, gain: real, offset: real, freqs: seq<real>, k: nat)
    requires k <= |freqs|
    requires forall i :: 0 <= i < |freqs| ==> freqs[i] >= 0.0
    ensures Recurrence(sample, gain, offset, freqs, k).sum >= Ridge(sample(0), offset) >= 0.0
  {
    if k > 0 {
      SumAtLeastFirst(sample, gain, offset, freqs, k - 1);
      RecurrenceGrows(sample, gain, offset, freqs, k);
    }
  }

  /** A round with a non-negative spectral weight never lowers the sum. */
  lemma RecurrenceGrows(sample: Samples, gain: real, offset: real, freqs: seq<real>, k: nat)
    requires 0 < k <= |freqs|
    requires freqs[k - 1] >= 0.0
    ensures Recurrence(sample, gain, offset, freqs, k).sum >= Recurrence(sample, gain, offset, freqs, k - 1).sum
  {
    var prev := Recurrence(sample, gain, offset, freqs, k - 1);
    var s := Octave(prev, sample(k), gain, offset, freqs[k - 1]);
    MulNonNegative(s.signal, freqs[k - 1]);
  }

  /** The samples `calc_max` feeds the recurrence: 0 at every octave. */
  function ZeroSamples(): Samples
  {
    k => 0.0
  }

  /** The normaliser: the recurrence over all octaves with every sample 0. */
  function CalcMax(octaves: int, gain: real, offset: real, freqs: seq<real>): (m: real)
    requires |freqs| >= Fbm.OctaveCount(octaves)
    ensures Fbm.OctaveCount(octaves) == 0 ==> m == offset * offset
  {
    Recurrence(ZeroSamples(), gain, offset, freqs, Fbm.OctaveCount(octaves)).sum
  }

  /** The normaliser loop, as written: `ridge(0.0, offset)` on every
      round. */
  method CalcMaxLoop(octaves: int, gain: real, offset: real, freqs: seq<real>) returns (sum: real)
    requires |freqs| >= Fbm.OctaveCount(octaves)
    ensures sum == CalcMax(octaves, gain, offset, freqs)
  {
    var signal := Ridge(0.0, offset);
    sum := signal;
    var i := 0;
    while i < octaves
      invariant 0 <= i <= Fbm.OctaveCount(octaves)
      invariant RidgeState(signal, sum) == Recurrence(ZeroSamples(), gain, offset, freqs, i)
    {
      signal, sum := OctaveStep(signal, sum, 0.0, gain, offset, freqs[i]);
      i := i + 1;
    }
  }

  /** With non-negative spectral weights the normaliser is at least the
      peak ridge offset^2. */
  lemma CalcMaxAtLeastPeak(octaves: int, gain: real, offset: real, freqs: seq<real>)
    requires |freqs| >= Fbm.OctaveCount(octaves)
    requires forall i :: 0 <= i < |freqs| ==> freqs[i] >= 0.0
    ensures CalcMax(octaves, gain, offset, freqs) >= offset * offset
  {
    SumAtLeastFirst(ZeroSamples(), gain, offset, freqs, Fbm.OctaveCount(octaves));
  }

  /** A generator is well formed when it holds one spectral weight per
      octave and the normaliser its parameters determine. */
  ghost predicate Valid(r: RidgedMultiNoise)
  {
    |r.frequencies| == Fbm.OctaveCount(r.octaves)
    && r.maxVal == CalcMax(r.octaves, r.gain, r.offset, r.frequencies)
  }

  function FromSeed(seed: LcgRng.U32, draw: Simplex.IndexSource, octaves: int, gain: real,
                    lacunarity: real, offset: real, h: real, powf: PowF): (r: RidgedMultiNoise)
    requires Simplex.DrawsBelow(draw)
    ensures Valid(r)
    ensures GetSeed(r) == seed
    ensures r.simp == Simplex.FromSeed(seed, draw)
    ensures r.octaves == octaves && r.gain == gain && r.lacunarity == lacunarity && r.offset == offset
    ensures r.frequencies == Freqs(octaves, lacunarity, h, powf)
  {
    var freqs := Freqs(octaves, lacunarity, h, powf);
    RidgedMultiNoise(Simplex.FromSeed(seed, draw), octaves, gain, lacunarity, offset, freqs,
                     CalcMax(octaves, gain, offset, freqs))
  }

  function GetSeed(r: RidgedMultiNoise): (s: LcgRng.U32)
    ensures s == r.simp.seed
  {
    Simplex.GetSeed(r.simp)
  }

  /** The kernel sampled at octave k: at the point scaled by
      lacunarity^k. */
  function SampleAt(kernel: Kernel, p: Point, lacunarity: real): Samples
  {
    (k: nat) => kernel(Scale(p, Pow(lacunarity, k)))
  }

  /** Multiplying the coordinates by the lacunarity once more moves from
      octave i's point to octave i + 1's. */
  lemma ScaleByNextPower(p: Point, lacunarity: real, i: nat)
    ensures Scale(Scale(p, Pow(lacunarity, i)), lacunarity) == Scale(p, Pow(lacunarity, i + 1))
  {
    ScaleTwice(p, Pow(lacunarity, i), lacunarity);
    assert Pow(lacunarity, i + 1) == Pow(lacunarity, i) * lacunarity;
  }

  /** Ridged multifractal at a point: the recurrence over `octaves + 1`
      samples, its sum remapped from [0, maxVal] to [0, 1]. */
  function Noise(r: RidgedMultiNoise, kernel: Kernel, p: Point): (v: Value)
    requires |r.frequencies| >= Fbm.OctaveCount(r.octaves)
    ensures v.NonFinite? <==> r.maxVal == 0.0
  {
    var s := Recurrence(SampleAt(kernel, p, r.lacunarity), r.gain, r.offset, r.frequencies,
                        Fbm.OctaveCount(r.octaves));
    Bound(s.sum, 0.0, 1.0, 0.0, r.maxVal)
  }

  /** The evaluation loop: the coordinates are multiplied by the
      lacunarity once per round, so in round i the kernel is sampled at
      lacunarity^(i+1) times the point. */
  method GetValue(r: RidgedMultiNoise, kernel: Kernel, p: Point) returns (v: Value)
    requires |r.frequencies| >= Fbm.OctaveCount(r.octaves)
    ensures v == Noise(r, kernel, p)
  {
    var q := p;
    ScaleByOne(p);
    var signal := Ridge(kernel(p), r.offset);
    var sum := signal;
    var i := 0;
    while i < r.octaves
      invariant 0 <= i <= Fbm.OctaveCount(r.octaves)
      invariant q == Scale(p, Pow(r.lacunarity, i))
      invariant RidgeState(signal, sum)
                == Recurrence(SampleAt(kernel, p, r.lacunarity), r.gain, r.offset, r.frequencies, i)
    {
      ScaleByNextPower(p, r.lacunarity, i);
      q := Scale(q, r.lacunarity);
      assert SampleAt(kernel, p, r.lacunarity)(i + 1) == kernel(q);
      signal, sum := OctaveStep(signal, sum, kernel(q), r.gain, r.offset, r.frequencies[i]);
      i := i + 1;
    }
    v := Bound(sum, 0.0, 1.0, 0.0, r.maxVal);
  }

  /** The weight grows with the previous signal (for gain >= 0). */
  lemma WeightMonotone(s: real, t: real, gain: real)
    requires s <= t && gain >= 0.0
    ensures Weight(s, gain) <= Weight(t, gain)
  {
    MulMonotone(s, t, gain);
    ClampMonotone(s * gain, t * gain, 0.0, 1.0);
  }

  /** One octave preserves domination: a smaller previous signal and sum,
      and a sample within the offset, against the peak sample 0. */
  lemma OctaveDominated(prev: RidgeState, zprev: RidgeState, sample: real, gain: real,
                        offset: real, freq: real)
    requires 0.0 <= prev.signal <= zprev.signal && prev.sum <= zprev.sum
    requires gain >= 0.0 && freq >= 0.0 && Abs(sample) <= offset
    ensures Octave(prev, sample, gain, offset, freq).signal <= Octave(zprev, 0.0, gain, offset, freq).signal
    ensures Octave(prev, sample, gain, offset, freq).sum <= Octave(zprev, 0.0, gain, offset, freq).sum
  {
    var w := Weight(prev.signal, gain);
    var zw := Weight(zprev.signal, gain);
    var ridge := Ridge(sample, offset);
    var peak := Ridge(0.0, offset);
    WeightMonotone(prev.signal, zprev.signal, gain);
    RidgeBelowPeak(sample, offset);
    ProductDominated(ridge, peak, w, zw);
    var s := Octave(prev, sample, gain, offset, freq);
    var z := Octave(zprev, 0.0, gain, offset, freq);
    assert s.signal == ridge * w && z.signal == peak * zw;
    AccumulateDominated(prev.sum, zprev.sum, s.signal, z.signal, freq);
  }

  /** Adding a smaller weighted signal to a smaller sum stays smaller. */
  lemma AccumulateDominated(a: real, b: real, x: real, y: real, f: real)
    requires a <= b && x <= y && f >= 0.0
    ensures a + x * f <= b + y * f
  {
    MulMonotone(x, y, f);
    var u := x * f;
    var v := y * f;
    assert u <= v;
    assert a + u <= b + v;
  }

  /** Against the all-zero samples of the normaliser, samples in [-1, 1]
      (with offset >= 1, gain >= 0 and non-negative spectral weights) give
      a signal and a sum no larger, octave by octave. */
  lemma {:induction false} DominatedByZeroSamples(sample: Samples, gain: real, offset: real,
                                                  freqs: seq<real>, k: nat)
    requires k <= |freqs|
    requires offset >= 1.0 && gain >= 0.0
    requires forall i :: 0 <= i < |freqs| ==> freqs[i] >= 0.0
    requires forall i :: 0 <= i <= k ==> -1.0 <= sample(i) <= 1.0
    ensures Recurrence(sample, gain, offset, freqs, k).signal
            <= Recurrence(ZeroSamples(), gain, offset, freqs, k).signal
    ensures Recurrence(sample, gain, offset, freqs, k).sum
            <= Recurrence(ZeroSamples(), gain, offset, freqs, k).sum
  {
    assert -1.0 <= sample(k) <= 1.0;
    assert ZeroSamples()(k) == 0.0;
    if k == 0 {
      RidgeBelowPeak(sample(0), offset);
    } else {
      DominatedByZeroSamples(sample, gain, offset, freqs, k - 1);
      OctaveDominated(Recurrence(sample, gain, offset, freqs, k - 1),
                      Recurrence(ZeroSamples(), gain, offset, freqs, k - 1),
                      sample(k), gain, offset, freqs[k - 1]);
    }
  }

  /** The range theorem for the generator `from_seed` builds: offset >= 1,
      gain >= 0 and a `powf` that is non-negative for the lacunarity put
      RidgedMulti of a kernel in [-1, 1] into [0, 1]. */
  lemma FromSeedInRange(seed: LcgRng.U32, draw: Simplex.IndexSource, octaves: int, gain: real,
                        lacunarity: real, offset: real, h: real, powf: PowF, kernel: Kernel, p: Point)
    requires Simplex.DrawsBelow(draw) && InUnitRange(kernel)
    requires offset >= 1.0 && gain >= 0.0
    requires forall e: real :: powf(lacunarity, e) >= 0.0
    ensures var r := FromSeed(seed, draw, octaves, gain, lacunarity, offset, h, powf);
            Noise(r, kernel, p).Finite? && 0.0 <= Noise(r, kernel, p).value <= 1.0
  {
    FreqsNonNegative(octaves, lacunarity, h, powf);
    NoiseInRange(FromSeed(seed, draw, octaves, gain, lacunarity, offset, h, powf), kernel, p);
  }

  /** The range promise: with offset >= 1, gain >= 0, non-negative
      spectral weights and a kernel in [-1, 1], the sum lies in
      [0, maxVal] and the output in [0, 1]. */
  lemma NoiseInRange(r: RidgedMultiNoise, kernel: Kernel, p: Point)
    requires Valid(r) && InUnitRange(kernel)
    requires r.offset >= 1.0 && r.gain >= 0.0
    requires forall i :: 0 <= i < |r.frequencies| ==> r.frequencies[i] >= 0.0
    ensures r.maxVal >= 1.0
    ensures Noise(r, kernel, p).Finite?
    ensures 0.0 <= Noise(r, kernel, p).value <= 1.0
  {
    var n := Fbm.OctaveCount(r.octaves);
    var sample := SampleAt(kernel, p, r.lacunarity);
    forall i | 0 <= i <= n
      ensures -1.0 <= sample(i) <= 1.0
    {
      assert sample(i) == kernel(Scale(p, Pow(r.lacunarity, i)));
    }
    DominatedByZeroSamples(sample, r.gain, r.offset, r.frequencies, n);
    SumAtLeastFirst(sample, r.gain, r.offset, r.frequencies, n);
    CalcMaxAtLeastPeak(r.octaves, r.gain, r.offset, r.frequencies);
    MulMonotone(1.0, r.offset, r.offset);
    var sum := Recurrence(sample, r.gain, r.offset, r.frequencies, n).sum;
    BoundInRange(sum, 0.0, 1.0, 0.0, r.maxVal);
  }

  /** `calc_max` is the evaluation with the kernel fixed at 0: for a kernel
      that is 0 everywhere the output is exactly 1 (when the normaliser is
      not 0). */
  lemma ZeroKernelGivesOne(r: RidgedMultiNoise, kernel: Kernel, p: Point)
    requires Valid(r) && r.maxVal != 0.0
    requires forall q: Point :: kernel(q) == 0.0
    ensures Noise(r, kernel, p) == Finite(1.0)
  {
    var n := Fbm.OctaveCount(r.octaves);
    var sample := SampleAt(kernel, p, r.lacunarity);
    forall i | 0 <= i <= n
      ensures sample(i) == ZeroSamples()(i)
    {
      assert sample(i) == kernel(Scale(p, Pow(r.lacunarity, i)));
    }
    RecurrenceDependsOnPrefix(sample, ZeroSamples(), r.gain, r.offset, r.frequencies, n);
  }

  /** Without octaves the kernel is sampled once, at the point itself, and
      that ridged sample enters the sum with no spectral weight. */
  lemma NoOctaves(r: RidgedMultiNoise, kernel: Kernel, p: Point)
    requires Valid(r) && r.octaves <= 0
    ensures r.maxVal == r.offset * r.offset
    ensures Noise(r, kernel, p) == Bound(Ridge(kernel(p), r.offset), 0.0, 1.0, 0.0, r.maxVal)
  {
    ScaleByOne(p);
    assert Pow(r.lacunarity, 0) == 1.0;
    assert SampleAt(kernel, p, r.lacunarity)(0) == kernel(p);
    assert ZeroSamples()(0) == 0.0;
  }
}
