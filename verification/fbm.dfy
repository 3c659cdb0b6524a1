/**
  Fractional Brownian motion: the sum of `octaves` samples of the base
  kernel, octave `i` taken at `gain^i` times the coordinates with weight
  `persistence^i`, remapped from [-max_val, max_val] to [-1, 1].
*/
module Fbm {
  import opened Utils
  import opened NoiseGen
  import Simplex
  import LcgRng

  /** An FBM generator. `maxVal` is the normaliser computed once, at
      construction, from `octaves` and `persistence`. */
  datatype FbmNoise = FbmNoise(simp: Simplex.SimplexNoise, octaves: int,
                               persistence: real, gain: real, maxVal: real)

  /** Number of iterations of `for i in range(0, octaves)`; none when
      `octaves` is zero or negative. */
  function OctaveCount(octaves: int): (n: nat)
    ensures octaves >= 0 ==> n == octaves
    ensures octaves <= 0 ==> n == 0
  {
    if octaves < 0 then 0 else octaves
  }

  /** The geometric sum p^0 + p^1 + ... + p^(n-1). */
  function GeomSum(n: nat, p: real): real
  {
    if n == 0 then 0.0 else GeomSum(n - 1, p) + Pow(p, n - 1)
  }

  lemma {:induction false} GeomSumAtLeastOne(n: nat, p: real)
    requires n >= 1 && p >= 0.0
    ensures GeomSum(n, p) >= 1.0
  {
    if n > 1 {
      GeomSumAtLeastOne(n - 1, p);
      PowNonNegative(p, n - 1);
    }
  }

  /** The normaliser is 0 without octaves and at least 1 with some
      octaves and non-negative persistence. */
  lemma NormaliserFacts(octaves: int, persistence: real)
    ensures octaves <= 0 ==> GeomSum(OctaveCount(octaves), persistence) == 0.0
    ensures octaves >= 1 && persistence >= 0.0 ==> GeomSum(OctaveCount(octaves), persistence) >= 1.0
  {
    if octaves >= 1 && persistence >= 0.0 {
      GeomSumAtLeastOne(octaves, persistence);
    }
  }

  /** The normaliser loop: the running term `a` is p^i after i rounds and
      the result is the geometric sum over all octaves (0 when there are
      none). */
  method CalcMax(octaves: int, persistence: real) returns (n: real)
    ensures n == GeomSum(OctaveCount(octaves), persistence)
  {
    var a := 1.0;
    n := 0.0;
    var i := 0;
    while i < octaves
      invariant 0 <= i <= OctaveCount(octaves)
      invariant a == Pow(persistence, i)
      invariant n == GeomSum(i, persistence)
    {
      n := n + a;
      a := a * persistence;
      i := i + 1;
    }
  }

  /** The generator's normaliser is the one its parameters determine. */
  ghost predicate Valid(f: FbmNoise)
  {
    f.maxVal == GeomSum(OctaveCount(f.octaves), f.persistence)
  }

  function FromSeed(seed: LcgRng.U32, draw: Simplex.IndexSource, octaves: int,
                    persistence: real, gain: real): (r: FbmNoise)
    requires Simplex.DrawsBelow(draw)
    ensures Valid(r)
    ensures GetSeed(r) == seed
    ensures r.simp == Simplex.FromSeed(seed, draw)
    ensures r.octaves == octaves && r.persistence == persistence && r.gain == gain
    ensures octaves >= 1 && persistence >= 0.0 ==> r.maxVal >= 1.0
    ensures octaves <= 0 ==> r.maxVal == 0.0
  {
    NormaliserFacts(octaves, persistence);
    FbmNoise(Simplex.FromSeed(seed, draw), octaves, persistence, gain,
             GeomSum(OctaveCount(octaves), persistence))
  }

  function GetSeed(f: FbmNoise): (r: LcgRng.U32)
    ensures r == f.simp.seed
  {
    Simplex.GetSeed(f.simp)
  }

  /** The first `n` octaves: the sum over i < n of
      persistence^i * kernel(p * gain^i). */
  function OctaveSum(kernel: Kernel, p: Point, n: nat, persistence: real, gain: real): real
  {
    if n == 0 then 0.0
    else OctaveSum(kernel, p, n - 1, persistence, gain) + Octave(kernel, p, n - 1, persistence, gain)
  }

  /** Octave i's term: the kernel sampled at gain^i times the point,
      weighted by persistence^i. */
  function Octave(kernel: Kernel, p: Point, i: nat, persistence: real, gain: real): real
  {
    Pow(persistence, i) * kernel(Scale(p, Pow(gain, i)))
  }

  /** The octave sum is linear in the kernel: negating the kernel negates
      the sum, for every number of octaves. */
  lemma {:induction false} OctaveSumOdd(kernel: Kernel, p: Point, n: nat, persistence: real, gain: real)
    ensures OctaveSum(Negate(kernel), p, n, persistence, gain) == -OctaveSum(kernel, p, n, persistence, gain)
  {
    if n > 0 {
      OctaveSumOdd(kernel, p, n - 1, persistence, gain);
      OctaveOdd(kernel, p, n - 1, persistence, gain);
    }
  }

  /** Negating the kernel negates each octave's term. */
  lemma OctaveOdd(kernel: Kernel, p: Point, i: nat, persistence: real, gain: real)
    ensures Octave(Negate(kernel), p, i, persistence, gain) == -Octave(kernel, p, i, persistence, gain)
  {
    var a := Pow(persistence, i);
    var q := Scale(p, Pow(gain, i));
    var k := kernel(q);
    assert Negate(kernel)(q) == -k;
    assert a * -k == -(a * k);
  }

  /** FBM at a point: the octave sum remapped from [-maxVal, maxVal] to
      [-1, 1]. With no normaliser (no octaves) the remap divides by zero. */
  function Noise(f: FbmNoise, kernel: Kernel, p: Point): (r: Value)
    ensures r.NonFinite? <==> f.maxVal == 0.0
  {
    Bound(OctaveSum(kernel, p, OctaveCount(f.octaves), f.persistence, f.gain),
          -1.0, 1.0, -f.maxVal, f.maxVal)
  }

  /** The evaluation loop: after i octaves the frequency is gain^i, the
      amplitude persistence^i and the accumulator the first i octaves. */
  method GetValue(f: FbmNoise, kernel: Kernel, p: Point) returns (r: Value)
    ensures r == Noise(f, kernel, p)
  {
    var n := 0.0;
    var freq := 1.0;
    var amp := 1.0;
    var i := 0;
    while i < f.octaves
      invariant 0 <= i <= OctaveCount(f.octaves)
      invariant freq == Pow(f.gain, i)
      invariant amp == Pow(f.persistence, i)
      invariant n == OctaveSum(kernel, p, i, f.persistence, f.gain)
    {
      n := n + amp * kernel(Scale(p, freq));
      freq := freq * f.gain;
      amp := amp * f.persistence;
      i := i + 1;
    }
    r := Bound(n, -1.0, 1.0, -f.maxVal, f.maxVal);
  }

  /** One weighted sample of a kernel in [-1, 1] lies in [-a, a]. */
  lemma WeightedSampleBounded(a: real, k: real)
    requires a >= 0.0 && -1.0 <= k <= 1.0
    ensures -a <= a * k <= a
  {
    MulMonotone(k, 1.0, a);
    MulMonotone(-1.0, k, a);
  }

  /** With a kernel in [-1, 1] and non-negative persistence, the octave sum
      never exceeds the normaliser in absolute value. */
  lemma {:induction false} OctaveSumBounded(kernel: Kernel, p: Point, n: nat, persistence: real, gain: real)
    requires InUnitRange(kernel) && persistence >= 0.0
    ensures -GeomSum(n, persistence) <= OctaveSum(kernel, p, n, persistence, gain) <= GeomSum(n, persistence)
  {
    if n > 0 {
      OctaveSumBounded(kernel, p, n - 1, persistence, gain);
      OctaveBounded(kernel, p, n - 1, persistence, gain);
    }
  }

  /** For a kernel in [-1, 1] and non-negative persistence, octave i's
      term lies in [-persistence^i, persistence^i]. */
  lemma OctaveBounded(kernel: Kernel, p: Point, i: nat, persistence: real, gain: real)
    requires InUnitRange(kernel) && persistence >= 0.0
    ensures -Pow(persistence, i) <= Octave(kernel, p, i, persistence, gain) <= Pow(persistence, i)
  {
    var a := Pow(persistence, i);
    var k := kernel(Scale(p, Pow(gain, i)));
    assert -1.0 <= k <= 1.0;
    PowNonNegative(persistence, i);
    WeightedSampleBounded(a, k);
    assert Octave(kernel, p, i, persistence, gain) == a * k;
  }

  /** The promise of the normaliser: for a kernel in [-1, 1], at least one
      octave and non-negative persistence, FBM lies in [-1, 1]. */
  lemma NoiseInRange(f: FbmNoise, kernel: Kernel, p: Point)
    requires Valid(f) && InUnitRange(kernel)
    requires f.octaves >= 1 && f.persistence >= 0.0
    ensures Noise(f, kernel, p).Finite?
    ensures -1.0 <= Noise(f, kernel, p).value <= 1.0
  {
    var n := OctaveSum(kernel, p, f.octaves, f.persistence, f.gain);
    OctaveSumBounded(kernel, p, f.octaves, f.persistence, f.gain);
    GeomSumAtLeastOne(f.octaves, f.persistence);
    BoundInRange(n, -1.0, 1.0, -f.maxVal, f.maxVal);
  }

  /** FBM is odd in its base noise: with a normaliser, negating the kernel
      negates the result. */
  lemma NoiseOdd(f: FbmNoise, kernel: Kernel, p: Point)
    requires f.maxVal != 0.0
    ensures Noise(f, Negate(kernel), p).Finite? && Noise(f, kernel, p).Finite?
    ensures Noise(f, Negate(kernel), p).value == -Noise(f, kernel, p).value
  {
    OctaveSumOdd(kernel, p, OctaveCount(f.octaves), f.persistence, f.gain);
    BoundSymmetric(OctaveSum(kernel, p, OctaveCount(f.octaves), f.persistence, f.gain), f.maxVal);
  }

  /** The range theorem for the generator `from_seed` builds: at least one
      octave and non-negative persistence put FBM of a kernel in [-1, 1]
      into [-1, 1]. */
  lemma FromSeedInRange(seed: LcgRng.U32, draw: Simplex.IndexSource, octaves: int, persistence: real,
                        gain: real, kernel: Kernel, p: Point)
    requires Simplex.DrawsBelow(draw) && InUnitRange(kernel)
    requires octaves >= 1 && persistence >= 0.0
    ensures var f := FromSeed(seed, draw, octaves, persistence, gain);
            Noise(f, kernel, p).Finite? && -1.0 <= Noise(f, kernel, p).value <= 1.0
  {
    NoiseInRange(FromSeed(seed, draw, octaves, persistence, gain), kernel, p);
  }

  /** With a single octave the normaliser is 1 and FBM is the kernel
      sample itself. */
  lemma SingleOctave(f: FbmNoise, kernel: Kernel, p: Point)
    requires Valid(f) && f.octaves == 1
    ensures f.maxVal == 1.0
    ensures Noise(f, kernel, p) == Finite(kernel(p))
  {
    ScaleByOne(p);
    assert Pow(f.persistence, 0) == 1.0 && Pow(f.gain, 0) == 1.0;
    assert GeomSum(1, f.persistence) == 1.0;
    assert OctaveSum(kernel, p, 1, f.persistence, f.gain) == kernel(p);
  }

  /** With no octaves the normaliser is 0 and the final remap divides by
      zero. */
  lemma NoOctaves(f: FbmNoise, kernel: Kernel, p: Point)
    requires Valid(f) && f.octaves <= 0
    ensures Noise(f, kernel, p) == NonFinite
  {
  }
}
