/**
  Billow: the FBM octave loop over the absolute value of each kernel
  sample, divided by the same normaliser so that it lands in [0, 1].
*/
module Billow {
  import opened Utils
  import opened NoiseGen
  import Simplex
  import LcgRng
  import Fbm

  datatype BillowNoise = BillowNoise(simp: Simplex.SimplexNoise, octaves: int,
                                     persistence: real, gain: real, maxVal: real)

  /** Billow's normaliser loop, which repeats FBM's statement for
      statement: the sum of persistence^i over all octaves. */
  method CalcMax(octaves: int, persistence: real) returns (n: real)
    ensures n == Fbm.GeomSum(Fbm.OctaveCount(octaves), persistence)
  {
    var a := 1.0;
    n := 0.0;
    var i := 0;
    while i < octaves
      invariant 0 <= i <= Fbm.OctaveCount(octaves)
      invariant a == Pow(persistence, i)
      invariant n == Fbm.GeomSum(i, persistence)
    {
      n := n + a;
      a := a * persistence;
      i := i + 1;
    }
  }

  ghost predicate Valid(b: BillowNoise)
  {
    b.maxVal == Fbm.GeomSum(Fbm.OctaveCount(b.octaves), b.persistence)
  }

  function FromSeed(seed: LcgRng.U32, draw: Simplex.IndexSource, octaves: int,
                    persistence: real, gain: real): (r: BillowNoise)
    requires Simplex.DrawsBelow(draw)
    ensures Valid(r)
    ensures GetSeed(r) == seed
    ensures r.simp == Simplex.FromSeed(seed, draw)
    ensures r.octaves == octaves && r.persistence == persistence && r.gain == gain
    ensures octaves >= 1 && persistence >= 0.0 ==> r.maxVal >= 1.0
    ensures octaves <= 0 ==> r.maxVal == 0.0
  {
    Fbm.NormaliserFacts(octaves, persistence);
    BillowNoise(Simplex.FromSeed(seed, draw), octaves, persistence, gain,
                Fbm.GeomSum(Fbm.OctaveCount(octaves), persistence))
  }

  function GetSeed(b: BillowNoise): (r: LcgRng.U32)
    ensures r == b.simp.seed
  {
    Simplex.GetSeed(b.simp)
  }

  /** The first `n` octaves of absolute samples: the sum over i < n of
      |kernel(p * gain^i)| * persistence^i. */
  function AbsOctaveSum(kernel: Kernel, p: Point, n: nat, persistence: real, gain: real): real
  {
    if n == 0 then 0.0
    else AbsOctaveSum(kernel, p, n - 1, persistence, gain) + AbsOctave(kernel, p, n - 1, persistence, gain)
  }

  /** Octave i's term: the absolute sample at gain^i times the point,
      weighted by persistence^i. */
  function AbsOctave(kernel: Kernel, p: Point, i: nat, persistence: real, gain: real): real
  {
    Abs(kernel(Scale(p, Pow(gain, i)))) * Pow(persistence, i)
  }

  /** The absolute octave sum is blind to the kernel's sign: negating the
      kernel leaves it unchanged, for every number of octaves. */
  lemma {:induction false} AbsOctaveSumEven(kernel: Kernel, p: Point, n: nat, persistence: real, gain: real)
    ensures AbsOctaveSum(Negate(kernel), p, n, persistence, gain) == AbsOctaveSum(kernel, p, n, persistence, gain)
  {
    if n > 0 {
      AbsOctaveSumEven(kernel, p, n - 1, persistence, gain);
      assert AbsOctave(Negate(kernel), p, n - 1, persistence, gain) == AbsOctave(kernel, p, n - 1, persistence, gain);
    }
  }

  /** For a kernel in [-1, 1] and non-negative persistence, octave i's term
      lies in [0, persistence^i]. */
  lemma AbsOctaveBounded(kernel: Kernel, p: Point, i: nat, persistence: real, gain: real)
    requires InUnitRange(kernel) && persistence >= 0.0
    ensures 0.0 <= AbsOctave(kernel, p, i, persistence, gain) <= Pow(persistence, i)
  {
    var k := kernel(Scale(p, Pow(gain, i)));
    var w := Pow(persistence, i);
    assert -1.0 <= k <= 1.0;
    var t := Abs(k);
    assert t <= 1.0;
    PowNonNegative(persistence, i);
    UnitScale(t, w);
    assert AbsOctave(kernel, p, i, persistence, gain) == t * w;
    assert t * w <= w;
  }

  /** With non-negative persistence the accumulator is never negative,
      after any number of octaves. */
  lemma {:induction false} AbsOctaveSumNonNegative(kernel: Kernel, p: Point, n: nat, persistence: real, gain: real)
    requires persistence >= 0.0
    ensures AbsOctaveSum(kernel, p, n, persistence, gain) >= 0.0
  {
    if n > 0 {
      AbsOctaveSumNonNegative(kernel, p, n - 1, persistence, gain);
      var signal := Abs(kernel(Scale(p, Pow(gain, n - 1))));
      PowNonNegative(persistence, n - 1);
      MulNonNegative(signal, Pow(persistence, n - 1));
    }
  }

  /** Billow at a point: the absolute octave sum divided by the normaliser;
      without octaves that is 0 / 0. */
  function Noise(b: BillowNoise, kernel: Kernel, p: Point): (r: Value)
    ensures r.NonFinite? <==> b.maxVal == 0.0
  {
    Div(AbsOctaveSum(kernel, p, Fbm.OctaveCount(b.octaves), b.persistence, b.gain), b.maxVal)
  }

  /** The evaluation loop: after i octaves the frequency is gain^i, the
      amplitude persistence^i and the accumulator the first i absolute
      octaves. */
  method GetValue(b: BillowNoise, kernel: Kernel, p: Point) returns (r: Value)
    ensures r == Noise(b, kernel, p)
  {
    var n := 0.0;
    var freq := 1.0;
    var amp := 1.0;
    var i := 0;
    while i < b.octaves
      invariant 0 <= i <= Fbm.OctaveCount(b.octaves)
      invariant freq == Pow(b.gain, i)
      invariant amp == Pow(b.persistence, i)
      invariant n == AbsOctaveSum(kernel, p, i, b.persistence, b.gain)
    {
      var signal := kernel(Scale(p, freq));
      signal := Abs(signal);
      n := n + signal * amp;
      freq := freq * b.gain;
      amp := amp * b.persistence;
      i := i + 1;
    }
    r := Div(n, b.maxVal);
  }

  /** With a kernel in [-1, 1] and non-negative persistence, the absolute
      octave sum never exceeds the normaliser. */
  lemma {:induction false} AbsOctaveSumBounded(kernel: Kernel, p: Point, n: nat, persistence: real, gain: real)
    requires InUnitRange(kernel) && persistence >= 0.0
    ensures AbsOctaveSum(kernel, p, n, persistence, gain) <= Fbm.GeomSum(n, persistence)
  {
    if n > 0 {
      AbsOctaveSumBounded(kernel, p, n - 1, persistence, gain);
      AbsOctaveBounded(kernel, p, n - 1, persistence, gain);
    }
  }

  /** The promise of the normaliser: for a kernel in [-1, 1], at least one
      octave and non-negative persistence, Billow lies in [0, 1]. */
  lemma NoiseInRange(b: BillowNoise, kernel: Kernel, p: Point)
    requires Valid(b) && InUnitRange(kernel)
    requires b.octaves >= 1 && b.persistence >= 0.0
    ensures Noise(b, kernel, p).Finite?
    ensures 0.0 <= Noise(b, kernel, p).value <= 1.0
  {
    var n := AbsOctaveSum(kernel, p, b.octaves, b.persistence, b.gain);
    AbsOctaveSumBounded(kernel, p, b.octaves, b.persistence, b.gain);
    AbsOctaveSumNonNegative(kernel, p, b.octaves, b.persistence, b.gain);
    Fbm.GeomSumAtLeastOne(b.octaves, b.persistence);
    UnitQuotient(n, b.maxVal);
  }

  /** Billow is even in its base noise: negating the kernel leaves the
      result unchanged. */
  lemma NoiseEven(b: BillowNoise, kernel: Kernel, p: Point)
    ensures Noise(b, Negate(kernel), p) == Noise(b, kernel, p)
  {
    AbsOctaveSumEven(kernel, p, Fbm.OctaveCount(b.octaves), b.persistence, b.gain);
  }

  /** The range theorem for the generator `from_seed` builds: at least one
      octave and non-negative persistence put Billow of a kernel in
      [-1, 1] into [0, 1]. */
  lemma FromSeedInRange(seed: LcgRng.U32, draw: Simplex.IndexSource, octaves: int, persistence: real,
                        gain: real, kernel: Kernel, p: Point)
    requires Simplex.DrawsBelow(draw) && InUnitRange(kernel)
    requires octaves >= 1 && persistence >= 0.0
    ensures var b := FromSeed(seed, draw, octaves, persistence, gain);
            Noise(b, kernel, p).Finite? && 0.0 <= Noise(b, kernel, p).value <= 1.0
  {
    NoiseInRange(FromSeed(seed, draw, octaves, persistence, gain), kernel, p);
  }

  /** With a single octave Billow is the absolute value of the kernel
      sample. */
  lemma SingleOctave(b: BillowNoise, kernel: Kernel, p: Point)
    requires Valid(b) && b.octaves == 1
    ensures Noise(b, kernel, p) == Finite(Abs(kernel(p)))
  {
    ScaleByOne(p);
    assert Pow(b.persistence, 0) == 1.0 && Pow(b.gain, 0) == 1.0;
    assert Fbm.GeomSum(1, b.persistence) == 1.0;
    assert AbsOctaveSum(kernel, p, 1, b.persistence, b.gain) == Abs(kernel(p));
  }
}
