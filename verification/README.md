# rust-noise in Dafny

A model of the deterministic core of the `rust-noise` library: the 32-bit
linear congruential generator, the seeded 256-entry permutation table of
the simplex kernel, the integer skeleton of the simplex kernel (lattice
masking, chained table lookups, gradient selection, corner choice,
falloff cut-off), the scalar helpers of `utils.rs`, and the four fractal
combinators FBM, Billow, RidgedMulti and Voronoi.

Floats are idealised as `real` and `floor()` as `.Floor`. A division by zero
cannot be treated as an error, because the library carries on with NaN or
infinity. It is modelled by `Utils.Value = Finite(real) | NonFinite`, so
`bound` with an empty source range and Billow's `n / max_val` with no
octaves yield `NonFinite`. The library's `u32` arithmetic wraps silently.
`LcgRng.Step` spells the wrap out and proves that it equals the textbook
step taken modulo 2^32.

The combinators do not see the simplex kernel's arithmetic. They take
their base generator as a parameter `kernel: Point -> real`, where `Point`
is a 2D or a 3D point. One function therefore covers both `get_value2d`
and `get_value3d`. `Simplex.AsKernel` is the kernel the library actually
plugs in. The range theorems assume the kernel stays in [-1, 1]
(`NoiseGen.InUnitRange`).

Each combinator follows the same pattern:
- a reference definition of what it computes (`Noise`, a recursive sum or fold);
- the source's loop as a method (`GetValue`, `CalcMax`, ...) proved equal to that definition;
- lemmas about the definition: range, special cases and the normaliser.

Several quirks of the code are modelled as written, not corrected:
- In `get_value2d`, `j` is computed from `x + s`, like `i` (`src/gen/simplex.rs:36`). So `i == j` always holds (`Simplex.Skew2`).
- The 2D middle corner's offset is `x0 - (i1 + G2)` (`src/gen/simplex.rs:53-54`).
- `lerp(a, b, t)` is `(a - b) * t + a`, which moves away from `b`: `lerp(0, 10, 0.5) == -5` (`Utils.LerpIsNotMidpoint`). The commented-out test in `src/utils.rs:57` expects 5. That test is not a property of the code.
- Voronoi's initial distance is `2147483647.0`, i.e. 2^31 - 1. The comment next to it says 2^31.

Two further points follow the program as written:
- The example programs pass a zoom argument (`examples/select.rs:18-21`) that the library's constructors do not take. The model has no zoom.
- The falloff test is `t < 0.0` (`src/gen/simplex.rs:66`, `157`). At `t == 0` the contribution `0^4 * dot` is 0.

## Model

| member | source | states |
|---|---|---|
| LcgRng.Step | src/lcgrng.rs:13-15 | the wrapping multiply followed by the wrapping add equals `(1664525 * state + 1013904223) mod 2^32` |
| LcgRng.AddMod | src/lcgrng.rs:15 | reducing the product modulo 2^32 before adding the increment does not change the result modulo 2^32, which is why the two wrapping operations compose into one modular step |
| LcgRng.WrapMul | src/lcgrng.rs:15 | the wrapping u32 product is the true product when that fits in 32 bits, and always differs from it by a multiple of 2^32 |
| LcgRng.Reduce | src/lcgrng.rs:15 | proof helper: reducing modulo 2^32 gives a u32, keeps a value that already fits, and removes a multiple of 2^32 |
| LcgRng.WrapAdd | src/lcgrng.rs:15 | the wrapping u32 sum is the true sum when that fits, and otherwise the true sum minus 2^32 (a sum of two u32 values overflows at most once) |
| LcgRng.NextU32 | src/lcgrng.rs:12-17 | the new state is the LCG step of the old one and is exactly the value returned; the seed field is untouched |
| LcgRng.FromSeed | src/lcgrng.rs:26-29 | seed and state are both the given seed, so the first value drawn is the LCG step of the seed |
| LcgRng.Reseed | src/lcgrng.rs:21-24 | re-seeding yields the very generator `from_seed` would make, whatever the old state |
| LcgRng.Outputs | src/lcgrng.rs:12-17 | the next n values drawn are the states after 1, 2, ..., n steps of the recurrence |
| LcgRng.StepNShift | src/lcgrng.rs:12-17 | iterating from one step ahead is iterating one step more, for every count up to n |
| LcgRng.SameStateSameOutputs | src/lcgrng.rs:12-17 | two generators with equal state produce identical output sequences of every length |
| LcgRng.ReseedReplays | src/lcgrng.rs:21-29 | after `reseed(s)` the generator replays exactly the stream of `from_seed(s)` |
| Simplex.Identity | src/gen/simplex.rs:214-216 | the table before shuffling holds value i at position i, for all n positions |
| Simplex.Swap | src/gen/simplex.rs:217 | a swap exchanges the two entries, leaves every other entry in place and keeps the multiset of values |
| Simplex.ShuffleDown | src/gen/simplex.rs:217 | the shuffle keeps the length and the multiset of values, and never touches positions at or above the current one |
| Simplex.Shuffle | src/gen/simplex.rs:217 | the swap loop (from the last position down to position 1, each swapped with an index drawn at or below it) computes the recursive shuffle and yields a permutation of its input |
| Simplex.IdentityDistinct | src/gen/simplex.rs:214-216 | the identity table holds no value twice |
| Simplex.PermutationFacts | src/gen/simplex.rs:211-218 | a permutation of 0..n-1 has length n, holds only values below n, holds every value below n and has pairwise distinct entries |
| Simplex.DistinctFromCounts | src/gen/simplex.rs:211-218 | a sequence in which no value occurs twice has pairwise distinct entries |
| Simplex.InitPerm | src/gen/simplex.rs:211-218 | for every seed and every index source drawing below its bound, the table is a permutation of 0..255 |
| Simplex.InitPermLoop | src/gen/simplex.rs:211-218 | filling the table with the identity and then shuffling it with the LCG seeded by the seed produces exactly `InitPerm(seed)` |
| Simplex.FromSeed | src/gen/simplex.rs:196-200 | the generator stores the seed and the table `init_perm` builds from it, which is a permutation of 0..255 |
| Simplex.SetSeed | src/gen/simplex.rs:202-209 | re-seeding gives the generator `from_seed` makes, independent of the old state; `get_seed` returns the new seed |
| Simplex.GetSeed | src/gen/simplex.rs:207-209 | the seed reported is the one stored, which `FromSeed` and `SetSeed` set to their argument |
| Simplex.SetOwnSeed | src/gen/simplex.rs:202-209 | re-seeding a seeded generator with the seed it reports gives back the same generator |
| Simplex.LowByte | src/gen/simplex.rs:58-59 | `i & 0xff` lies in 0..255 and differs from i by a multiple of 256, negative i included |
| Simplex.LowByteShift | src/gen/simplex.rs:147-149 | masking forgets a shift of the lattice index by 512 |
| Simplex.Hash2 | src/gen/simplex.rs:61-63 | the two chained lookups are in bounds of the 256-entry table and the gradient index is below 12 |
| Simplex.Hash3 | src/gen/simplex.rs:151-154 | the three chained lookups are in bounds and the gradient index is below 12 |
| Simplex.Hash3Origin | src/gen/simplex.rs:151 | the unreduced lookup `perm[kk]` is in bounds because `kk` is a masked byte, and it gives the same index as the reduced form |
| Simplex.Corner2 | src/gen/simplex.rs:45-51 | exactly one of `i1`, `j1` is 1, and `i1` is 1 exactly when `x0 > y0` |
| Simplex.Corner3 | src/gen/simplex.rs:119-135 | each offset is 0 or 1, `i1+j1+k1 == 1`, `i2+j2+k2 == 2`, the second corner dominates the first, the first corner steps along the axis of the largest local coordinate and the second leaves out the axis of the smallest (ties broken x, y, z) |
| Simplex.Contribution | src/gen/simplex.rs:65-84 | a corner with negative falloff contributes exactly 0; otherwise the contribution is positive (negative) exactly when the falloff is positive and the gradient dot product is positive (negative) |
| Simplex.SignOfProduct | src/gen/simplex.rs:69 | for t >= 0, `t^4 * dot` has the sign of `dot` when t > 0 and is 0 when t == 0 |
| Simplex.Skew2 | src/gen/simplex.rs:34-40 | the two lattice indices are always equal, since both are `floor(x + s)`, and the unskewed offset keeps the input's difference `x - y` |
| Simplex.Dot2 | src/gen/simplex.rs:224-226 | for each of the twelve 2D gradients the dot product is one offset coordinate, or the sum or difference of both, with either sign |
| Simplex.CornerOffsets2 | src/gen/simplex.rs:53-56 | three corner offsets: the first from the cell origin; the middle one is `x0 - (i1 + G2)`, subtracting `G2` where the reference simplex algorithm adds it; the last lies `1 - 2*G2` below the first on both axes |
| Simplex.GradIndices2 | src/gen/simplex.rs:58-63 | three gradient indices, each a valid index into the 12 gradients |
| Simplex.GetValue2d | src/gen/simplex.rs:34-87 | when all three corners have negative falloff the 2D value is exactly 0 |
| Simplex.Skew3 | src/gen/simplex.rs:102-110 | the offset from the cell origin, skewed back, has every coordinate in [0, 1) |
| Simplex.Dot3 | src/gen/simplex.rs:220-222 | for each of the twelve 3D gradients the dot product adds or subtracts two of the three offset coordinates and ignores the third |
| Simplex.CornerOffsets3 | src/gen/simplex.rs:137-145 | four corner offsets: the first from the cell origin, the second and third stepped back by the tetrahedron's corners plus `G3` and `2*G3`, the last `0.5` below the first on every axis |
| Simplex.GradIndices3 | src/gen/simplex.rs:147-154 | four gradient indices, each a valid index into the 12 gradients |
| Simplex.CellValue3 | src/gen/simplex.rs:156-184 | when all four corners have negative falloff the cell's value is exactly 0 |
| Simplex.GetValue3d | src/gen/simplex.rs:102-185 | when all four corners have negative falloff the 3D value is exactly 0 |
| Simplex.CellValueMasked3 | src/gen/simplex.rs:147-154 | a cell's value depends on its lattice indices only through their masked low bytes |
| Simplex.Skew3Shift | src/gen/simplex.rs:102-110 | moving the point by 256 on all three axes moves each lattice index by 512 and keeps the offsets |
| Simplex.Periodic3 | src/gen/simplex.rs:102-184 | because of the byte masking, 3D noise is periodic: moving the point by 256 on all three axes leaves the value unchanged |
| Simplex.Eval | src/gen/simplex.rs:20-185 | a point of either dimension far enough from every corner of its cell (all falloffs negative) has value exactly 0 |
| Simplex.KernelPeriodic3 | src/gen/simplex.rs:102-184 | the generator used as a kernel (`AsKernel`) repeats with period 256 along the 3D diagonal |
| Utils.Abs | src/gen/billow.rs:61 | the absolute value is non-negative and leaves a non-negative argument unchanged |
| Utils.Div | src/gen/billow.rs:67 | the quotient is non-finite exactly when the divisor is 0, and otherwise times the divisor gives back the dividend |
| Utils.Lerp | src/utils.rs:8-10 | at t == 0 the result is a, with a == b it is a, and for t > 0 it moves away from b |
| Utils.LerpIsNotMidpoint | src/utils.rs:8-10 | `lerp(0, 10, 0.5)` is -5, not the midpoint 5 |
| Utils.EaseCurve | src/utils.rs:12-14 | the blend weight is 0 at 0 and 1 at 1 |
| Utils.EaseCurveSymmetric | src/utils.rs:12-14 | the blend curve is point-symmetric about (1/2, 1/2) |
| Utils.EaseCurveNonNegative | src/utils.rs:12-14 | on [0, 1] the blend weight is non-negative |
| Utils.EaseCurveInUnitRange | src/utils.rs:12-14 | on [0, 1] the blend weight stays in [0, 1] |
| Utils.Bilerp | src/utils.rs:16-24 | four zero corners give 0 everywhere, four equal corners give that value everywhere, and at (0, 0) the result is the `x0y0` corner |
| Utils.Trilerp | src/utils.rs:26-40 | at each of the eight unit-cube corners the result is that corner's value |
| Utils.TrilerpOfConstant | src/utils.rs:26-40 | the eight weights sum to one, so eight equal corners give that value at every point (and zero corners give zero) |
| Utils.Bound | src/utils.rs:42-45 | the remap is non-finite exactly when the old range is empty; otherwise it sends oldlow to low, oldhigh to high, and is the identity when the two ranges coincide |
| Utils.RemapFixesEnds | src/utils.rs:42-45 | the affine map sends the old ends to the new ends and is the identity on equal ranges |
| Utils.BoundValue | src/utils.rs:42-45 | with a non-empty old range the remap is the finite affine map |
| Utils.BoundInRange | src/utils.rs:42-45 | a point of a proper old range is mapped into the new range |
| Utils.BoundSymmetric | src/utils.rs:42-45 | remapping a symmetric range `[-m, m]` onto [-1, 1] is odd: negating the input negates the output |
| Utils.UnitScale | src/utils.rs:42-45 | proof helper: a fraction in [0, 1] of a non-negative width lies in [0, width] |
| Utils.UnitQuotient | src/gen/billow.rs:67 | proof helper: `a / d` lies in [0, 1] when 0 <= a <= d and d > 0 |
| Utils.Clamp | src/utils.rs:47-53 | the result lies in [low, high] when low <= high, is n itself when n is in range, and is always one of n, low, high |
| Utils.ClampIdempotent | src/utils.rs:47-53 | clamping twice is clamping once |
| Utils.ClampMonotone | src/utils.rs:47-53 | clamping preserves the order of its arguments |
| Utils.UtilsExamples | src/utils.rs:67-73 | `clamp(100,-1,1) == 1`, `clamp(-100,-1,1) == -1`, `clamp(0,-1,1) == 0`, `bound(2,0,1,0,2) == 1` and `ease_curve(0) == 0` |
| Utils.PowNonNegative | src/gen/fbm.rs:45 | proof helper: a power of a non-negative number is non-negative |
| Utils.PowPositive | src/gen/simplex.rs:69 | proof helper: a power of a positive number is positive |
| Utils.MulMonotone | src/gen/fbm.rs:59 | proof helper: multiplying by a non-negative factor preserves order |
| Utils.ProductDominated | src/gen/ridgedmulti.rs:96-99 | proof helper: products of ordered non-negative factors are ordered |
| NoiseGen.Scale | src/gen/fbm.rs:59 | scaling keeps the dimension and multiplies every coordinate by the factor |
| NoiseGen.ScaleByOne | src/gen/fbm.rs:55 | scaling by 1 leaves the point unchanged |
| NoiseGen.ScaleTwice | src/gen/ridgedmulti.rs:92-93 | scaling twice is scaling once by the product of the factors |
| NoiseGen.SqDist | src/gen/voronoi.rs:38-40 | a squared distance is never negative |
| Fbm.OctaveCount | src/gen/fbm.rs:43 | `range(0, octaves)` runs `octaves` times, and not at all for zero or negative `octaves` |
| Fbm.GeomSumAtLeastOne | src/gen/fbm.rs:40-49 | with at least one octave and non-negative persistence the geometric sum is at least 1 |
| Fbm.NormaliserFacts | src/gen/fbm.rs:40-49 | the normaliser is 0 without octaves, so the final remap divides by zero, and at least 1 with octaves and persistence >= 0 |
| Fbm.CalcMax | src/gen/fbm.rs:40-49 | the loop keeps `a == persistence^i` and returns the sum of `persistence^i` over all octaves |
| Fbm.FromSeed | src/gen/fbm.rs:24-31 | the generator holds the simplex generator `from_seed` makes from the seed and the given octaves, persistence and gain, and the normaliser they determine: 0 without octaves, at least 1 with octaves and persistence >= 0 |
| Fbm.GetSeed | src/gen/fbm.rs:33-35 | FBM keeps no seed of its own: it reports the seed of the simplex generator it samples, which `FromSeed` sets |
| Fbm.OctaveSumOdd | src/gen/fbm.rs:58-62 | negating the kernel negates the octave sum, for every number of octaves |
| Fbm.OctaveOdd | src/gen/fbm.rs:59 | negating the kernel negates each octave's weighted sample |
| Fbm.Noise | src/gen/fbm.rs:58-64 | FBM is non-finite exactly when the normaliser is 0 |
| Fbm.GetValue | src/gen/fbm.rs:53-79 | the octave loop keeps `f == gain^i` and `amp == persistence^i`, samples the kernel at the point times `gain^i`, and returns the remapped octave sum |
| Fbm.WeightedSampleBounded | src/gen/fbm.rs:59 | proof helper: a sample in [-1, 1] weighted by a >= 0 lies in [-a, a] |
| Fbm.OctaveSumBounded | src/gen/fbm.rs:37-39 | for a kernel in [-1, 1] and persistence >= 0 the octave sum never exceeds the normaliser in absolute value |
| Fbm.OctaveBounded | src/gen/fbm.rs:59 | for a kernel in [-1, 1] and persistence >= 0, octave i adds at most `persistence^i` in absolute value |
| Fbm.NoiseInRange | src/gen/fbm.rs:37-39 | for a kernel in [-1, 1], at least one octave and persistence >= 0, FBM is finite and lies in [-1, 1] |
| Fbm.FromSeedInRange | src/gen/fbm.rs:24-64 | the generator `from_seed` builds with at least one octave and persistence >= 0 maps a kernel in [-1, 1] to finite values in [-1, 1] |
| Fbm.NoiseOdd | src/gen/fbm.rs:53-64 | FBM is odd in its base noise: with a non-zero normaliser, negating the kernel negates the result |
| Fbm.SingleOctave | src/gen/fbm.rs:40-64 | with one octave the normaliser is 1 and FBM is the kernel sample at the point itself |
| Fbm.NoOctaves | src/gen/fbm.rs:40-49 | without octaves FBM divides by zero |
| Billow.CalcMax | src/gen/billow.rs:40-49 | Billow's own copy of the normaliser loop keeps `a == persistence^i` and returns FBM's geometric sum of `persistence^i` over all octaves |
| Billow.FromSeed | src/gen/billow.rs:24-31 | the generator holds the simplex generator `from_seed` makes from the seed and the given octaves, persistence and gain, and the normaliser they determine: 0 without octaves, at least 1 otherwise (for persistence >= 0) |
| Billow.GetSeed | src/gen/billow.rs:33-35 | Billow reports the seed of the simplex generator it samples, which `FromSeed` sets |
| Billow.AbsOctaveSumEven | src/gen/billow.rs:59-65 | negating the kernel leaves the absolute octave sum unchanged, for every number of octaves |
| Billow.AbsOctaveBounded | src/gen/billow.rs:60-62 | for a kernel in [-1, 1] one absolute octave lies in [0, persistence^i] |
| Billow.AbsOctaveSumNonNegative | src/gen/billow.rs:59-65 | with persistence >= 0 the accumulator is non-negative after every octave |
| Billow.Noise | src/gen/billow.rs:53-68 | Billow is non-finite exactly when the normaliser is 0 |
| Billow.GetValue | src/gen/billow.rs:53-85 | the octave loop keeps `f == gain^i` and `amp == persistence^i`, sums the absolute samples and divides by the normaliser |
| Billow.AbsOctaveSumBounded | src/gen/billow.rs:59-65 | for a kernel in [-1, 1] and persistence >= 0 the absolute octave sum never exceeds the normaliser |
| Billow.NoiseInRange | src/gen/billow.rs:66-67 | for a kernel in [-1, 1], at least one octave and persistence >= 0, Billow is finite and lies in [0, 1] |
| Billow.FromSeedInRange | src/gen/billow.rs:24-68 | the generator `from_seed` builds with at least one octave and persistence >= 0 maps a kernel in [-1, 1] to finite values in [0, 1] |
| Billow.NoiseEven | src/gen/billow.rs:53-68 | Billow is even in its base noise: negating the kernel leaves the result unchanged |
| Billow.SingleOctave | src/gen/billow.rs:59-67 | with one octave Billow is the absolute value of the kernel sample at the point |
| RidgedMulti.Ridge | src/gen/ridgedmulti.rs:75-78 | the ridge `(offset - abs(n))^2` is never negative |
| RidgedMulti.SquarePositive | src/gen/ridgedmulti.rs:77 | proof helper: a square is non-negative, and positive when the base is non-zero |
| RidgedMulti.RidgeSymmetric | src/gen/ridgedmulti.rs:75-78 | the ridge is blind to the sample's sign |
| RidgedMulti.RidgeBelowPeak | src/gen/ridgedmulti.rs:75-78 | a sample within the offset has a ridge no higher than the peak at 0, which is `offset^2` |
| RidgedMulti.Freqs | src/gen/ridgedmulti.rs:49-58 | one spectral weight per octave, so every `frequencies[i]` with i < octaves is in bounds |
| RidgedMulti.CalcFreqs | src/gen/ridgedmulti.rs:49-58 | the push loop produces exactly `octaves` weights, weight i being `powf(lacunarity, -i * h)` |
| RidgedMulti.FreqsNonNegative | src/gen/ridgedmulti.rs:49-58 | when `powf` is non-negative for the lacunarity, so is every spectral weight |
| RidgedMulti.Weight | src/gen/ridgedmulti.rs:94-95 | the weight lies in [0, 1] and is `signal * gain` itself when that is already in range |
| RidgedMulti.Octave | src/gen/ridgedmulti.rs:94-100 | an octave's signal is non-negative, and the sum grows by the signal times the spectral weight |
| RidgedMulti.OctaveStep | src/gen/ridgedmulti.rs:94-100 | proof helper: the statements of one loop round compute one `Octave`, which keeps `GetValue` and `CalcMaxLoop` within the resource limit |
| RidgedMulti.Recurrence | src/gen/ridgedmulti.rs:85-101 | the signal is never negative, and before any round signal and sum are the first ridged sample, with no spectral weight |
| RidgedMulti.RecurrenceDependsOnPrefix | src/gen/ridgedmulti.rs:85-101 | after k rounds the state depends on the samples of octaves 0..k only |
| RidgedMulti.SumAtLeastFirst | src/gen/ridgedmulti.rs:85-101 | with non-negative spectral weights the sum never drops below the first ridged sample, hence is never negative |
| RidgedMulti.RecurrenceGrows | src/gen/ridgedmulti.rs:100 | a round whose spectral weight is non-negative never lowers the sum |
| RidgedMulti.CalcMaxLoop | src/gen/ridgedmulti.rs:60-73 | the normaliser loop computes the recurrence with every sample 0 |
| RidgedMulti.CalcMax | src/gen/ridgedmulti.rs:60-73 | without octaves the normaliser is the peak ridge `offset^2` |
| RidgedMulti.CalcMaxAtLeastPeak | src/gen/ridgedmulti.rs:60-73 | with non-negative spectral weights the normaliser is at least `offset^2` |
| RidgedMulti.FromSeed | src/gen/ridgedmulti.rs:32-43 | the generator holds the simplex generator `from_seed` makes from the seed and the given octaves, gain, lacunarity and offset, one spectral weight per octave and the normaliser those determine |
| RidgedMulti.GetSeed | src/gen/ridgedmulti.rs:45-47 | RidgedMulti reports the seed of the simplex generator it samples, which `FromSeed` sets |
| RidgedMulti.ScaleByNextPower | src/gen/ridgedmulti.rs:92-93 | multiplying the coordinates by the lacunarity once more moves from octave i's point to octave i + 1's |
| RidgedMulti.Noise | src/gen/ridgedmulti.rs:82-104 | RidgedMulti is non-finite exactly when the normaliser is 0 |
| RidgedMulti.GetValue | src/gen/ridgedmulti.rs:82-130 | the loop samples the kernel at `lacunarity^(i+1)` times the point in round i and returns the remapped recurrence sum |
| RidgedMulti.WeightMonotone | src/gen/ridgedmulti.rs:94-95 | for gain >= 0 a larger previous signal never gives a smaller weight |
| RidgedMulti.OctaveDominated | src/gen/ridgedmulti.rs:94-100 | a smaller previous state and a sample within the offset give a signal and a sum no larger than the normaliser's octave with sample 0 |
| RidgedMulti.AccumulateDominated | src/gen/ridgedmulti.rs:100 | proof helper: adding a smaller weighted signal to a smaller sum stays smaller |
| RidgedMulti.DominatedByZeroSamples | src/gen/ridgedmulti.rs:60-73 | with offset >= 1, gain >= 0, non-negative spectral weights and samples in [-1, 1], signal and sum stay at or below the normaliser's, octave by octave |
| RidgedMulti.NoiseInRange | src/gen/ridgedmulti.rs:82-104 | with offset >= 1, gain >= 0, non-negative spectral weights and a kernel in [-1, 1], the normaliser is at least 1 and RidgedMulti is finite and in [0, 1] |
| RidgedMulti.FromSeedInRange | src/gen/ridgedmulti.rs:32-104 | the generator `from_seed` builds with offset >= 1, gain >= 0 and a `powf` non-negative for the lacunarity maps a kernel in [-1, 1] to finite values in [0, 1] |
| RidgedMulti.ZeroKernelGivesOne | src/gen/ridgedmulti.rs:60-104 | the normaliser is the evaluation with the kernel fixed at 0, so a zero kernel gives exactly 1 when the normaliser is not 0 |
| RidgedMulti.NoOctaves | src/gen/ridgedmulti.rs:82-104 | without octaves the normaliser is `offset^2` and the result is the remapped ridge of the single sample at the point |
| Voronoi.FromSeed | src/gen/voronoi.rs:14-16 | the generator holds the simplex generator `from_seed` makes from the seed, so it reports that seed and its table is a permutation of 0..255 |
| Voronoi.GetSeed | src/gen/voronoi.rs:18-20 | Voronoi reports the seed of the simplex generator it samples, which `FromSeed` sets |
| Voronoi.Cells | src/gen/voronoi.rs:33-34 | 25 (2D) or 125 (3D) cells, each of the point's dimension |
| Voronoi.CellIndex2 | src/gen/voronoi.rs:33-34 | scan position `5a + b` is the cell in row a and column b of the window, y outer and x inner |
| Voronoi.CellIndex3 | src/gen/voronoi.rs:64-66 | scan position `25c + 5a + b` is the cell in layer c, row a and column b, z outermost and x innermost |
| Voronoi.CellsCover2 | src/gen/voronoi.rs:25-34 | a cell is visited exactly when it lies within two steps of the point's cell on each axis |
| Voronoi.CellsCover3 | src/gen/voronoi.rs:54-66 | a cell is visited exactly when it lies within two steps of the point's cell on each of the three axes |
| Voronoi.Shift | src/gen/voronoi.rs:35-37 | the point moves by the same amount on every axis |
| Voronoi.Feature | src/gen/voronoi.rs:35-37 | a cell's feature is the cell corner moved on every axis by the kernel's value at that corner |
| Voronoi.Features | src/gen/voronoi.rs:33-37 | one feature per visited cell |
| Voronoi.FeaturesFollowCells | src/gen/voronoi.rs:33-37 | the feature at scan position k belongs to the k-th visited cell: that cell's corner moved by the kernel's value there |
| Voronoi.Consider | src/gen/voronoi.rs:42-46 | a comparison never raises the best distance, never leaves it above the candidate's, and either keeps the state or takes the candidate |
| Voronoi.EarlierIsFarther | src/gen/voronoi.rs:42 | a candidate before the earliest nearest one is not itself the earliest nearest |
| Voronoi.EarliestNearestUnique | src/gen/voronoi.rs:42 | there is at most one earliest nearest candidate |
| Voronoi.Winner | src/gen/voronoi.rs:42-46 | the index of the scan's winner among the candidates seen, or -1 while none has beaten the initial distance |
| Voronoi.ScanHoldsWinner | src/gen/voronoi.rs:42-46 | the scan state is the initial one while there is no winner, otherwise the winner and its distance |
| Voronoi.NewNearest | src/gen/voronoi.rs:42 | a candidate strictly below a bound that all earlier candidates reach becomes the earliest nearest |
| Voronoi.KeepNearest | src/gen/voronoi.rs:42 | a candidate that is not strictly closer leaves the earliest nearest in place, so ties keep the earlier candidate |
| Voronoi.WinnerIsEarliestNearest | src/gen/voronoi.rs:42-46 | the winner is the earliest of the nearest candidates and beats the initial distance; without a winner no candidate beats it |
| Voronoi.ScanBelowAll | src/gen/voronoi.rs:42-46 | after any prefix of the scan the best distance is at most the initial one and at most every candidate's distance seen so far |
| Voronoi.Nearest | src/gen/voronoi.rs:28-46 | the scan ends either in its initial state or holding one of the visited features together with that feature's squared distance |
| Voronoi.SquareAtMost | src/gen/voronoi.rs:38-40 | proof helper: a coordinate difference of size at most m has square at most m^2 |
| Voronoi.AxisOffset | src/gen/voronoi.rs:35-37 | on one axis, the feature of the point's own cell lies within 2 of the point |
| Voronoi.CentreIsClose | src/gen/voronoi.rs:28 | for a kernel in [-1, 1], the feature of the point's own cell is at squared distance at most 12, far below the initial `2147483647.0` |
| Voronoi.NoiseIsEarliestNearest | src/gen/voronoi.rs:24-89 | for a kernel in [-1, 1] the winner is always a real candidate, never the default origin: the earliest nearest feature in scan order, and the result is the kernel at the floor of that feature |
| Voronoi.NearestIsMinimal | src/gen/voronoi.rs:38-46 | for every kernel, after the scan the best distance is at most the squared distance of every visited feature |
| Voronoi.Noise | src/gen/voronoi.rs:24-51 | the result is the kernel at the origin (no winner) or the kernel at the floor of one of the visited features |
| Voronoi.ScanStep2 | src/gen/voronoi.rs:33-46 | the scan up to and including cell (cx, cy) is the scan before it followed by one comparison with that cell's feature |
| Voronoi.ScanStep3 | src/gen/voronoi.rs:64-83 | the scan up to and including cell (cx, cy, cz) is the scan before it followed by one comparison with that cell's feature |
| Voronoi.Candidate2 | src/gen/voronoi.rs:35-40 | proof helper: the loop body's `(x_pos, y_pos)` is the cell's feature and `dist` its squared distance, which keeps `GetValue2d` within the resource limit |
| Voronoi.Candidate3 | src/gen/voronoi.rs:67-76 | proof helper: the loop body's `(x_pos, y_pos, z_pos)` is the cell's feature and `dist` its squared distance, which keeps `GetValue3d` within the resource limit |
| Voronoi.GetValue2d | src/gen/voronoi.rs:24-51 | the nested y/x loops compute the scan over the 25 features and return the kernel at the floor of the winner |
| Voronoi.GetValue3d | src/gen/voronoi.rs:53-89 | the nested z/y/x loops compute the scan over the 125 features and return the kernel at the floor of the winner |

## Left out

- `new_rand` constructors (`src/gen/simplex.rs:189-194` and the combinators' `new_rand`): they draw a seed from ambient entropy via `task_rng`; only the `from_seed` paths are modelled.
- The internals of the standard library's `Rng::shuffle` and `gen_range`: the shuffle is modelled as the swap loop `swap(i, j)` with `j <= i`, and `gen_range(0, i + 1)` as an abstract index source fed by the LCG (`Simplex.IndexSource`) that is only required to draw below its bound.
- IEEE-754 rounding and overflow: floats are `real`. A division by zero becomes `NonFinite`. The `as int` cast of a float outside the integer range is undefined behaviour in the Rust of the source; the model's `.Floor` is exact and unbounded.
- `f64::powf` in `calc_freqs`: an uninterpreted function parameter (`RidgedMulti.PowF`).
- The numerical amplitude of the simplex kernel: the 70 and 32 scale factors keep its output near [-1, 1], which is not proved. The combinators take the kernel as a parameter, and their range theorems assume the bound.
- `src/gen/mod.rs`: the `NoiseGen` trait only declares the two evaluation signatures. `NoiseGen.Point` and `NoiseGen.Kernel` stand in for it.
- The example programs (image buffers, PNG encoding, file output, timing): I/O outside the library.
- Utils.Abs: states non-negativity and the identity on non-negative arguments only, not the negation on negative ones.
- RidgedMulti.Ridge: states non-negativity, symmetry and the peak at 0, not that the ridge is 0 exactly at `|n| == offset`.
- Simplex.GetValue2d, Simplex.GetValue3d: state only the all-corners-cut-off case. Their magnitude is not bounded, as said above.
