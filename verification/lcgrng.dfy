/**
  The library's own pseudo-random generator: a linear congruential
  generator over a 32-bit state, with multiplier 1664525 and increment
  1013904223. Its only use is to drive the shuffle that builds the simplex
  permutation table.
*/
module LcgRng {

  const Modulus: int := 0x1_0000_0000

  type U32 = x: int | 0 <= x < 0x1_0000_0000

  const Multiplier: U32 := 1664525
  const Increment: U32 := 1013904223

  /** u32 multiplication and addition, wrapping on overflow. */
  function WrapMul(a: U32, b: U32): (r: U32)
    ensures a * b < Modulus ==> r == a * b
    ensures (a * b - r) % Modulus == 0
  {
    Reduce(a * b);
    (a * b) % Modulus
  }

  /** Reducing modulo 2^32 gives a u32, leaves a value that already fits
      alone, and removes a multiple of 2^32. */
  lemma Reduce(x: int)
    ensures 0 <= x % Modulus < Modulus
    ensures 0 <= x < Modulus ==> x % Modulus == x
    ensures (x - x % Modulus) % Modulus == 0
  {
    assert x - x % Modulus == (x / Modulus) * Modulus;
  }

  /** A sum of two u32 values overflows at most once, so wrapping it
      subtracts the modulus at most once. */
  function WrapAdd(a: U32, b: U32): (r: U32)
    ensures a + b < Modulus ==> r == a + b
    ensures a + b >= Modulus ==> r == a + b - Modulus
  {
    (a + b) % Modulus
  }

  /** The generator: the seed it was made from, and the last value drawn. */
  datatype Lcg = Lcg(seed: U32, prevVal: U32)

  /** One step of the recurrence, computed as the source does (a wrapping
      multiply followed by a wrapping add); the result is the textbook LCG
      step taken modulo 2^32. */
  function Step(state: U32): (r: U32)
    ensures r == (Multiplier * state + Increment) % Modulus
  {
    AddMod(Multiplier * state, Increment);
    WrapAdd(WrapMul(Multiplier, state), Increment)
  }

  /** Reducing before an addition does not change the result modulo 2^32. */
  lemma AddMod(m: int, c: int)
    requires m >= 0 && c >= 0
    ensures ((m % Modulus) + c) % Modulus == (m + c) % Modulus
  {
    var q := m / Modulus;
    var r := m % Modulus;
    assert m == q * Modulus + r;
    assert m + c == (r + c) + q * Modulus;
  }

  /** Draws the next value: the state advances one step and the new state
      is the value returned; the seed is left as it was. */
  function NextU32(g: Lcg): (r: (Lcg, U32))
    ensures r.0.seed == g.seed
    ensures r.1 == r.0.prevVal
    ensures r.1 == (Multiplier * g.prevVal + Increment) % Modulus
  {
    var next := Step(g.prevVal);
    (g.(prevVal := next), next)
  }

  /** A generator whose seed and state are both `seed`. */
  function FromSeed(seed: U32): (r: Lcg)
    ensures r.seed == seed && r.prevVal == seed
    ensures NextU32(r).1 == (Multiplier * seed + Increment) % Modulus
  {
    Lcg(seed, seed)
  }

  /** Re-seeding forgets everything: the generator becomes the one
      `FromSeed` would have made. */
  function Reseed(g: Lcg, seed: U32): (r: Lcg)
    ensures r == FromSeed(seed)
  {
    g.(seed := seed, prevVal := seed)
  }

  /** `Step` applied `n` times. */
  function StepN(state: U32, n: nat): U32
  {
    if n == 0 then state else Step(StepN(state, n - 1))
  }

  /** The next `n` values the generator returns. */
  function Outputs(g: Lcg, n: nat): (r: seq<U32>)
    ensures |r| == n
    ensures forall i :: 0 <= i < n ==> r[i] == StepN(g.prevVal, i + 1)
    decreases n
  {
    if n == 0 then []
    else
      var (g', v) := NextU32(g);
      StepNShift(g.prevVal, n - 1);
      [v] + Outputs(g', n - 1)
  }

  /** Iterating from one step ahead is iterating one step more. */
  lemma {:induction false} StepNShift(state: U32, n: nat)
    ensures forall i :: 0 <= i <= n ==> StepN(Step(state), i) == StepN(state, i + 1)
  {
    if n > 0 {
      StepNShift(state, n - 1);
      assert StepN(Step(state), n) == Step(StepN(Step(state), n - 1));
    }
  }

  /** Determinism: the output stream depends on the current state alone. */
  lemma SameStateSameOutputs(g1: Lcg, g2: Lcg, n: nat)
    requires g1.prevVal == g2.prevVal
    ensures Outputs(g1, n) == Outputs(g2, n)
  {
  }

  /** After `reseed(s)` the generator replays the stream of `from_seed(s)`. */
  lemma ReseedReplays(g: Lcg, seed: U32, n: nat)
    ensures Outputs(Reseed(g, seed), n) == Outputs(FromSeed(seed), n)
  {
  }
}
