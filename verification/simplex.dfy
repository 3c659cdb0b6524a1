/**
  The simplex gradient-noise kernel and its seeded permutation table.

  The table is the identity 0..255 shuffled by the library's LCG. The
  kernel is modelled in its integer and combinatorial skeleton (lattice
  masking, chained table lookups, gradient selection, corner choice and the
  per-corner falloff cut-off) with the arithmetic over `real`.
*/
module Simplex {
  import LcgRng
  import opened Utils
  import opened NoiseGen

  // ---------------------------------------------------------------------------
  // The shuffle

  /** A source of swap indices: given the generator and a bound `b > 0`, it
      returns the advanced generator and an index in [0, b). It stands for
      the standard library's `gen_range(0, b)` drawing from the LCG, whose
      internals are not part of this model. */
  type IndexSource = (LcgRng.Lcg, nat) -> (LcgRng.Lcg, nat)

  ghost predicate DrawsBelow(draw: IndexSource)
  {
    forall g: LcgRng.Lcg, bound: nat :: 0 < bound ==> draw(g, bound).1 < bound
  }

  /** The sequence 0, 1, ..., n - 1. */
  function Identity(n: nat): (r: seq<nat>)
    ensures |r| == n
    ensures forall i :: 0 <= i < n ==> r[i] == i
  {
    if n == 0 then [] else Identity(n - 1) + [n - 1]
  }

  /** `s` with the entries at `i` and `j` exchanged. */
  function Swap(s: seq<nat>, i: nat, j: nat): (r: seq<nat>)
    requires i < |s| && j < |s|
    ensures |r| == |s| && r[i] == s[j] && r[j] == s[i]
    ensures forall k :: 0 <= k < |s| && k != i && k != j ==> r[k] == s[k]
    ensures multiset(r) == multiset(s)
  {
    s[i := s[j]][j := s[i]]
  }

  /** The shuffle of the standard library, from position `i - 1` down to
      position 1: each step swaps position `i - 1` with an index drawn below
      `i`. Positions at or above `i` are never touched again. */
  function ShuffleDown(draw: IndexSource, g: LcgRng.Lcg, s: seq<nat>, i: nat): (r: (seq<nat>, LcgRng.Lcg))
    requires DrawsBelow(draw) && i <= |s|
    ensures |r.0| == |s|
    ensures multiset(r.0) == multiset(s)
    ensures forall k :: i <= k < |s| ==> r.0[k] == s[k]
    decreases i
  {
    if i < 2 then (s, g)
    else
      var (g', j) := draw(g, i);
      ShuffleDown(draw, g', Swap(s, i - 1, j), i - 1)
  }

  /** The in-place shuffle loop: while at least two entries are left
      unfixed, fix the last of them by swapping it with a drawn index. */
  method Shuffle(draw: IndexSource, g: LcgRng.Lcg, values: seq<nat>) returns (shuffled: seq<nat>, rng: LcgRng.Lcg)
    requires DrawsBelow(draw)
    ensures (shuffled, rng) == ShuffleDown(draw, g, values, |values|)
    ensures multiset(shuffled) == multiset(values)
  {
    shuffled, rng := values, g;
    var i: nat := |values|;
    while i >= 2
      invariant i <= |shuffled| == |values|
      invariant ShuffleDown(draw, rng, shuffled, i) == ShuffleDown(draw, g, values, |values|)
    {
      i := i - 1;
      var drawn := draw(rng, i + 1);
      rng := drawn.0;
      shuffled := Swap(shuffled, i, drawn.1);
    }
  }

  // ---------------------------------------------------------------------------
  // The permutation table

  /** `p` holds each of 0..n-1 exactly once. */
  predicate IsPermutation(p: seq<nat>, n: nat)
  {
    multiset(p) == multiset(Identity(n))
  }

  lemma {:induction false} IdentityDistinct(n: nat)
    ensures forall v :: multiset(Identity(n))[v] <= 1
  {
    if n > 0 {
      IdentityDistinct(n - 1);
      assert Identity(n) == Identity(n - 1) + [n - 1];
      assert n - 1 !in multiset(Identity(n - 1));
    }
  }

  /** A permutation of 0..n-1 has length n, holds only values below n,
      holds every value below n, and holds no value twice. */
  lemma PermutationFacts(p: seq<nat>, n: nat)
    requires IsPermutation(p, n)
    ensures |p| == n
    ensures forall i :: 0 <= i < |p| ==> p[i] < n
    ensures forall v :: 0 <= v < n ==> v in p
    ensures forall i, j :: 0 <= i < j < |p| ==> p[i] != p[j]
  {
    var id := Identity(n);
    assert |p| == |multiset(p)| == |multiset(id)| == n;
    forall i | 0 <= i < |p|
      ensures p[i] < n
    {
      assert p[i] in multiset(id);
      assert p[i] in id;
    }
    forall v | 0 <= v < n
      ensures v in p
    {
      assert id[v] == v;
      assert v in multiset(id);
    }
    IdentityDistinct(n);
    DistinctFromCounts(p);
  }

  /** A sequence in which no value is counted twice has distinct entries. */
  lemma {:induction false} DistinctFromCounts(p: seq<nat>)
    requires forall v :: multiset(p)[v] <= 1
    ensures forall i, j :: 0 <= i < j < |p| ==> p[i] != p[j]
  {
    if |p| > 0 {
      var q := p[..|p| - 1];
      var last := p[|p| - 1];
      assert p == q + [last];
      assert multiset(p) == multiset(q) + multiset{last};
      assert forall v :: multiset(q)[v] <= multiset(p)[v];
      DistinctFromCounts(q);
      assert last !in multiset(q);
      assert forall i :: 0 <= i < |q| ==> p[i] == q[i] && q[i] in multiset(q);
    }
  }

  type Table = p: seq<nat> | |p| == 256 witness Identity(256)

  /** The table `init_perm` builds: the identity, shuffled by the LCG seeded
      with `seed`. For every seed it is a permutation of 0..255. */
  function InitPerm(seed: LcgRng.U32, draw: IndexSource): (p: Table)
    requires DrawsBelow(draw)
    ensures IsPermutation(p, 256)
  {
    ShuffleDown(draw, LcgRng.FromSeed(seed), Identity(256), 256).0
  }

  /** `init_perm` as a loop: fill the table with the identity, then
      shuffle it. */
  method InitPermLoop(seed: LcgRng.U32, draw: IndexSource) returns (perm: seq<nat>)
    requires DrawsBelow(draw)
    ensures perm == InitPerm(seed, draw)
  {
    var rng := LcgRng.FromSeed(seed);
    perm := [];
    var i := 0;
    while i < 256
      invariant i <= 256
      invariant perm == Identity(i)
    {
      perm := perm + [i];
      i := i + 1;
    }
    perm, rng := Shuffle(draw, rng, perm);
  }

  /** A simplex generator: its seed and the table built from it. */
  datatype SimplexNoise = SimplexNoise(seed: LcgRng.U32, perm: Table)

  function FromSeed(seed: LcgRng.U32, draw: IndexSource): (r: SimplexNoise)
    requires DrawsBelow(draw)
    ensures GetSeed(r) == seed
    ensures r.perm == InitPerm(seed, draw)
    ensures IsPermutation(r.perm, 256)
  {
    SimplexNoise(seed, InitPerm(seed, draw))
  }

  /** Re-seeding rebuilds the table: the result is the generator
      `from_seed` makes, whatever the old state was. */
  function SetSeed(s: SimplexNoise, seed: LcgRng.U32, draw: IndexSource): (r: SimplexNoise)
    requires DrawsBelow(draw)
    ensures r == FromSeed(seed, draw)
    ensures GetSeed(r) == seed
  {
    s.(seed := seed, perm := InitPerm(seed, draw))
  }

  function GetSeed(s: SimplexNoise): (r: LcgRng.U32)
    ensures r == s.seed
  {
    s.seed
  }

  /** Setting a generator's own seed again rebuilds the table it already
      has: get-then-set is the identity on seeded generators. */
  lemma SetOwnSeed(seed: LcgRng.U32, draw: IndexSource)
    requires DrawsBelow(draw)
    ensures var s := FromSeed(seed, draw); SetSeed(s, GetSeed(s), draw) == s
  {
  }

  // ---------------------------------------------------------------------------
  // Lattice hashing

  /** `i & 0xff` on a two's-complement integer: the low eight bits, which
      is the residue of `i` modulo 256 for negative `i` too. */
  function LowByte(i: int): (b: nat)
    ensures b < 256
    ensures (i - b) % 256 == 0
  {
    i % 256
  }

  /** Shifting an index by 512 leaves its low byte unchanged. */
  lemma LowByteShift(i: int)
    ensures LowByte(i + 512) == LowByte(i)
  {
    assert i + 512 == i + 2 * 256;
  }

  /** Gradient index of a 2D corner: two chained table lookups, each index
      reduced modulo 256, then reduced modulo 12. */
  function Hash2(perm: Table, ii: nat, jj: nat, di: nat, dj: nat): (gi: nat)
    ensures gi < 12
  {
    perm[(ii + di + perm[(jj + dj) % 256]) % 256] % 12
  }

  /** Gradient index of a 3D corner: three chained table lookups. */
  function Hash3(perm: Table, ii: nat, jj: nat, kk: nat, di: nat, dj: nat, dk: nat): (gi: nat)
    ensures gi < 12
  {
    perm[(ii + di + perm[(jj + dj + perm[(kk + dk) % 256]) % 256]) % 256] % 12
  }

  /** The first 3D corner looks `kk` up without reducing it; that lookup is
      in bounds because `kk` is a masked byte, and it agrees with the
      reduced form. */
  function Hash3Origin(perm: Table, ii: nat, jj: nat, kk: nat): (gi: nat)
    requires kk < 256
    ensures gi < 12
    ensures gi == Hash3(perm, ii, jj, kk, 0, 0, 0)
  {
    perm[(ii + perm[(jj + perm[kk]) % 256]) % 256] % 12
  }

  // ---------------------------------------------------------------------------
  // Corner selection and falloff

  /** Which of the two triangles of a 2D cell the point is in: the middle
      corner steps along x when x0 > y0, else along y. */
  function Corner2(x0: real, y0: real): (r: (nat, nat))
    ensures r.0 + r.1 == 1
    ensures r.0 == 1 <==> x0 > y0
  {
    if x0 > y0 then (1, 0) else (0, 1)
  }

  /** Offsets of the second and third corners of the 3D simplex. */
  datatype Offsets3 = Offsets3(i1: nat, j1: nat, k1: nat, i2: nat, j2: nat, k2: nat)

  /** Which of the six tetrahedra of a 3D cell the point is in. The first
      step goes along the axis of the largest local coordinate, the second
      step adds the axis of the middle one; ties are broken x before y
      before z. */
  function Corner3(x0: real, y0: real, z0: real): (o: Offsets3)
    ensures o.i1 <= 1 && o.j1 <= 1 && o.k1 <= 1 && o.i2 <= 1 && o.j2 <= 1 && o.k2 <= 1
    ensures o.i1 + o.j1 + o.k1 == 1 && o.i2 + o.j2 + o.k2 == 2
    ensures o.i1 <= o.i2 && o.j1 <= o.j2 && o.k1 <= o.k2
    ensures o.i1 == 1 <==> x0 >= y0 && x0 >= z0
    ensures o.j1 == 1 <==> y0 > x0 && y0 >= z0
    ensures o.k1 == 1 <==> z0 > x0 && z0 > y0
    ensures o.i2 == 0 <==> x0 < y0 && x0 < z0
    ensures o.j2 == 0 <==> y0 <= x0 && y0 < z0
    ensures o.k2 == 0 <==> z0 <= x0 && z0 <= y0
  {
    if x0 >= y0 then
      if y0 >= z0 then Offsets3(1, 0, 0, 1, 1, 0)
      else if x0 >= z0 then Offsets3(1, 0, 0, 1, 0, 1)
      else Offsets3(0, 0, 1, 1, 0, 1)
    else
      if y0 < z0 then Offsets3(0, 0, 1, 0, 1, 1)
      else if x0 < z0 then Offsets3(0, 1, 0, 0, 1, 1)
      else Offsets3(0, 1, 0, 1, 1, 0)
  }

  /** A corner's contribution: nothing when its falloff `t` is negative,
      else t^4 times the gradient's dot product with the corner offset. Its
      sign is the sign of the dot product. */
  function Contribution(t: real, dot: real): (n: real)
    ensures t < 0.0 ==> n == 0.0
    ensures n > 0.0 <==> t > 0.0 && dot > 0.0
    ensures n < 0.0 <==> t > 0.0 && dot < 0.0
  {
    if t < 0.0 then 0.0
    else
      SignOfProduct(t, dot);
      Pow(t, 4) * dot
  }

  lemma SignOfProduct(t: real, dot: real)
    requires t >= 0.0
    ensures Pow(t, 4) * dot > 0.0 <==> t > 0.0 && dot > 0.0
    ensures Pow(t, 4) * dot < 0.0 <==> t > 0.0 && dot < 0.0
  {
    var t4 := Pow(t, 4);
    if t == 0.0 {
      assert t4 == 0.0;
    } else {
      PowPositive(t, 4);
      if dot > 0.0 {
        MulPositive(t4, dot);
      } else if dot < 0.0 {
        MulPositive(t4, -dot);
      }
    }
  }

  // ---------------------------------------------------------------------------
  // The 2D kernel

  const Sqrt3: real := 1.7320508075688772935274463415059
  const F2: real := 0.5 * (Sqrt3 - 1.0)
  const G2: real := (3.0 - Sqrt3) / 6.0

  const Grad2: seq<(int, int)> :=
    [(1, 1), (-1, 1), (1, -1), (-1, -1),
     (1, 0), (-1, 0), (1, 0), (-1, 0),
     (0, 1), (0, -1), (0, 1), (0, -1)]

  /** Every 2D gradient picks out one offset coordinate or the sum or
      difference of both, with either sign. */
  function Dot2(g: (int, int), x: real, y: real): (r: real)
    ensures g in Grad2 ==>
              r == x + y || r == -x + y || r == x - y || r == -x - y
              || r == x || r == -x || r == y || r == -y
  {
    g.0 as real * x + g.1 as real * y
  }

  /** Lattice cell of a 2D point and the point's offset from its origin. */
  datatype Cell2 = Cell2(i: int, j: int, x0: real, y0: real)

  /** Skewing into the triangular lattice. As in the source, `j` is taken
      from `x + s` like `i`, so the two lattice indices always agree and
      the unskewed offset keeps the input's difference `x - y`. */
  function Skew2(x: real, y: real): (c: Cell2)
    ensures c.i == c.j
    ensures c.x0 - c.y0 == x - y
  {
    var s := (x + y) * F2;
    var i := (x + s).Floor;
    var j := (x + s).Floor;
    var t := (i + j) as real * G2;
    Cell2(i, j, x - (i as real - t), y - (j as real - t))
  }

  /** Offsets of the point from the three corners. The middle corner's
      offset is `x0 - (i1 + G2)`, as written in the source (the reference
      algorithm adds `G2`). */
  function CornerOffsets2(c: Cell2): (d: seq<(real, real)>)
    ensures |d| == 3
    ensures d[0] == (c.x0, c.y0)
    ensures d[1].0 == c.x0 - Corner2(c.x0, c.y0).0 as real - G2
    ensures d[1].1 == c.y0 - Corner2(c.x0, c.y0).1 as real - G2
    ensures d[2].0 - d[0].0 == d[2].1 - d[0].1 == 2.0 * G2 - 1.0
  {
    var (i1, j1) := Corner2(c.x0, c.y0);
    [(c.x0, c.y0),
     (c.x0 - (i1 as real + G2), c.y0 - (j1 as real + G2)),
     (c.x0 - 1.0 + 2.0 * G2, c.y0 - 1.0 + 2.0 * G2)]
  }

  /** Gradient indices of the three corners, all below 12. */
  function GradIndices2(perm: Table, c: Cell2): (g: seq<nat>)
    ensures |g| == 3
    ensures forall k :: 0 <= k < 3 ==> g[k] < |Grad2|
  {
    var (i1, j1) := Corner2(c.x0, c.y0);
    var ii := LowByte(c.i);
    var jj := LowByte(c.j);
    [Hash2(perm, ii, jj, 0, 0), Hash2(perm, ii, jj, i1, j1), Hash2(perm, ii, jj, 1, 1)]
  }

  function Falloff2(d: (real, real)): real
  {
    0.5 - d.0 * d.0 - d.1 * d.1
  }

  /** 2D simplex noise: 70 times the sum of the three corner contributions.
      A point outside the falloff radius of all three corners gets 0. */
  function GetValue2d(perm: Table, x: real, y: real): (r: real)
    ensures var d := CornerOffsets2(Skew2(x, y));
      (forall k :: 0 <= k < 3 ==> Falloff2(d[k]) < 0.0) ==> r == 0.0
  {
    var c := Skew2(x, y);
    var d := CornerOffsets2(c);
    var g := GradIndices2(perm, c);
    var n0 := Contribution(Falloff2(d[0]), Dot2(Grad2[g[0]], d[0].0, d[0].1));
    var n1 := Contribution(Falloff2(d[1]), Dot2(Grad2[g[1]], d[1].0, d[1].1));
    var n2 := Contribution(Falloff2(d[2]), Dot2(Grad2[g[2]], d[2].0, d[2].1));
    70.0 * (n0 + n1 + n2)
  }

  // ---------------------------------------------------------------------------
  // The 3D kernel

  const F3: real := 1.0 / 3.0
  const G3: real := 1.0 / 6.0

  const Grad3: seq<(int, int, int)> :=
    [(1, 1, 0), (-1, 1, 0), (1, -1, 0), (-1, -1, 0),
     (1, 0, 1), (-1, 0, 1), (1, 0, -1), (-1, 0, -1),
     (0, 1, 1), (0, -1, 1), (0, 1, -1), (0, -1, -1)]

  /** Every 3D gradient is an edge midpoint of the cube: it adds or
      subtracts two of the three offset coordinates and ignores the third. */
  function Dot3(g: (int, int, int), x: real, y: real, z: real): (r: real)
    ensures g in Grad3 ==>
              r == x + y || r == -x + y || r == x - y || r == -x - y
              || r == x + z || r == -x + z || r == x - z || r == -x - z
              || r == y + z || r == -y + z || r == y - z || r == -y - z
  {
    g.0 as real * x + g.1 as real * y + g.2 as real * z
  }

  datatype Cell3 = Cell3(i: int, j: int, k: int, x0: real, y0: real, z0: real)

  /** Skewing into the tetrahedral lattice. The offset from the cell
      origin, skewed back, is the fractional part of the skewed point: each
      of its coordinates lies in [0, 1). */
  function Skew3(x: real, y: real, z: real): (c: Cell3)
    ensures var s0 := (c.x0 + c.y0 + c.z0) * F3;
      && 0.0 <= c.x0 + s0 < 1.0
      && 0.0 <= c.y0 + s0 < 1.0
      && 0.0 <= c.z0 + s0 < 1.0
  {
    var s := (x + y + z) * F3;
    var i := (x + s).Floor;
    var j := (y + s).Floor;
    var k := (z + s).Floor;
    var t := (i + j + k) as real * G3;
    Cell3(i, j, k, x - (i as real - t), y - (j as real - t), z - (k as real - t))
  }

  /** Offsets of the point from the four corners. */
  function CornerOffsets3(c: Cell3): (d: seq<(real, real, real)>)
    ensures |d| == 4
    ensures d[0] == (c.x0, c.y0, c.z0)
    ensures var o := Corner3(c.x0, c.y0, c.z0);
            d[1] == (c.x0 - o.i1 as real + G3, c.y0 - o.j1 as real + G3, c.z0 - o.k1 as real + G3)
            && d[2] == (c.x0 - o.i2 as real + 2.0 * G3, c.y0 - o.j2 as real + 2.0 * G3, c.z0 - o.k2 as real + 2.0 * G3)
    ensures d[3] == (c.x0 - 0.5, c.y0 - 0.5, c.z0 - 0.5)
  {
    var o := Corner3(c.x0, c.y0, c.z0);
    [(c.x0, c.y0, c.z0),
     (c.x0 - o.i1 as real + G3, c.y0 - o.j1 as real + G3, c.z0 - o.k1 as real + G3),
     (c.x0 - o.i2 as real + 2.0 * G3, c.y0 - o.j2 as real + 2.0 * G3, c.z0 - o.k2 as real + 2.0 * G3),
     (c.x0 - 1.0 + 3.0 * G3, c.y0 - 1.0 + 3.0 * G3, c.z0 - 1.0 + 3.0 * G3)]
  }

  /** Gradient indices of the four corners, all below 12. */
  function GradIndices3(perm: Table, c: Cell3): (g: seq<nat>)
    ensures |g| == 4
    ensures forall n :: 0 <= n < 4 ==> g[n] < |Grad3|
  {
    var o := Corner3(c.x0, c.y0, c.z0);
    var ii := LowByte(c.i);
    var jj := LowByte(c.j);
    var kk := LowByte(c.k);
    [Hash3Origin(perm, ii, jj, kk),
     Hash3(perm, ii, jj, kk, o.i1, o.j1, o.k1),
     Hash3(perm, ii, jj, kk, o.i2, o.j2, o.k2),
     Hash3(perm, ii, jj, kk, 1, 1, 1)]
  }

  function Falloff3(d: (real, real, real)): real
  {
    0.6 - d.0 * d.0 - d.1 * d.1 - d.2 * d.2
  }

  /** 3D simplex noise of a skewed cell: 32 times the sum of the four
      corner contributions. A point outside the falloff radius of all four
      corners gets 0. */
  function CellValue3(perm: Table, c: Cell3): (r: real)
    ensures var d := CornerOffsets3(c);
      (forall n :: 0 <= n < 4 ==> Falloff3(d[n]) < 0.0) ==> r == 0.0
  {
    var d := CornerOffsets3(c);
    var g := GradIndices3(perm, c);
    var n0 := Contribution(Falloff3(d[0]), Dot3(Grad3[g[0]], d[0].0, d[0].1, d[0].2));
    var n1 := Contribution(Falloff3(d[1]), Dot3(Grad3[g[1]], d[1].0, d[1].1, d[1].2));
    var n2 := Contribution(Falloff3(d[2]), Dot3(Grad3[g[2]], d[2].0, d[2].1, d[2].2));
    var n3 := Contribution(Falloff3(d[3]), Dot3(Grad3[g[3]], d[3].0, d[3].1, d[3].2));
    32.0 * (n0 + n1 + n2 + n3)
  }

  /** 3D simplex noise at a point: the value of its skewed cell. */
  function GetValue3d(perm: Table, x: real, y: real, z: real): (r: real)
    ensures var d := CornerOffsets3(Skew3(x, y, z));
      (forall n :: 0 <= n < 4 ==> Falloff3(d[n]) < 0.0) ==> r == 0.0
  {
    CellValue3(perm, Skew3(x, y, z))
  }

  /** A cell's value sees its lattice indices only through their low
      bytes. */
  lemma CellValueMasked3(perm: Table, c: Cell3, c': Cell3)
    requires LowByte(c'.i) == LowByte(c.i) && LowByte(c'.j) == LowByte(c.j) && LowByte(c'.k) == LowByte(c.k)
    requires c'.x0 == c.x0 && c'.y0 == c.y0 && c'.z0 == c.z0
    ensures CellValue3(perm, c') == CellValue3(perm, c)
  {
    assert GradIndices3(perm, c') == GradIndices3(perm, c);
    assert CornerOffsets3(c') == CornerOffsets3(c);
  }

  /** Because lattice indices are masked to a byte, 3D noise repeats when
      the point moves by 256 along all three axes at once (the lattice
      indices move by 512, the offsets stay). */
  lemma Periodic3(perm: Table, x: real, y: real, z: real)
    ensures GetValue3d(perm, x + 256.0, y + 256.0, z + 256.0) == GetValue3d(perm, x, y, z)
  {
    var c := Skew3(x, y, z);
    var c' := Skew3(x + 256.0, y + 256.0, z + 256.0);
    Skew3Shift(x, y, z);
    LowByteShift(c.i);
    LowByteShift(c.j);
    LowByteShift(c.k);
    CellValueMasked3(perm, c, c');
  }

  /** Moving the point by 256 along all three axes moves its skewed sum by
      256, hence each lattice index by 512, and leaves the offsets alone. */
  lemma Skew3Shift(x: real, y: real, z: real)
    ensures var c := Skew3(x, y, z);
            Skew3(x + 256.0, y + 256.0, z + 256.0) == Cell3(c.i + 512, c.j + 512, c.k + 512, c.x0, c.y0, c.z0)
  {
    var s := (x + y + z) * F3;
    assert (x + 256.0 + y + 256.0 + z + 256.0) * F3 == s + 256.0;
    assert (x + 256.0 + (s + 256.0)).Floor == (x + s).Floor + 512;
    assert (y + 256.0 + (s + 256.0)).Floor == (y + s).Floor + 512;
    assert (z + 256.0 + (s + 256.0)).Floor == (z + s).Floor + 512;
  }

  // ---------------------------------------------------------------------------
  // The generator as a noise source

  /** The generator's value at a point of either dimension. Far enough
      from every corner of its cell the value is exactly 0. */
  function Eval(s: SimplexNoise, p: Point): (r: real)
    ensures p.Point2? ==> var d := CornerOffsets2(Skew2(p.x, p.y));
              (forall k :: 0 <= k < 3 ==> Falloff2(d[k]) < 0.0) ==> r == 0.0
    ensures p.Point3? ==> var d := CornerOffsets3(Skew3(p.x, p.y, p.z));
              (forall n :: 0 <= n < 4 ==> Falloff3(d[n]) < 0.0) ==> r == 0.0
  {
    match p
    case Point2(x, y) => GetValue2d(s.perm, x, y)
    case Point3(x, y, z) => GetValue3d(s.perm, x, y, z)
  }

  function AsKernel(s: SimplexNoise): Kernel
  {
    p => Eval(s, p)
  }

  /** The generator as a kernel inherits the 3D period: moving a 3D point
      by 256 along every axis leaves the sample unchanged. */
  lemma KernelPeriodic3(s: SimplexNoise, x: real, y: real, z: real)
    ensures AsKernel(s)(Point3(x + 256.0, y + 256.0, z + 256.0)) == AsKernel(s)(Point3(x, y, z))
  {
    Periodic3(s.perm, x, y, z);
  }
}
