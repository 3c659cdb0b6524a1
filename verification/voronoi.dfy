/**
  Voronoi (cellular) noise. Around the cell holding the point, every
  lattice cell within two steps on each axis (5 x 5 in 2D, 5 x 5 x 5 in 3D)
  gets one feature point: the cell corner moved by the kernel's value at
  that corner, the same amount on every axis. The scan keeps the nearest
  feature (squared distance, strict `<`, so ties keep the earliest in scan
  order) and the result is the kernel at the floor of that feature.
*/
module Voronoi {
  import opened Utils
  import opened NoiseGen
  import Simplex
  import LcgRng

  datatype VoronoiNoise = VoronoiNoise(simp: Simplex.SimplexNoise)

  function FromSeed(seed: LcgRng.U32, draw: Simplex.IndexSource): (r: VoronoiNoise)
    requires Simplex.DrawsBelow(draw)
    ensures GetSeed(r) == seed
    ensures r.simp == Simplex.FromSeed(seed, draw)
    ensures Simplex.IsPermutation(r.simp.perm, 256)
  {
    VoronoiNoise(Simplex.FromSeed(seed, draw))
  }

  function GetSeed(v: VoronoiNoise): (r: LcgRng.U32)
    ensures r == v.simp.seed
  {
    Simplex.GetSeed(v.simp)
  }

  /** The starting "nearest distance", 2^31 - 1. */
  const InitialMinDist: real := 2147483647.0

  /** The cell visited k-th: x varies fastest, then y, then z; each axis
      runs from floor - 2 to floor + 2. */
  function CellAt(p: Point, k: int): Point
    requires k >= 0
  {
    match p
    case Point2(x, y) =>
      Point2((x.Floor - 2 + k % 5) as real, (y.Floor - 2 + k / 5) as real)
    case Point3(x, y, z) =>
      Point3((x.Floor - 2 + k % 5) as real, (y.Floor - 2 + (k / 5) % 5) as real,
             (z.Floor - 2 + k / 25) as real)
  }

  function CellCount(p: Point): nat
  {
    if p.Point2? then 25 else 125
  }

  /** The neighbourhood in scan order. */
  function Cells(p: Point): (r: seq<Point>)
    ensures |r| == CellCount(p)
    ensures forall k :: 0 <= k < |r| ==> r[k].Point2? == p.Point2?
  {
    seq(CellCount(p), k requires 0 <= k => CellAt(p, k))
  }

  /** The 2D scan position of row a, column b. */
  lemma CellIndex2(x: real, y: real, a: int, b: int)
    requires 0 <= a < 5 && 0 <= b < 5
    ensures Cells(Point2(x, y))[5 * a + b] == Point2((x.Floor - 2 + b) as real, (y.Floor - 2 + a) as real)
  {
  }

  /** The 3D scan position of layer c, row a, column b. */
  lemma CellIndex3(x: real, y: real, z: real, c: int, a: int, b: int)
    requires 0 <= c < 5 && 0 <= a < 5 && 0 <= b < 5
    ensures Cells(Point3(x, y, z))[25 * c + 5 * a + b]
            == Point3((x.Floor - 2 + b) as real, (y.Floor - 2 + a) as real, (z.Floor - 2 + c) as real)
  {
    var k := 25 * c + 5 * a + b;
    assert k % 5 == b && (k / 5) % 5 == a && k / 25 == c;
  }

  /** The 2D scan visits exactly the cells within two steps of the point's
      cell on each axis. */
  lemma CellsCover2(x: real, y: real, cx: int, cy: int)
    ensures Point2(cx as real, cy as real) in Cells(Point2(x, y))
            <==> x.Floor - 2 <= cx <= x.Floor + 2 && y.Floor - 2 <= cy <= y.Floor + 2
  {
    var cells := Cells(Point2(x, y));
    if x.Floor - 2 <= cx <= x.Floor + 2 && y.Floor - 2 <= cy <= y.Floor + 2 {
      CellIndex2(x, y, cy - y.Floor + 2, cx - x.Floor + 2);
      assert cells[5 * (cy - y.Floor + 2) + (cx - x.Floor + 2)] == Point2(cx as real, cy as real);
    }
    if Point2(cx as real, cy as real) in cells {
      var k :| 0 <= k < |cells| && cells[k] == Point2(cx as real, cy as real);
      assert cells[k] == CellAt(Point2(x, y), k);
    }
  }

  /** The 3D scan visits exactly the cells within two steps of the point's
      cell on each axis. */
  lemma CellsCover3(x: real, y: real, z: real, cx: int, cy: int, cz: int)
    ensures Point3(cx as real, cy as real, cz as real) in Cells(Point3(x, y, z))
            <==> x.Floor - 2 <= cx <= x.Floor + 2 && y.Floor - 2 <= cy <= y.Floor + 2
                 && z.Floor - 2 <= cz <= z.Floor + 2
  {
    var cells := Cells(Point3(x, y, z));
    if x.Floor - 2 <= cx <= x.Floor + 2 && y.Floor - 2 <= cy <= y.Floor + 2 && z.Floor - 2 <= cz <= z.Floor + 2 {
      CellIndex3(x, y, z, cz - z.Floor + 2, cy - y.Floor + 2, cx - x.Floor + 2);
    }
    if Point3(cx as real, cy as real, cz as real) in cells {
      var k :| 0 <= k < |cells| && cells[k] == Point3(cx as real, cy as real, cz as real);
      assert cells[k] == CellAt(Point3(x, y, z), k);
    }
  }

  /** A point moved by `n` along every axis. */
  function Shift(c: Point, n: real): (f: Point)
    ensures f.Point2? == c.Point2?
    ensures f.x - c.x == n && f.y - c.y == n
    ensures f.Point3? ==> f.z - c.z == n
  {
    match c
    case Point2(x, y) => Point2(x + n, y + n)
    case Point3(x, y, z) => Point3(x + n, y + n, z + n)
  }

  /** A cell's feature point: the cell corner moved by the kernel's value
      there. */
  function Feature(kernel: Kernel, c: Point): (f: Point)
    ensures f.Point2? == c.Point2?
    ensures f.x - c.x == kernel(c) && f.y - c.y == kernel(c)
    ensures f.Point3? ==> f.z - c.z == kernel(c)
  {
    Shift(c, kernel(c))
  }

  function Features(kernel: Kernel, p: Point): (r: seq<Point>)
    ensures |r| == CellCount(p)
  {
    var cells := Cells(p);
    seq(|cells|, k requires 0 <= k < |cells| => Feature(kernel, cells[k]))
  }

  /** The feature at scan position `k` is the `k`-th cell's corner moved by
      the kernel's value at that corner. */
  lemma FeaturesFollowCells(kernel: Kernel, p: Point)
    ensures forall k :: 0 <= k < CellCount(p) ==>
              Features(kernel, p)[k] == Feature(kernel, Cells(p)[k])
              && Features(kernel, p)[k].x == Cells(p)[k].x + kernel(Cells(p)[k])
  {
  }

  /** The scan state: the smallest squared distance so far and the feature
      point that had it. */
  datatype Best = Best(minDist: real, can: Point)

  /** The origin of the point's dimension, the candidate before any wins. */
  function Origin(p: Point): Point
  {
    if p.Point2? then Point2(0.0, 0.0) else Point3(0.0, 0.0, 0.0)
  }

  function Start(p: Point): Best
  {
    Best(InitialMinDist, Origin(p))
  }

  /** How far a candidate is from the point being evaluated. */
  type Metric = Point -> real

  /** The scan's metric: squared Euclidean distance to `p`. */
  function DistTo(p: Point): Metric
  {
    q => SqDist(q, p)
  }

  /** One comparison of the scan: a strictly closer candidate wins. */
  function Consider(b: Best, dist: Metric, cand: Point): (r: Best)
    ensures r.minDist <= b.minDist && r.minDist <= dist(cand)
    ensures r == b || r == Best(dist(cand), cand)
  {
    if dist(cand) < b.minDist then Best(dist(cand), cand) else b
  }

  /** The scan over the first n candidates. */
  function ScanPrefix(dist: Metric, cands: seq<Point>, n: nat, init: Best): Best
    requires n <= |cands|
  {
    if n == 0 then init else Consider(ScanPrefix(dist, cands, n - 1, init), dist, cands[n - 1])
  }

  /** j is the first of the candidates 0..n-1 at the smallest distance. */
  ghost predicate EarliestNearest(dist: Metric, cands: seq<Point>, n: nat, j: int)
    requires n <= |cands|
  {
    0 <= j < n
    && (forall i :: 0 <= i < n ==> dist(cands[j]) <= dist(cands[i]))
    && (forall i :: 0 <= i < j ==> dist(cands[j]) < dist(cands[i]))
  }

  /** A candidate before the earliest nearest one is strictly farther,
      so it is not the earliest nearest itself. */
  lemma EarlierIsFarther(dist: Metric, cands: seq<Point>, n: nat, j: int, i: int)
    requires n <= |cands|
    requires EarliestNearest(dist, cands, n, j) && 0 <= i < j
    ensures !EarliestNearest(dist, cands, n, i)
  {
    assert dist(cands[j]) < dist(cands[i]);
  }

  /** There is at most one earliest nearest candidate. */
  lemma EarliestNearestUnique(dist: Metric, cands: seq<Point>, n: nat, j1: int, j2: int)
    requires n <= |cands|
    requires EarliestNearest(dist, cands, n, j1) && EarliestNearest(dist, cands, n, j2)
    ensures j1 == j2
  {
    if j1 < j2 {
      EarlierIsFarther(dist, cands, n, j2, j1);
    } else if j2 < j1 {
      EarlierIsFarther(dist, cands, n, j1, j2);
    }
  }

  /** The index of the scan's winner among the first n candidates, or -1
      while none has beaten the initial distance: a later candidate takes
      over only when strictly closer than the current winner. */
  function Winner(dist: Metric, cands: seq<Point>, n: nat, init: Best): (w: int)
    requires n <= |cands|
    ensures -1 <= w < n
  {
    if n == 0 then -1
    else
      var w := Winner(dist, cands, n - 1, init);
      var m := if w < 0 then init.minDist else dist(cands[w]);
      if dist(cands[n - 1]) < m then n - 1 else w
  }

  /** The scan state is the initial one while there is no winner, and
      otherwise the winner with its distance. */
  lemma {:induction false} ScanHoldsWinner(dist: Metric, cands: seq<Point>, n: nat, init: Best)
    requires n <= |cands|
    ensures var w := Winner(dist, cands, n, init);
            ScanPrefix(dist, cands, n, init)
            == if w < 0 then init else Best(dist(cands[w]), cands[w])
  {
    if n > 0 {
      ScanHoldsWinner(dist, cands, n - 1, init);
    }
  }

  /** A candidate below a bound that all earlier candidates reach is the
      earliest nearest so far. */
  lemma NewNearest(dist: Metric, cands: seq<Point>, n: nat, m: real)
    requires n < |cands|
    requires forall i :: 0 <= i < n ==> dist(cands[i]) >= m
    requires dist(cands[n]) < m
    ensures EarliestNearest(dist, cands, n + 1, n)
  {
  }

  /** A candidate that is not strictly closer leaves the earliest nearest
      in place. */
  lemma KeepNearest(dist: Metric, cands: seq<Point>, n: nat, j: int)
    requires n < |cands|
    requires EarliestNearest(dist, cands, n, j)
    requires dist(cands[n]) >= dist(cands[j])
    ensures EarliestNearest(dist, cands, n + 1, j)
  {
  }

  /** The winner is the earliest nearest candidate and beats the initial
      distance; without a winner no candidate does. */
  lemma {:induction false} WinnerIsEarliestNearest(dist: Metric, cands: seq<Point>, n: nat, init: Best)
    requires n <= |cands|
    ensures var w := Winner(dist, cands, n, init);
            (w < 0 ==> forall i :: 0 <= i < n ==> dist(cands[i]) >= init.minDist)
            && (w >= 0 ==> EarliestNearest(dist, cands, n, w) && dist(cands[w]) < init.minDist)
  {
    if n > 0 {
      var k := n - 1;
      WinnerIsEarliestNearest(dist, cands, k, init);
      var w := Winner(dist, cands, k, init);
      if w < 0 {
        if dist(cands[k]) < init.minDist {
          NewNearest(dist, cands, k, init.minDist);
        }
      } else if dist(cands[k]) < dist(cands[w]) {
        NewNearest(dist, cands, k, dist(cands[w]));
      } else {
        KeepNearest(dist, cands, k, w);
      }
    }
  }

  /** The scan never raises the best distance, and after n candidates it
      is at most the distance of each of them. */
  lemma {:induction false} ScanBelowAll(dist: Metric, cands: seq<Point>, n: nat, init: Best)
    requires n <= |cands|
    ensures ScanPrefix(dist, cands, n, init).minDist <= init.minDist
    ensures forall i :: 0 <= i < n ==> ScanPrefix(dist, cands, n, init).minDist <= dist(cands[i])
  {
    if n > 0 {
      ScanBelowAll(dist, cands, n - 1, init);
    }
  }

  /** The scan of the whole neighbourhood from the initial state: either
      still the initial state, or a visited feature with its own squared
      distance from the point. */
  function Nearest(kernel: Kernel, p: Point): (r: Best)
    ensures r == Start(p) || (r.can in Features(kernel, p) && r.minDist == SqDist(r.can, p))
  {
    var feats := Features(kernel, p);
    ScanHoldsWinner(DistTo(p), feats, |feats|, Start(p));
    ScanPrefix(DistTo(p), feats, |feats|, Start(p))
  }

  /** The point with every coordinate rounded down. */
  function FloorPoint(q: Point): Point
  {
    match q
    case Point2(x, y) => Point2(x.Floor as real, y.Floor as real)
    case Point3(x, y, z) => Point3(x.Floor as real, y.Floor as real, z.Floor as real)
  }

  /** Voronoi at a point: the kernel at the floor of the winning
      candidate, which is the origin default or one of the visited
      features. */
  function Noise(kernel: Kernel, p: Point): (r: real)
    ensures r == kernel(Origin(p))
            || exists j :: 0 <= j < CellCount(p) && r == kernel(FloorPoint(Features(kernel, p)[j]))
  {
    var b := Nearest(kernel, p);
    assert FloorPoint(Origin(p)) == Origin(p);
    kernel(FloorPoint(b.can))
  }

  /** For |a| <= m, a^2 <= m^2. */
  lemma SquareAtMost(a: real, m: real)
    requires -m <= a <= m
    ensures a * a <= m * m
  {
    if a >= 0.0 {
      ProductDominated(a, m, a, m);
    } else {
      ProductDominated(-a, m, -a, m);
      assert (-a) * (-a) == a * a;
    }
  }

  /** On one axis, the feature of the point's own cell is within 2 of the
      point (the cell corner is within 1 below, the kernel moves it by at
      most 1). */
  lemma AxisOffset(t: real, n: real)
    requires -1.0 <= n <= 1.0
    ensures (t.Floor as real + n - t) * (t.Floor as real + n - t) <= 4.0
  {
    SquareAtMost(t.Floor as real + n - t, 2.0);
  }

  /** The index of the point's own cell in the scan. */
  function CentreIndex(p: Point): nat
  {
    if p.Point2? then 12 else 62
  }

  /** With a kernel in [-1, 1], the feature of the point's own cell lies
      at squared distance at most 8 (2D) or 12 (3D), far below the initial
      2^31 - 1. */
  lemma CentreIsClose(kernel: Kernel, p: Point)
    requires InUnitRange(kernel)
    ensures CentreIndex(p) < CellCount(p)
    ensures SqDist(Features(kernel, p)[CentreIndex(p)], p) <= 12.0
  {
    var c := Cells(p)[CentreIndex(p)];
    match p {
      case Point2(x, y) =>
        CellIndex2(x, y, 2, 2);
      case Point3(x, y, z) =>
        CellIndex3(x, y, z, 2, 2, 2);
        AxisOffset(z, kernel(c));
    }
    assert -1.0 <= kernel(c) <= 1.0;
    AxisOffset(p.x, kernel(c));
    AxisOffset(p.y, kernel(c));
  }

  /** The range-independent promise of the scan: with a kernel in [-1, 1]
      the winner is always a real candidate (never the default origin),
      namely the earliest of the nearest features in scan order, and the
      result is the kernel at the floor of that feature. */
  lemma NoiseIsEarliestNearest(kernel: Kernel, p: Point)
    requires InUnitRange(kernel)
    ensures var feats := Features(kernel, p);
            exists j :: EarliestNearest(DistTo(p), feats, |feats|, j)
                     && Nearest(kernel, p) == Best(SqDist(feats[j], p), feats[j])
                     && Noise(kernel, p) == kernel(FloorPoint(feats[j]))
  {
    var feats := Features(kernel, p);
    ScanHoldsWinner(DistTo(p), feats, |feats|, Start(p));
    WinnerIsEarliestNearest(DistTo(p), feats, |feats|, Start(p));
    CentreIsClose(kernel, p);
    assert DistTo(p)(feats[CentreIndex(p)]) < InitialMinDist;
    var w := Winner(DistTo(p), feats, |feats|, Start(p));
    assert w >= 0;
  }

  /** After the scan the winning distance is at most that of every
      visited feature. */
  lemma NearestIsMinimal(kernel: Kernel, p: Point)
    ensures forall i :: 0 <= i < CellCount(p) ==> Nearest(kernel, p).minDist <= SqDist(Features(kernel, p)[i], p)
  {
    var feats := Features(kernel, p);
    ScanBelowAll(DistTo(p), feats, |feats|, Start(p));
  }

  /** The scan position of cell (cx, cy) in 2D. */
  function Index2(p: Point, cx: int, cy: int): int
  {
    5 * (cy - (p.y.Floor - 2)) + (cx - (p.x.Floor - 2))
  }

  /** The scan position of cell (cx, cy, cz) in 3D. */
  function Index3(p: Point, cx: int, cy: int, cz: int): int
    requires p.Point3?
  {
    25 * (cz - (p.z.Floor - 2)) + 5 * (cy - (p.y.Floor - 2)) + (cx - (p.x.Floor - 2))
  }

  /** One more 2D candidate: the scan that includes cell (cx, cy) is the
      scan before it followed by a comparison with that cell's feature. */
  lemma ScanStep2(kernel: Kernel, x: real, y: real, cx: int, cy: int)
    requires x.Floor - 2 <= cx <= x.Floor + 2 && y.Floor - 2 <= cy <= y.Floor + 2
    ensures var p := Point2(x, y);
            0 <= Index2(p, cx, cy) < 25
            && ScanPrefix(DistTo(p), Features(kernel, p), Index2(p, cx, cy) + 1, Start(p))
               == Consider(ScanPrefix(DistTo(p), Features(kernel, p), Index2(p, cx, cy), Start(p)), DistTo(p),
                           Feature(kernel, Point2(cx as real, cy as real)))
  {
    CellIndex2(x, y, cy - (y.Floor - 2), cx - (x.Floor - 2));
  }

  /** One more 3D candidate, for cell (cx, cy, cz). */
  lemma ScanStep3(kernel: Kernel, x: real, y: real, z: real, cx: int, cy: int, cz: int)
    requires x.Floor - 2 <= cx <= x.Floor + 2 && y.Floor - 2 <= cy <= y.Floor + 2
    requires z.Floor - 2 <= cz <= z.Floor + 2
    ensures var p := Point3(x, y, z);
            0 <= Index3(p, cx, cy, cz) < 125
            && ScanPrefix(DistTo(p), Features(kernel, p), Index3(p, cx, cy, cz) + 1, Start(p))
               == Consider(ScanPrefix(DistTo(p), Features(kernel, p), Index3(p, cx, cy, cz), Start(p)), DistTo(p),
                           Feature(kernel, Point3(cx as real, cy as real, cz as real)))
  {
    CellIndex3(x, y, z, cz - (z.Floor - 2), cy - (y.Floor - 2), cx - (x.Floor - 2));
  }

  /** The candidate of 2D cell (curX, curY), computed as the loop body
      does: its feature point and its squared distance from (x, y). */
  method Candidate2(kernel: Kernel, x: real, y: real, curX: int, curY: int)
    returns (xPos: real, yPos: real, dist: real)
    ensures Point2(xPos, yPos) == Feature(kernel, Point2(curX as real, curY as real))
    ensures dist == SqDist(Point2(xPos, yPos), Point2(x, y))
  {
    var n := kernel(Point2(curX as real, curY as real));
    xPos := curX as real + n;
    yPos := curY as real + n;
    var xDist := xPos - x;
    var yDist := yPos - y;
    dist := (xDist * xDist) + (yDist * yDist);
  }

  /** The candidate of 3D cell (curX, curY, curZ). */
  method Candidate3(kernel: Kernel, x: real, y: real, z: real, curX: int, curY: int, curZ: int)
    returns (xPos: real, yPos: real, zPos: real, dist: real)
    ensures Point3(xPos, yPos, zPos) == Feature(kernel, Point3(curX as real, curY as real, curZ as real))
    ensures dist == SqDist(Point3(xPos, yPos, zPos), Point3(x, y, z))
  {
    var n := kernel(Point3(curX as real, curY as real, curZ as real));
    xPos := curX as real + n;
    yPos := curY as real + n;
    zPos := curZ as real + n;
    var xDist := xPos - x;
    var yDist := yPos - y;
    var zDist := zPos - z;
    dist := (xDist * xDist) + (yDist * yDist) + (zDist * zDist);
  }

  /** The 2D scan as written: y outer, x inner, each from floor - 2 to
      floor + 2, with the candidate state in three variables. */
  method GetValue2d(kernel: Kernel, x: real, y: real) returns (r: real)
    ensures r == Noise(kernel, Point2(x, y))
  {
    ghost var p := Point2(x, y);
    ghost var feats := Features(kernel, p);
    var xi := x.Floor;
    var yi := y.Floor;
    var minDist := InitialMinDist;
    var xCan := 0.0;
    var yCan := 0.0;
    var curY := yi - 2;
    while curY < yi + 2 + 1
      invariant yi - 2 <= curY <= yi + 3
      invariant Best(minDist, Point2(xCan, yCan)) == ScanPrefix(DistTo(p), feats, 5 * (curY - (yi - 2)), Start(p))
    {
      var curX := xi - 2;
      while curX < xi + 2 + 1
        invariant xi - 2 <= curX <= xi + 3
        invariant Best(minDist, Point2(xCan, yCan)) == ScanPrefix(DistTo(p), feats, Index2(p, curX, curY), Start(p))
      {
        ScanStep2(kernel, x, y, curX, curY);
        var xPos, yPos, dist := Candidate2(kernel, x, y, curX, curY);
        if dist < minDist {
          minDist := dist;
          xCan := xPos;
          yCan := yPos;
        }
        curX := curX + 1;
      }
      curY := curY + 1;
    }
    r := kernel(Point2(xCan.Floor as real, yCan.Floor as real));
  }

  /** The 3D scan as written: z outermost, then y, then x. */
  method GetValue3d(kernel: Kernel, x: real, y: real, z: real) returns (r: real)
    ensures r == Noise(kernel, Point3(x, y, z))
  {
    ghost var p := Point3(x, y, z);
    ghost var feats := Features(kernel, p);
    var xi := x.Floor;
    var yi := y.Floor;
    var zi := z.Floor;
    var minDist := InitialMinDist;
    var xCan := 0.0;
    var yCan := 0.0;
    var zCan := 0.0;
    var curZ := zi - 2;
    while curZ < zi + 2 + 1
      invariant zi - 2 <= curZ <= zi + 3
      invariant Best(minDist, Point3(xCan, yCan, zCan)) == ScanPrefix(DistTo(p), feats, 25 * (curZ - (zi - 2)), Start(p))
    {
      var curY := yi - 2;
      while curY < yi + 2 + 1
        invariant yi - 2 <= curY <= yi + 3
        invariant Best(minDist, Point3(xCan, yCan, zCan))
                  == ScanPrefix(DistTo(p), feats, 25 * (curZ - (zi - 2)) + 5 * (curY - (yi - 2)), Start(p))
      {
        var curX := xi - 2;
        while curX < xi + 2 + 1
          invariant xi - 2 <= curX <= xi + 3
          invariant Best(minDist, Point3(xCan, yCan, zCan))
                    == ScanPrefix(DistTo(p), feats, Index3(p, curX, curY, curZ), Start(p))
        {
          ScanStep3(kernel, x, y, z, curX, curY, curZ);
          var xPos, yPos, zPos, dist := Candidate3(kernel, x, y, z, curX, curY, curZ);
          if dist < minDist {
            minDist := dist;
            xCan := xPos;
            yCan := yPos;
            zCan := zPos;
          }
          curX := curX + 1;
        }
        curY := curY + 1;
      }
      curZ := curZ + 1;
    }
    r := kernel(Point3(xCan.Floor as real, yCan.Floor as real, zCan.Floor as real));
  }
}
