/**
  The evaluation contract every generator of the library shares: a value
  at a 2D or a 3D point. The two evaluation entry points `get_value2d` and
  `get_value3d` become one function over `Point`, so that a combinator is
  written once for both dimensions.
*/
module NoiseGen {

  datatype Point = Point2(x: real, y: real) | Point3(x: real, y: real, z: real)

  /** A noise source, as the combinators see their base generator. */
  type Kernel = Point -> real

  /** The point with every coordinate multiplied by `f`. */
  function Scale(p: Point, f: real): (q: Point)
    ensures q.Point2? <==> p.Point2?
    ensures q.x == p.x * f && q.y == p.y * f
    ensures q.Point3? ==> q.z == p.z * f
  {
    match p
    case Point2(x, y) => Point2(x * f, y * f)
    case Point3(x, y, z) => Point3(x * f, y * f, z * f)
  }

  lemma ScaleByOne(p: Point)
    ensures Scale(p, 1.0) == p
  {
  }

  /** Scaling twice is scaling once by the product. */
  lemma ScaleTwice(p: Point, f: real, g: real)
    ensures Scale(Scale(p, f), g) == Scale(p, f * g)
  {
    assert p.x * f * g == p.x * (f * g);
    assert p.y * f * g == p.y * (f * g);
    if p.Point3? {
      assert p.z * f * g == p.z * (f * g);
    }
  }

  /** The kernel with every value negated. */
  function Negate(kernel: Kernel): (k: Kernel)
    ensures forall p :: k(p) == -kernel(p)
  {
    p => -kernel(p)
  }

  /** The kernel's values lie in [-1, 1], the range the simplex kernel is
      designed to keep to. */
  ghost predicate InUnitRange(kernel: Kernel)
  {
    forall p: Point :: -1.0 <= kernel(p) <= 1.0
  }

  /** Squared Euclidean distance; a 2D point has no z to compare. */
  function SqDist(a: Point, b: Point): (d: real)
    ensures d >= 0.0
  {
    var dx := a.x - b.x;
    var dy := a.y - b.y;
    if a.Point3? && b.Point3? then
      var dz := a.z - b.z;
      dx * dx + dy * dy + dz * dz
    else
      dx * dx + dy * dy
  }
}
