/**
 * Points of the plane (nalgebra's `Point2`) and squared distances between them. The
 * trigonometry and the vector norm nalgebra provides are not modelled: they enter as an
 * `Oracle` parameter.
 */
module Geometry {
  import opened RandomSource

  datatype Point = Point(x: real, y: real)

  type NonNeg = r: real | r >= 0.0

  /**
   * What nalgebra computes and this model does not: the norm of a vector, the angle of
   * `Rotation2::rotation_between(&Vector2::y(), &v)`, and sine and cosine.
   */
  datatype Oracle = Oracle(
    norm: Point -> NonNeg,
    bearing: Point -> real,
    sin: real -> real,
    cos: real -> real)

  function Sub(a: Point, b: Point): Point
  {
    Point(a.x - b.x, a.y - b.y)
  }

  /** The square of the Euclidean distance (nalgebra's `distance`, squared). */
  function SqDist(a: Point, b: Point): (r: real)
    ensures r >= 0.0
  {
    (a.x - b.x) * (a.x - b.x) + (a.y - b.y) * (a.y - b.y)
  }

  predicate InBox(p: Point, width: real, height: real)
  {
    0.0 <= p.x < width && 0.0 <= p.y < height
  }

  /** `rng.gen::<Point2<f32>>()`: two unit draws, x first, so a point of the unit square. */
  function RandomPoint(rng: Rng): (r: (Point, Rng))
    ensures InBox(r.0, 1.0, 1.0)
    ensures r.1.pos == rng.pos + 2
  {
    var (x, mid) := NextUnit(rng);
    var (y, next) := NextUnit(mid);
    (Point(x, y), next)
  }
}
