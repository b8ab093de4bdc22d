/** Scalar and point primitives of the sampler: linear interpolation, planar distance,
    bearing, and the ratio inside one segment that reaches a wanted path distance.
    A point is (longitude, latitude) in degrees, used here as plain planar coordinates. */
module PointMath {
  import opened Numerics

  datatype Point = Point(x: real, y: real)

  /** Interpolates between start and end; equal ends are returned unchanged whatever the ratio. */
  function Lerp(start: real, end: real, ratio: real): (r: real)
    ensures r - start == ratio * (end - start)
    ensures start == end ==> r == start
    ensures ratio == 0.0 ==> r == start
    ensures ratio == 1.0 ==> r == end
  {
    if start == end then start else start * (1.0 - ratio) + end * ratio
  }

  /** Component-wise interpolation; a component on which the ends agree is kept as it is. */
  function LerpPoints(start: Point, end: Point, ratio: real): (r: Point)
    ensures r.x - start.x == ratio * (end.x - start.x)
    ensures r.y - start.y == ratio * (end.y - start.y)
    ensures start == end ==> r == start
  {
    Point(Lerp(start.x, end.x, ratio), Lerp(start.y, end.y, ratio))
  }

  /** Squared planar length of the vector from start to end. */
  function SquaredDist(start: Point, end: Point): real
  {
    (end.x - start.x) * (end.x - start.x) + (end.y - start.y) * (end.y - start.y)
  }

  /** Planar (not geodesic) distance: the square root of the squared coordinate differences. */
  function DistBetweenPoints(m: Maths, start: Point, end: Point): real
  {
    Sqrt(m, SquaredDist(start, end))
  }

  /** Bearing of the vector from start to end, in radians, 0 pointing toward +x. */
  function AngleBetweenPoints(m: Maths, start: Point, end: Point): real
  {
    Atan2(m, end.y - start.y, end.x - start.x)
  }

  /** Given that distTravelled is the path length up to and including end, the ratio along
      [start, end] at which the path length equals distWanted. */
  function FindRatioToGetDistance(m: Maths, start: Point, end: Point, distTravelled: real, distWanted: real): (r: real)
    requires DistBetweenPoints(m, start, end) != 0.0
    ensures (distTravelled - DistBetweenPoints(m, start, end)) + r * DistBetweenPoints(m, start, end) == distWanted
  {
    var totalDist := DistBetweenPoints(m, start, end);
    var distRemain := distWanted - (distTravelled - totalDist);
    distRemain / totalDist
  }

  /** The planar distance is non-negative, symmetric, zero on equal points, and its square
      is the sum of squared coordinate differences. */
  lemma DistProperties(m: Maths, a: Point, b: Point)
    requires IsSqrt(m)
    ensures 0.0 <= DistBetweenPoints(m, a, b)
    ensures DistBetweenPoints(m, a, b) * DistBetweenPoints(m, a, b) == SquaredDist(a, b)
    ensures a == b ==> DistBetweenPoints(m, a, b) == 0.0
    ensures DistBetweenPoints(m, a, b) == DistBetweenPoints(m, b, a)
  {
    SquaredDistNonNegative(a, b);
    assert SquaredDist(b, a) == SquaredDist(a, b);
    SqrtValues(m, SquaredDist(a, b));
  }

  lemma SquaredDistNonNegative(a: Point, b: Point)
    ensures 0.0 <= SquaredDist(a, b)
  {
    SquareNonNegative(b.x - a.x);
    SquareNonNegative(b.y - a.y);
  }

  /** Moving a fraction r >= 0 of the way from a to b covers r times the distance. */
  lemma LerpDistance(m: Maths, a: Point, b: Point, r: real)
    requires IsSqrt(m) && 0.0 <= r
    ensures DistBetweenPoints(m, a, LerpPoints(a, b, r)) == r * DistBetweenPoints(m, a, b)
  {
    var p := LerpPoints(a, b, r);
    var dx, dy := b.x - a.x, b.y - a.y;
    assert p.x - a.x == r * dx && p.y - a.y == r * dy;
    assert SquaredDist(a, p) == (r * dx) * (r * dx) + (r * dy) * (r * dy);
    assert SquaredDist(a, b) == dx * dx + dy * dy;
    assert (r * dx) * (r * dx) + (r * dy) * (r * dy) == r * r * (dx * dx + dy * dy);
    assert SquaredDist(a, p) == r * r * SquaredDist(a, b);
    SquaredDistNonNegative(a, b);
    SqrtScale(m, r, SquaredDist(a, b), SquaredDist(a, p));
  }

  /** The bearing points along the segment: cos and sin of it, scaled by the segment length,
      give back the coordinate differences. */
  lemma AngleAlongSegment(m: Maths, a: Point, b: Point)
    requires IsSqrt(m) && IsTrig(m) && a != b
    ensures Cos(m, AngleBetweenPoints(m, a, b)) * DistBetweenPoints(m, a, b) == b.x - a.x
    ensures Sin(m, AngleBetweenPoints(m, a, b)) * DistBetweenPoints(m, a, b) == b.y - a.y
  {
    var dx, dy := b.x - a.x, b.y - a.y;
    assert Polar(m, dx, dy);
    assert dx * dx + dy * dy == SquaredDist(a, b);
  }

  /** Reversing a segment turns its bearing by a half turn: cos and sin change sign. */
  lemma BearingReversed(m: Maths, a: Point, b: Point)
    requires IsSqrt(m) && IsTrig(m) && a != b
    ensures Cos(m, AngleBetweenPoints(m, b, a)) == -Cos(m, AngleBetweenPoints(m, a, b))
    ensures Sin(m, AngleBetweenPoints(m, b, a)) == -Sin(m, AngleBetweenPoints(m, a, b))
  {
    AngleAlongSegment(m, a, b);
    AngleAlongSegment(m, b, a);
    DistProperties(m, a, b);
    var d := DistBetweenPoints(m, a, b);
    Opposite(Cos(m, AngleBetweenPoints(m, a, b)), Cos(m, AngleBetweenPoints(m, b, a)), d);
    Opposite(Sin(m, AngleBetweenPoints(m, a, b)), Sin(m, AngleBetweenPoints(m, b, a)), d);
  }

  /** Two factors whose products with the same non-zero d are opposite are opposite. */
  lemma Opposite(u: real, v: real, d: real)
    requires d != 0.0 && v * d == -(u * d)
    ensures v == -u
  {
    assert (v + u) * d == 0.0;
  }
}
