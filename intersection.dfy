/** Intersection of the two infinite lines through two pairs of points
    (AverageMethod.lineLineIntersect), and the filter that accepts an intersection
    (checkIntersection). */
module IntersectionSolver {
  import opened Numerics
  import opened PointMath

  /** lineLineIntersect's two outcomes: the sentinel object it returns for parallel or
      degenerate lines, or the array [x, y]. */
  datatype Intersection = Parallel | Pt(at: Point)

  /** Cross product of the direction vectors p1 -> q1 and p2 -> q2. */
  function Cross(p1: Point, q1: Point, p2: Point, q2: Point): real
  {
    (q1.x - p1.x) * (q2.y - p2.y) - (q1.y - p1.y) * (q2.x - p2.x)
  }

  /** The point at parameter t on the line through s and e (s at 0, e at 1). */
  function Along(s: Point, e: Point, t: real): Point
  {
    Point(s.x + t * (e.x - s.x), s.y + t * (e.y - s.y))
  }

  function Denominator(l1s: Point, l1e: Point, l2s: Point, l2e: Point): real
  {
    ((l2e.y - l2s.y) * (l1e.x - l1s.x)) - ((l2e.x - l2s.x) * (l1e.y - l1s.y))
  }

  function Numerator1(l1s: Point, l1e: Point, l2s: Point, l2e: Point): real
  {
    ((l2e.x - l2s.x) * (l1s.y - l2s.y)) - ((l2e.y - l2s.y) * (l1s.x - l2s.x))
  }

  function Numerator2(l1s: Point, l1e: Point, l2s: Point, l2e: Point): real
  {
    ((l1e.x - l1s.x) * (l1s.y - l2s.y)) - ((l1e.y - l1s.y) * (l1s.x - l2s.x))
  }

  /** Parameter of the intersection along line 1 (a in the source). */
  function Param1(l1s: Point, l1e: Point, l2s: Point, l2e: Point): real
    requires Denominator(l1s, l1e, l2s, l2e) != 0.0
  {
    Numerator1(l1s, l1e, l2s, l2e) / Denominator(l1s, l1e, l2s, l2e)
  }

  /** Parameter of the intersection along line 2 (b in the source); the source derives its
      onLine2 flag from it and then drops the flag. */
  function Param2(l1s: Point, l1e: Point, l2s: Point, l2e: Point): real
    requires Denominator(l1s, l1e, l2s, l2e) != 0.0
  {
    Numerator2(l1s, l1e, l2s, l2e) / Denominator(l1s, l1e, l2s, l2e)
  }

  /** lineLineIntersect: the sentinel when the denominator is zero, otherwise the point at
      parameter a on line 1. The onLine1/onLine2 flags are not part of the result. */
  function LineLineIntersect(l1s: Point, l1e: Point, l2s: Point, l2e: Point): (r: Intersection)
    ensures r.Parallel? <==> Cross(l1s, l1e, l2s, l2e) == 0.0
  {
    var denominator := Denominator(l1s, l1e, l2s, l2e);
    if denominator == 0.0 then Parallel
    else
      var a := Param1(l1s, l1e, l2s, l2e);
      Pt(Point(l1s.x + (a * (l1e.x - l1s.x)), l1s.y + (a * (l1e.y - l1s.y))))
  }

  /** checkIntersection: rejects a point with an infinite coordinate. The parallel sentinel
      is an object, so int[0] and int[1] are undefined, Math.abs gives NaN, both comparisons
      with Infinity are false, and the sentinel is accepted. */
  function CheckIntersection(m: Maths, i: Intersection): bool
  {
    match i
    case Parallel => true
    case Pt(p) => IsFinite(m, p.x) && IsFinite(m, p.y)
  }

  /** Over the reals no coordinate overflows to an infinity, so with a finiteness test that
      holds everywhere checkIntersection accepts every outcome of lineLineIntersect. */
  lemma ExactAcceptsAll(m: Maths, i: Intersection)
    requires forall x :: IsFinite(m, x)
    ensures CheckIntersection(m, i)
  {
  }

  /** Dividing out a non-zero factor. */
  lemma CancelFactor(lhs: real, rhs: real, den: real)
    requires den != 0.0 && lhs * den == rhs * den
    ensures lhs == rhs
  {
    assert (lhs - rhs) * den == 0.0;
  }

  /** The point lineLineIntersect returns lies on both infinite lines: at parameter a on
      line 1 and at parameter b on line 2. This is what the comment beside the computation
      means; its formula for y along line 2 starts from the x coordinate of l2s, a slip,
      and the form proved here starts from the y coordinate. */
  lemma IntersectionOnBothLines(l1s: Point, l1e: Point, l2s: Point, l2e: Point)
    requires LineLineIntersect(l1s, l1e, l2s, l2e).Pt?
    ensures Denominator(l1s, l1e, l2s, l2e) != 0.0
    ensures LineLineIntersect(l1s, l1e, l2s, l2e).at == Along(l1s, l1e, Param1(l1s, l1e, l2s, l2e))
    ensures LineLineIntersect(l1s, l1e, l2s, l2e).at == Along(l2s, l2e, Param2(l1s, l1e, l2s, l2e))
  {
    var den := Denominator(l1s, l1e, l2s, l2e);
    var a, b := Param1(l1s, l1e, l2s, l2e), Param2(l1s, l1e, l2s, l2e);
    Quotient(Numerator1(l1s, l1e, l2s, l2e), den);
    Quotient(Numerator2(l1s, l1e, l2s, l2e), den);
    CramerX(l1e.x - l1s.x, l1e.y - l1s.y, l2e.x - l2s.x, l2e.y - l2s.y, l1s.y - l2s.y, l1s.x - l2s.x, a, b, den);
    CramerY(l1e.x - l1s.x, l1e.y - l1s.y, l2e.x - l2s.x, l2e.y - l2s.y, l1s.y - l2s.y, l1s.x - l2s.x, a, b, den);
  }

  /** A quotient times its non-zero divisor gives back the dividend. */
  lemma Quotient(n: real, d: real)
    requires d != 0.0
    ensures (n / d) * d == n
  {
  }

  lemma CramerX(d1x: real, d1y: real, d2x: real, d2y: real, a0: real, b0: real, a: real, b: real, den: real)
    requires den == d2y * d1x - d2x * d1y && den != 0.0
    requires a * den == d2x * a0 - d2y * b0
    requires b * den == d1x * a0 - d1y * b0
    ensures b0 + a * d1x == b * d2x
  {
    assert (b0 + a * d1x) * den == b0 * den + (a * den) * d1x;
    assert b0 * den + (d2x * a0 - d2y * b0) * d1x == d2x * (d1x * a0 - d1y * b0);
    assert (b * d2x) * den == d2x * (b * den);
    CancelFactor(b0 + a * d1x, b * d2x, den);
  }

  lemma CramerY(d1x: real, d1y: real, d2x: real, d2y: real, a0: real, b0: real, a: real, b: real, den: real)
    requires den == d2y * d1x - d2x * d1y && den != 0.0
    requires a * den == d2x * a0 - d2y * b0
    requires b * den == d1x * a0 - d1y * b0
    ensures a0 + a * d1y == b * d2y
  {
    assert (a0 + a * d1y) * den == a0 * den + (a * den) * d1y;
    assert a0 * den + (d2x * a0 - d2y * b0) * d1y == d2y * (d1x * a0 - d1y * b0);
    assert (b * d2y) * den == d2y * (b * den);
    CancelFactor(a0 + a * d1y, b * d2y, den);
  }

  /** Conversely, when the lines are not parallel, every point common to both lines is the
      point lineLineIntersect returns: the intersection is unique. */
  lemma IntersectionUnique(l1s: Point, l1e: Point, l2s: Point, l2e: Point, s: real, t: real)
    requires Cross(l1s, l1e, l2s, l2e) != 0.0
    requires Along(l1s, l1e, s) == Along(l2s, l2e, t)
    ensures LineLineIntersect(l1s, l1e, l2s, l2e) == Pt(Along(l1s, l1e, s))
    ensures s == Param1(l1s, l1e, l2s, l2e)
  {
    var den := Denominator(l1s, l1e, l2s, l2e);
    var a := Param1(l1s, l1e, l2s, l2e);
    assert a * den == Numerator1(l1s, l1e, l2s, l2e);
    var d1x, d1y := l1e.x - l1s.x, l1e.y - l1s.y;
    var d2x, d2y := l2e.x - l2s.x, l2e.y - l2s.y;
    var a0, b0 := l1s.y - l2s.y, l1s.x - l2s.x;
    SolveFirst(d1x, d1y, d2x, d2y, a0, b0, s, t, den);
    CancelFactor(s, a, den);
  }

  lemma SolveFirst(d1x: real, d1y: real, d2x: real, d2y: real, a0: real, b0: real, s: real, t: real, den: real)
    requires den == d2y * d1x - d2x * d1y
    requires b0 + s * d1x == t * d2x
    requires a0 + s * d1y == t * d2y
    ensures s * den == d2x * a0 - d2y * b0
  {
    assert s * den == d2y * (s * d1x) - d2x * (s * d1y);
    assert d2y * (t * d2x - b0) - d2x * (t * d2y - a0) == d2x * a0 - d2y * b0;
  }
}
