/** Arc-length sampling of a path (AverageMethod.getPoint): the point at a wanted planar
    distance along an ordered sequence of vertices, interpolated inside its segment. */
module PathSampler {
  import opened Wrappers
  import opened Numerics
  import opened PointMath

  /** A sampled point and the index of the vertex that precedes it (getPoint's [point, index]). */
  datatype Sample = Sample(point: Point, index: nat)

  /** Planar path length from vertex 0 to vertex v. */
  function LengthTo(m: Maths, points: seq<Point>, v: nat): real
    requires v < |points|
  {
    if v == 0 then 0.0 else LengthTo(m, points, v - 1) + DistBetweenPoints(m, points[v - 1], points[v])
  }

  /** Planar length of the whole path. */
  function TotalLength(m: Maths, points: seq<Point>): real
    requires |points| >= 1
  {
    LengthTo(m, points, |points| - 1)
  }

  /** The first vertex u >= v whose path length reaches distWanted, if any. */
  function FirstReaching(m: Maths, points: seq<Point>, distWanted: real, v: nat): (r: Option<nat>)
    requires v <= |points|
    decreases |points| - v
    ensures r.Some? ==> v <= r.value < |points| && distWanted <= LengthTo(m, points, r.value)
    ensures r.Some? && v < r.value ==> LengthTo(m, points, r.value - 1) < distWanted
    ensures r.None? && v < |points| ==> TotalLength(m, points) < distWanted
  {
    if v == |points| then None
    else if distWanted <= LengthTo(m, points, v) then Some(v)
    else FirstReaching(m, points, distWanted, v + 1)
  }

  /** What getPoint returns. A non-positive distance gives the first vertex with index 0: zero
      by the explicit test, a negative one because the walk stops before its first step and
      the reference-equality test then returns the first vertex. A positive distance is found
      in the segment that ends at the first vertex whose path length reaches it, at the ratio
      that makes up the difference; None when no vertex reaches it. */
  function SampleAt(m: Maths, points: seq<Point>, distWanted: real): (r: Option<Sample>)
    requires |points| >= 1
    ensures r.Some? ==> r.value.index < |points|
    ensures r.Some? && |points| >= 2 ==> r.value.index + 1 < |points|
    ensures r.Some? && 0.0 < distWanted ==>
      && r.value.index + 1 < |points|
      && LengthTo(m, points, r.value.index) < distWanted <= LengthTo(m, points, r.value.index + 1)
    ensures r.None? ==> 0.0 < distWanted && TotalLength(m, points) < distWanted
  {
    if distWanted <= 0.0 then Some(Sample(points[0], 0))
    else match FirstReaching(m, points, distWanted, 1)
      case None => None
      case Some(u) =>
        var k := u - 1;
        assert LengthTo(m, points, k) < distWanted;
        var ratio := FindRatioToGetDistance(m, points[k], points[u], LengthTo(m, points, u), distWanted);
        Some(Sample(LerpPoints(points[k], points[u], ratio), k))
  }

  /** getPoint, as the source writes it: walk the vertices accumulating segment lengths until
      the total reaches distWanted, and interpolate inside the last segment walked. */
  method GetPoint(m: Maths, points: seq<Point>, distWanted: real) returns (r: Option<Sample>)
    requires |points| >= 1
    ensures r == SampleAt(m, points, distWanted)
    ensures distWanted == 0.0 ==> r == Some(Sample(points[0], 0))
  {
    if distWanted == 0.0 {
      return Some(Sample(points[0], 0));
    }
    var distTravelled := 0.0;
    var currentPoint := points[0];
    var pointIndex := 0;
    var i := 1;
    while i <= |points|
      invariant 1 <= i <= |points|
      invariant currentPoint == points[i - 1]
      invariant pointIndex == if i == 1 then 0 else i - 2
      invariant distTravelled == LengthTo(m, points, i - 1)
      invariant 2 <= i ==> 0.0 < distWanted
      invariant 2 <= i ==> FirstReaching(m, points, distWanted, 1) == FirstReaching(m, points, distWanted, i - 1)
    {
      if distTravelled >= distWanted {
        break;
      }
      if i == |points| {
        // points[i] is undefined: the path ran out before reaching distWanted
        return None;
      }
      var nextPoint := points[i];
      distTravelled := distTravelled + DistBetweenPoints(m, currentPoint, nextPoint);
      currentPoint := nextPoint;
      pointIndex := i - 1;
      i := i + 1;
    }
    var prevPoint := points[pointIndex];
    // prevPoint and currentPoint are the same array element exactly when no step was taken
    if i == 1 {
      return Some(Sample(prevPoint, pointIndex));
    }
    assert FirstReaching(m, points, distWanted, 1) == Some(i - 1);
    var ratio := FindRatioToGetDistance(m, prevPoint, currentPoint, distTravelled, distWanted);
    return Some(Sample(LerpPoints(prevPoint, currentPoint, ratio), pointIndex));
  }

  /** FirstReaching finds the first vertex: every vertex it passes over falls short. */
  lemma {:induction false} FirstReachingMinimal(m: Maths, points: seq<Point>, distWanted: real, v: nat)
    requires v <= |points|
    decreases |points| - v
    ensures var r := FirstReaching(m, points, distWanted, v);
      && (r.Some? ==> forall u :: v <= u < r.value ==> LengthTo(m, points, u) < distWanted)
      && (r.None? ==> forall u :: v <= u < |points| ==> LengthTo(m, points, u) < distWanted)
  {
    if v < |points| && LengthTo(m, points, v) < distWanted {
      FirstReachingMinimal(m, points, distWanted, v + 1);
    }
  }

  /** For a positive distance, every vertex up to the reported one falls short of it, and
      getPoint returns null exactly when every vertex falls short. */
  lemma SampleAtMinimal(m: Maths, points: seq<Point>, distWanted: real)
    requires |points| >= 1
    ensures var r := SampleAt(m, points, distWanted);
      && (r.Some? && 0.0 < distWanted ==>
            forall u :: 0 <= u <= r.value.index ==> LengthTo(m, points, u) < distWanted)
      && (r.None? <==> 0.0 < distWanted && forall u :: 0 <= u < |points| ==> LengthTo(m, points, u) < distWanted)
  {
    FirstReachingMinimal(m, points, distWanted, 1);
    var f := FirstReaching(m, points, distWanted, 1);
    if distWanted <= 0.0 {
    } else if f.Some? {
      // vertex f.value is one that does not fall short
      assert distWanted <= LengthTo(m, points, f.value);
    } else {
      forall u | 0 <= u < |points|
        ensures LengthTo(m, points, u) < distWanted
      {
        if u == 0 {
          assert LengthTo(m, points, 0) == 0.0;
        }
      }
    }
  }

  /** With a true square root the path length never decreases along the path. */
  lemma {:induction false} LengthToMonotone(m: Maths, points: seq<Point>, u: nat, v: nat)
    requires IsSqrt(m) && u <= v < |points|
    ensures LengthTo(m, points, u) <= LengthTo(m, points, v)
    decreases v - u
  {
    if u < v {
      LengthToMonotone(m, points, u, v - 1);
      DistProperties(m, points[v - 1], points[v]);
    }
  }

  /** For a positive distance, getPoint returns null exactly when the distance exceeds the
      length of the whole path. */
  lemma Exhaustion(m: Maths, points: seq<Point>, distWanted: real)
    requires IsSqrt(m) && |points| >= 1 && 0.0 < distWanted
    ensures SampleAt(m, points, distWanted).None? <==> TotalLength(m, points) < distWanted
  {
    SampleAtMinimal(m, points, distWanted);
    if TotalLength(m, points) < distWanted {
      forall u | 0 <= u < |points|
        ensures LengthTo(m, points, u) < distWanted
      {
        LengthToMonotone(m, points, u, |points| - 1);
      }
    }
  }

  /** The segment getPoint reports is the only one whose ends bracket the distance. */
  lemma SegmentUnique(m: Maths, points: seq<Point>, distWanted: real, k: nat)
    requires IsSqrt(m) && |points| >= 1 && 0.0 < distWanted
    requires k + 1 < |points| && LengthTo(m, points, k) < distWanted <= LengthTo(m, points, k + 1)
    ensures SampleAt(m, points, distWanted).Some?
    ensures SampleAt(m, points, distWanted).value.index == k
  {
    var r := SampleAt(m, points, distWanted);
    SampleAtMinimal(m, points, distWanted);
    LengthToMonotone(m, points, k + 1, |points| - 1);
    assert r.Some?;
    var j := r.value.index;
    if j < k {
      LengthToMonotone(m, points, j + 1, k);
    }
  }

  /** For a positive distance the reported segment has positive length, the ratio found in it
      lies in (0, 1], and the returned point is the interpolation at that ratio. */
  lemma RatioInRange(m: Maths, points: seq<Point>, distWanted: real)
    requires |points| >= 1 && 0.0 < distWanted && SampleAt(m, points, distWanted).Some?
    ensures var k := SampleAt(m, points, distWanted).value.index;
      && 0.0 < DistBetweenPoints(m, points[k], points[k + 1])
      && var ratio := FindRatioToGetDistance(m, points[k], points[k + 1], LengthTo(m, points, k + 1), distWanted);
      && 0.0 < ratio <= 1.0
      && SampleAt(m, points, distWanted).value.point == LerpPoints(points[k], points[k + 1], ratio)
  {
    var k := SampleAt(m, points, distWanted).value.index;
    assert FirstReaching(m, points, distWanted, 1) == Some(k + 1);
    var d := DistBetweenPoints(m, points[k], points[k + 1]);
    var ratio := FindRatioToGetDistance(m, points[k], points[k + 1], LengthTo(m, points, k + 1), distWanted);
    assert LengthTo(m, points, k + 1) == LengthTo(m, points, k) + d;
    assert ratio * d == distWanted - LengthTo(m, points, k);
    assert 0.0 < distWanted - LengthTo(m, points, k) <= d;
    RatioBounds(ratio, d, distWanted - LengthTo(m, points, k));
  }

  /** A ratio that covers a part x in (0, d] of a segment of length d lies in (0, 1]. */
  lemma RatioBounds(ratio: real, d: real, x: real)
    requires ratio * d == x && 0.0 < x <= d
    ensures 0.0 < d && 0.0 < ratio <= 1.0
  {
  }

  /** The returned point lies at planar distance distWanted - LengthTo(k) from the vertex
      that precedes it: the path length at the sample is exactly distWanted. */
  lemma Placement(m: Maths, points: seq<Point>, distWanted: real)
    requires IsSqrt(m) && |points| >= 1 && 0.0 < distWanted && SampleAt(m, points, distWanted).Some?
    ensures var s := SampleAt(m, points, distWanted).value;
      LengthTo(m, points, s.index) + DistBetweenPoints(m, points[s.index], s.point) == distWanted
  {
    var k := SampleAt(m, points, distWanted).value.index;
    RatioInRange(m, points, distWanted);
    SegmentPlacement(m, points[k], points[k + 1], LengthTo(m, points, k + 1), distWanted);
  }

  /** Inside one segment, the point at the ratio FindRatioToGetDistance finds is as far from
      the segment's start as the wanted distance exceeds the length before the segment. */
  lemma SegmentPlacement(m: Maths, a: Point, b: Point, distTravelled: real, distWanted: real)
    requires IsSqrt(m) && DistBetweenPoints(m, a, b) != 0.0
    requires 0.0 < FindRatioToGetDistance(m, a, b, distTravelled, distWanted)
    ensures var ratio := FindRatioToGetDistance(m, a, b, distTravelled, distWanted);
      (distTravelled - DistBetweenPoints(m, a, b)) + DistBetweenPoints(m, a, LerpPoints(a, b, ratio)) == distWanted
  {
    var ratio := FindRatioToGetDistance(m, a, b, distTravelled, distWanted);
    LerpDistance(m, a, b, ratio);
  }
}
