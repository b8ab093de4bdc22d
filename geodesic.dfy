/** Great-circle distance by the haversine formula (distanceInMeters and deg2rad), and the
    way the analysis loop calls it with a track point and an intersection, both stored as
    [longitude, latitude]. */
module Geodesic {
  import opened Numerics
  import opened PointMath

  /** Radius of the earth in kilometres. */
  const EarthRadiusKm: real := 6371.0

  /** Degrees to radians: 180 degrees are pi radians, and the conversion is linear. */
  function Deg2Rad(m: Maths, deg: real): (r: real)
    ensures r * 180.0 == deg * m.pi
  {
    deg * m.pi / 180.0
  }

  /** The haversine term a of distanceInMeters, in [0, 1] for real trigonometry. */
  function Haversine(m: Maths, lat1: real, lon1: real, lat2: real, lon2: real): real
  {
    var dLat := Deg2Rad(m, lat2 - lat1);
    var dLon := Deg2Rad(m, lon2 - lon1);
    Sin(m, dLat / 2.0) * Sin(m, dLat / 2.0) +
    Cos(m, Deg2Rad(m, lat1)) * Cos(m, Deg2Rad(m, lat2)) *
    Sin(m, dLon / 2.0) * Sin(m, dLon / 2.0)
  }

  /** distanceInMeters(lat1, lon1, lat2, lon2): the central angle c = 2 atan2(sqrt a,
      sqrt(1 - a)) times the earth's radius, converted from kilometres to metres. */
  function DistanceInMeters(m: Maths, lat1: real, lon1: real, lat2: real, lon2: real): real
  {
    var a := Haversine(m, lat1, lon1, lat2, lon2);
    var c := 2.0 * Atan2(m, Sqrt(m, a), Sqrt(m, 1.0 - a));
    var d := EarthRadiusKm * c;
    d * 1000.0
  }

  /** The call in the analysis loop as written: the points are [lon, lat], and their first
      and second components are passed as lat and lon. */
  function MetersAsCalled(m: Maths, p: Point, q: Point): real
  {
    DistanceInMeters(m, p.x, p.y, q.x, q.y)
  }

  /** The evidently intended call: latitude is the second component of each point. */
  function MetersBetween(m: Maths, p: Point, q: Point): real
  {
    DistanceInMeters(m, p.y, p.x, q.y, q.x)
  }

  /** Which of the two calls the analysis loop makes: the one in the source, or the
      corrected one. */
  datatype Call = AsWritten | Corrected

  /** The distance the analysis loop adds for a track point p and an intersection q. */
  function Meters(m: Maths, call: Call, p: Point, q: Point): real
  {
    match call
    case AsWritten => MetersAsCalled(m, p, q)
    case Corrected => MetersBetween(m, p, q)
  }

  /** The call as written is the corrected call on points whose components are exchanged;
      the corrected call is symmetric and zero from a point to itself. */
  lemma MeterCalls(m: Maths, p: Point, q: Point)
    requires IsSqrt(m) && IsTrig(m)
    ensures MetersAsCalled(m, p, q) == MetersBetween(m, Point(p.y, p.x), Point(q.y, q.x))
    ensures MetersBetween(m, p, q) == MetersBetween(m, q, p)
    ensures MetersBetween(m, p, p) == 0.0
  {
    DistanceSymmetric(m, p.y, p.x, q.y, q.x);
    SamePlaceIsZero(m, p.y, p.x);
  }

  /** The distance from a position to itself is zero. */
  lemma SamePlaceIsZero(m: Maths, lat: real, lon: real)
    requires IsSqrt(m) && IsTrig(m)
    ensures DistanceInMeters(m, lat, lon, lat, lon) == 0.0
  {
    assert Haversine(m, lat, lon, lat, lon) == 0.0;
    SqrtValues(m, 0.0);
    assert Atan2Sign(m, 0.0, 1.0);
  }

  /** The distance is symmetric in its two positions. */
  lemma DistanceSymmetric(m: Maths, lat1: real, lon1: real, lat2: real, lon2: real)
    requires IsTrig(m)
    ensures DistanceInMeters(m, lat1, lon1, lat2, lon2) == DistanceInMeters(m, lat2, lon2, lat1, lon1)
  {
    var h1 := Deg2Rad(m, lat2 - lat1) / 2.0;
    var h2 := Deg2Rad(m, lon2 - lon1) / 2.0;
    assert Deg2Rad(m, lat1 - lat2) / 2.0 == -h1;
    assert Deg2Rad(m, lon1 - lon2) / 2.0 == -h2;
    assert Pythagoras(m, h1) && Pythagoras(m, h2);
    var c1, c2 := Cos(m, Deg2Rad(m, lat1)), Cos(m, Deg2Rad(m, lat2));
    assert Haversine(m, lat1, lon1, lat2, lon2) == Sin(m, h1) * Sin(m, h1) + c1 * c2 * Sin(m, h2) * Sin(m, h2);
    assert Haversine(m, lat2, lon2, lat1, lon1) == Sin(m, -h1) * Sin(m, -h1) + c2 * c1 * Sin(m, -h2) * Sin(m, -h2);
    assert Sin(m, -h1) * Sin(m, -h1) == Sin(m, h1) * Sin(m, h1);
    assert c2 * c1 * Sin(m, -h2) * Sin(m, -h2) == c1 * c2 * Sin(m, h2) * Sin(m, h2);
    assert Haversine(m, lat1, lon1, lat2, lon2) == Haversine(m, lat2, lon2, lat1, lon1);
  }

  /** A haversine term that is the square of a positive number gives a positive distance. */
  lemma SquareTermPositiveDistance(m: Maths, a: real, s: real)
    requires IsSqrt(m) && IsTrig(m) && a == s * s && 0.0 < s
    ensures 0.0 < 2.0 * Atan2(m, Sqrt(m, a), Sqrt(m, 1.0 - a)) * EarthRadiusKm * 1000.0
  {
    SquareNonNegative(s);
    assert Sqrt(m, a) * Sqrt(m, a) == a && 0.0 <= Sqrt(m, a);
    SquareRootUnique(Sqrt(m, a), s);
    assert Atan2Sign(m, Sqrt(m, a), Sqrt(m, 1.0 - a));
  }

  /** Two points one degree of latitude apart on the meridian at longitude 90. */
  const OnEquator: Point := Point(90.0, 0.0)
  const OneDegreeNorth: Point := Point(90.0, 1.0)

  /** As written, the call puts longitude 90 in the latitude slot, where cos(90 degrees) == 0
      cancels the difference, and reports two points about 111 km apart as 0 metres apart. */
  lemma SwappedArgumentsLoseLatitude(m: Maths)
    requires IsSqrt(m) && IsTrig(m)
    ensures MetersAsCalled(m, OnEquator, OneDegreeNorth) == 0.0
    ensures 0.0 < MetersBetween(m, OnEquator, OneDegreeNorth)
  {
    // as written: lat1 = lat2 = 90, so dLat == 0 and cos(lat) == cos(pi/2) == -sin 0 == 0
    assert Deg2Rad(m, 90.0) == 0.0 + m.pi * 0.5;
    assert QuarterTurn(m, 0.0);
    assert Haversine(m, 90.0, 0.0, 90.0, 1.0) == 0.0;
    SqrtValues(m, 0.0);
    assert Atan2Sign(m, 0.0, 1.0);
    // corrected: dLat is one degree, so a = sin(pi/360)^2 > 0
    var h := Deg2Rad(m, 1.0) / 2.0;
    assert SinPositive(m, h);
    assert Haversine(m, 0.0, 90.0, 1.0, 90.0) == Sin(m, h) * Sin(m, h);
    SquareTermPositiveDistance(m, Haversine(m, 0.0, 90.0, 1.0, 90.0), Sin(m, h));
  }
}
