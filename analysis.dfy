/** The analysis loop of process: walk the track in fixed steps of distance, cast a probe
    line sideways from each sample, take the first segment of the reference line that the
    probe meets, and accumulate the distances to those meeting points. */
module AnalysisLoop {
  import opened Wrappers
  import opened Numerics
  import opened PointMath
  import opened PathSampler
  import opened IntersectionSolver
  import opened Geodesic

  /** The distance parameter d grows by this much per iteration (in coordinate degrees). */
  const Step: real := 0.0002
  /** Length of the probe line cast from a sample (in coordinate degrees). */
  const ProbeLength: real := 1000.0

  /** A JavaScript number as far as the loop needs it: a finite value, or NaN. */
  datatype Number = Finite(value: real) | NaN

  /** Addition, with NaN absorbing. */
  function Plus(a: Number, b: Number): Number
  {
    if a.NaN? || b.NaN? then NaN else Finite(a.value + b.value)
  }

  /** The loop's two accumulators, totalDist and count. */
  datatype Tally = Tally(totalDist: Number, count: nat)

  /** The reported average totalDist / count; 0 / 0 is NaN. */
  function Average(t: Tally): (r: Number)
    ensures r.NaN? <==> t.count == 0 || t.totalDist.NaN?
    ensures r.Finite? ==> r.value * (t.count as real) == t.totalDist.value
  {
    if t.count == 0 || t.totalDist.NaN? then NaN
    else Finite(t.totalDist.value / (t.count as real))
  }

  /** The far end of the probe: ProbeLength away from the sample, a quarter turn
      counter-clockwise from the direction of the track segment the sample lies on. */
  function ProbeEnd(m: Maths, track: seq<Point>, s: Sample): Point
    requires s.index + 1 < |track|
  {
    var angle := AngleBetweenPoints(m, track[s.index], track[s.index + 1]);
    Point(s.point.x + (Cos(m, angle + (m.pi * 0.5)) * ProbeLength),
          s.point.y + (Sin(m, angle + (m.pi * 0.5)) * ProbeLength))
  }

  /** The probe end sits ProbeLength from the sample s it is computed from, on the
      perpendicular to s's track segment. The loop casts its probe from the next sample
      towards this end (see ProbeFrom), so that probe is neither perpendicular nor
      ProbeLength long in general. A segment of length zero, as when the track starts with
      a repeated fix, is covered too: the distance still holds and the perpendicularity
      is trivial. */
  lemma ProbePerpendicular(m: Maths, track: seq<Point>, s: Sample)
    requires IsSqrt(m) && IsTrig(m)
    requires s.index + 1 < |track|
    ensures var a, b, e := track[s.index], track[s.index + 1], ProbeEnd(m, track, s);
      (e.x - s.point.x) * (b.x - a.x) + (e.y - s.point.y) * (b.y - a.y) == 0.0
    ensures DistBetweenPoints(m, s.point, ProbeEnd(m, track, s)) == ProbeLength
  {
    var a, b := track[s.index], track[s.index + 1];
    var angle := AngleBetweenPoints(m, a, b);
    assert QuarterTurn(m, angle);
    var sn, cs := Sin(m, angle), Cos(m, angle);
    if a != b {
      // On a segment of positive length the direction is (cos, sin) of its bearing.
      var dist := DistBetweenPoints(m, a, b);
      AngleAlongSegment(m, a, b);
      assert (-sn * ProbeLength) * (cs * dist) + (cs * ProbeLength) * (sn * dist) == 0.0;
    }
    assert Pythagoras(m, angle);
    var e := ProbeEnd(m, track, s);
    assert e.x - s.point.x == (-sn) * ProbeLength && e.y - s.point.y == cs * ProbeLength;
    ScaledUnit(sn, cs, ProbeLength);
    assert SquaredDist(s.point, e) == ProbeLength * ProbeLength;
    SqrtScale(m, ProbeLength, 1.0, ProbeLength * ProbeLength);
    SqrtValues(m, 1.0);
  }

  /** A unit vector turned a quarter and scaled by l has length l. */
  lemma ScaledUnit(u: real, v: real, l: real)
    requires u * u + v * v == 1.0
    ensures ((-u) * l) * ((-u) * l) + (v * l) * (v * l) == l * l
  {
    assert ((-u) * l) * ((-u) * l) + (v * l) * (v * l) == (u * u + v * v) * (l * l);
  }

  /** checkIntersection accepts what the probe from a to b makes with segment k of the line. */
  predicate Accepted(m: Maths, a: Point, b: Point, line: seq<Point>, k: nat)
    requires 1 <= k < |line|
  {
    CheckIntersection(m, LineLineIntersect(a, b, line[k - 1], line[k]))
  }

  /** The first segment k >= i whose intersection with the probe is accepted. */
  function FirstAccepted(m: Maths, a: Point, b: Point, line: seq<Point>, i: nat): (r: Option<nat>)
    requires 1 <= i
    decreases |line| - i
    ensures r.Some? ==> i <= r.value < |line| && Accepted(m, a, b, line, r.value)
  {
    if |line| <= i then None
    else if Accepted(m, a, b, line, i) then Some(i)
    else FirstAccepted(m, a, b, line, i + 1)
  }

  /** FirstAccepted finds the first accepted segment: it passes over only rejected ones, and
      finds none exactly when every segment from i on is rejected. */
  lemma {:induction false} FirstAcceptedMinimal(m: Maths, a: Point, b: Point, line: seq<Point>, i: nat)
    requires 1 <= i
    decreases |line| - i
    ensures var r := FirstAccepted(m, a, b, line, i);
      && (r.Some? ==> forall u :: i <= u < r.value ==> !Accepted(m, a, b, line, u))
      && (r.None? <==> forall u :: i <= u < |line| ==> !Accepted(m, a, b, line, u))
  {
    if |line| <= i {
    } else if Accepted(m, a, b, line, i) {
      assert FirstAccepted(m, a, b, line, i) == Some(i);
    } else {
      assert FirstAccepted(m, a, b, line, i) == FirstAccepted(m, a, b, line, i + 1);
      FirstAcceptedMinimal(m, a, b, line, i + 1);
    }
  }

  /** With exact arithmetic nothing is infinite, so the scan accepts the very first segment:
      the probe's intersection with the infinite line through line[0] and line[1]. */
  lemma ExactScanStopsAtFirst(m: Maths, a: Point, b: Point, line: seq<Point>)
    requires (forall x :: IsFinite(m, x)) && 2 <= |line|
    ensures FirstAccepted(m, a, b, line, 1) == Some(1)
    ensures ProbeHit(m, a, b, line) == Some(LineLineIntersect(a, b, line[0], line[1]))
  {
    ExactAcceptsAll(m, LineLineIntersect(a, b, line[0], line[1]));
  }

  /** The intersection the inner loop stops at, if any. */
  function ProbeHit(m: Maths, a: Point, b: Point, line: seq<Point>): (r: Option<Intersection>)
    ensures r.Some? ==> CheckIntersection(m, r.value)
  {
    match FirstAccepted(m, a, b, line, 1)
    case None => None
    case Some(k) => Some(LineLineIntersect(a, b, line[k - 1], line[k]))
  }

  /** The distance added for an accepted intersection: the parallel sentinel has no
      coordinates, so its distance is NaN; a point gets the distance of the chosen call,
      AsWritten being the call in the source. */
  function HitMeters(m: Maths, call: Call, at: Point, x: Intersection): Number
  {
    match x
    case Parallel => NaN
    case Pt(q) => Finite(Meters(m, call, at, q))
  }

  /** At the meridian of longitude 90, the call as written adds nothing for a crossing one
      degree of latitude away, where the corrected call adds a positive distance. */
  lemma SwappedCallInTheLoop(m: Maths)
    requires IsSqrt(m) && IsTrig(m)
    ensures HitMeters(m, AsWritten, OnEquator, Pt(OneDegreeNorth)) == Finite(0.0)
    ensures HitMeters(m, Corrected, OnEquator, Pt(OneDegreeNorth)).value > 0.0
  {
    SwappedArgumentsLoseLatitude(m);
  }

  /** The distance a probe from at contributes, given what the scan found: None when it met
      no accepted segment. */
  function HitOf(m: Maths, call: Call, at: Point, found: Option<Intersection>): (r: Option<Number>)
    ensures r.None? <==> found.None?
    ensures r == Some(NaN) <==> found == Some(Parallel)
  {
    match found
    case None => None
    case Some(x) => Some(HitMeters(m, call, at, x))
  }

  /** The accumulators after one more iteration: a hit adds its distance and one to the count. */
  function Advance(t: Tally, hit: Option<Number>): Tally
  {
    match hit
    case None => t
    case Some(d) => Tally(Plus(t.totalDist, d), t.count + 1)
  }

  /** The inner for loop: scan the line's segments in order; at the first accepted
      intersection add its distance to totalDist, add one to count, and stop. */
  method TakeIn(m: Maths, call: Call, track: seq<Point>, line: seq<Point>, ghost prev: Sample, cur: Sample, far: Point, t: Tally)
    returns (r: Tally)
    requires prev.index + 1 < |track| && far == ProbeEnd(m, track, prev)
    ensures r == Advance(t, ProbeFrom(m, call, track, line, prev, cur))
  {
    var at := cur.point;
    r := t;
    var i := 1;
    while i < |line|
      invariant 1 <= i && (i <= |line| || i == 1)
      invariant FirstAccepted(m, at, far, line, i) == FirstAccepted(m, at, far, line, 1)
    {
      var lineS := line[i - 1];
      var lineE := line[i];
      var intersection := LineLineIntersect(at, far, lineS, lineE);
      if CheckIntersection(m, intersection) {
        r := Tally(Plus(r.totalDist, HitMeters(m, call, at, intersection)), r.count + 1);
        return;
      }
      i := i + 1;
    }
  }

  /** The accumulators after t has taken in the contributions hits, first to last. */
  function Tallied(t: Tally, hits: seq<Option<Number>>): Tally
    decreases |hits|
  {
    if |hits| == 0 then t else Tallied(Advance(t, hits[0]), hits[1..])
  }

  /** Folding a contribution followed by more is taking it in first. */
  lemma TalliedCons(t: Tally, h: Option<Number>, rest: seq<Option<Number>>)
    ensures Tallied(t, [h] + rest) == Tallied(Advance(t, h), rest)
  {
    assert ([h] + rest)[0] == h && ([h] + rest)[1..] == rest;
  }

  /** Every contribution adds at most one to count, and all of them add one exactly when every
      probe found a crossing. */
  lemma {:induction false} EveryProbeCounted(t: Tally, hits: seq<Option<Number>>)
    decreases |hits|
    ensures t.count <= Tallied(t, hits).count <= t.count + |hits|
    ensures Tallied(t, hits).count == t.count + |hits| <==> forall k :: 0 <= k < |hits| ==> hits[k].Some?
  {
    if |hits| > 0 {
      var rest := hits[1..];
      EveryProbeCounted(Advance(t, hits[0]), rest);
      assert forall k :: 0 <= k < |rest| ==> rest[k] == hits[k + 1];
      if forall k :: 0 <= k < |rest| ==> rest[k].Some? {
        if hits[0].Some? {
          assert forall k :: 0 <= k < |hits| ==> hits[k].Some? by {
            forall k | 0 <= k < |hits| ensures hits[k].Some? {
              if k > 0 {
                assert hits[k] == rest[k - 1];
              }
            }
          }
        }
      }
    }
  }

  /** totalDist ends NaN exactly when it started NaN or some contribution was NaN: once added,
      NaN stays. */
  lemma {:induction false} NaNPersists(t: Tally, hits: seq<Option<Number>>)
    decreases |hits|
    ensures Tallied(t, hits).totalDist.NaN? <==>
      t.totalDist.NaN? || exists k :: 0 <= k < |hits| && hits[k] == Some(NaN)
  {
    if |hits| > 0 {
      var rest := hits[1..];
      NaNPersists(Advance(t, hits[0]), rest);
      assert forall k :: 0 <= k < |rest| ==> rest[k] == hits[k + 1];
      if exists k :: 0 <= k < |hits| && hits[k] == Some(NaN) {
        var k :| 0 <= k < |hits| && hits[k] == Some(NaN);
        if k > 0 {
          assert rest[k - 1] == Some(NaN);
        }
      }
    }
  }

  /** The number of probes that met the line. */
  function Matches(hits: seq<Option<Number>>): nat
    decreases |hits|
  {
    if |hits| == 0 then 0 else (if hits[0].Some? then 1 else 0) + Matches(hits[1..])
  }

  /** The sum of the finite distances the probes found. */
  function Sum(hits: seq<Option<Number>>): real
    decreases |hits|
  {
    if |hits| == 0 then 0.0
    else (if hits[0].Some? && hits[0].value.Finite? then hits[0].value.value else 0.0) + Sum(hits[1..])
  }

  /** count goes up by one for every probe that met the line. */
  lemma {:induction false} TalliedCounts(t: Tally, hits: seq<Option<Number>>)
    decreases |hits|
    ensures Tallied(t, hits).count == t.count + Matches(hits)
  {
    if |hits| > 0 {
      TalliedCounts(Advance(t, hits[0]), hits[1..]);
    }
  }

  /** Without a NaN contribution, totalDist goes up by the sum of the distances found. */
  lemma {:induction false} TalliedSums(t: Tally, hits: seq<Option<Number>>)
    requires t.totalDist.Finite? && forall k :: 0 <= k < |hits| ==> hits[k] != Some(NaN)
    decreases |hits|
    ensures Tallied(t, hits).totalDist == Finite(t.totalDist.value + Sum(hits))
  {
    if |hits| > 0 {
      var rest := hits[1..];
      assert forall k :: 0 <= k < |rest| ==> rest[k] == hits[k + 1];
      TalliedSums(Advance(t, hits[0]), rest);
    }
  }

  /** The number of the last sample before the track runs out: floor(length / Step). */
  function LastSample(m: Maths, track: seq<Point>): nat
    requires |track| >= 1
  {
    var q := (TotalLength(m, track) / Step).Floor;
    if q < 0 then 0 else q
  }

  /** Sample j >= 1 exists exactly up to LastSample. */
  lemma SampleExists(m: Maths, track: seq<Point>, j: nat)
    requires IsSqrt(m) && |track| >= 1 && 1 <= j
    ensures SampleAt(m, track, (j as real) * Step).Some? <==> j <= LastSample(m, track)
  {
    Exhaustion(m, track, (j as real) * Step);
  }

  /** The loop stops after iteration j exactly when sample j + 1 is missing, and then j is
      LastSample; otherwise j + 1 is still within it. */
  lemma NextSample(m: Maths, track: seq<Point>, j: nat, d: real)
    requires IsSqrt(m) && |track| >= 1 && j <= LastSample(m, track) && d == ((j + 1) as real) * Step
    ensures SampleAt(m, track, d).None? ==> j == LastSample(m, track)
    ensures SampleAt(m, track, d).Some? ==> j + 1 <= LastSample(m, track)
  {
    SampleExists(m, track, j + 1);
  }

  /** What iteration j + 1 contributes when prev is sample j and cur is sample j + 1: the probe
      from cur towards the probe end of prev, and the first crossing the scan accepts. */
  function ProbeFrom(m: Maths, call: Call, track: seq<Point>, line: seq<Point>, prev: Sample, cur: Sample): Option<Number>
    requires prev.index + 1 < |track|
  {
    HitOf(m, call, cur.point, ProbeHit(m, cur.point, ProbeEnd(m, track, prev), line))
  }

  /** The loop's position: prev is sample j, taken at distance at = j * Step. */
  predicate AtSample(m: Maths, track: seq<Point>, j: nat, at: real, prev: Sample)
    requires |track| >= 1
  {
    j <= LastSample(m, track) && at == (j as real) * Step && prev.index + 1 < |track|
  }

  /** The contributions of iterations j + 1 .. LastSample, in order, when prev is sample j. */
  function HitsFrom(m: Maths, call: Call, track: seq<Point>, line: seq<Point>, j: nat, at: real, prev: Sample)
    : (hits: seq<Option<Number>>)
    requires |track| >= 2 && IsSqrt(m) && AtSample(m, track, j, at, prev)
    decreases LastSample(m, track) - j
    ensures |hits| == LastSample(m, track) - j
  {
    NextSample(m, track, j, at + Step);
    match SampleAt(m, track, at + Step)
    case None => []
    case Some(cur) => [ProbeFrom(m, call, track, line, prev, cur)] + HitsFrom(m, call, track, line, j + 1, at + Step, cur)
  }

  /** HitsFrom ends when sample j + 1 is missing. */
  lemma HitsFromStops(m: Maths, call: Call, track: seq<Point>, line: seq<Point>, j: nat, at: real, prev: Sample)
    requires |track| >= 2 && IsSqrt(m) && AtSample(m, track, j, at, prev)
    requires SampleAt(m, track, at + Step).None?
    ensures j == LastSample(m, track) && HitsFrom(m, call, track, line, j, at, prev) == []
  {
    NextSample(m, track, j, at + Step);
  }

  /** Otherwise it starts with what the probe cast from sample j + 1 finds. */
  lemma HitsFromGoesOn(m: Maths, call: Call, track: seq<Point>, line: seq<Point>, j: nat, at: real, prev: Sample,
                       cur: Sample)
    requires |track| >= 2 && IsSqrt(m) && AtSample(m, track, j, at, prev)
    requires SampleAt(m, track, at + Step) == Some(cur)
    ensures AtSample(m, track, j + 1, at + Step, cur)
    ensures HitsFrom(m, call, track, line, j, at, prev) ==
            [ProbeFrom(m, call, track, line, prev, cur)] + HitsFrom(m, call, track, line, j + 1, at + Step, cur)
  {
    NextSample(m, track, j, at + Step);
  }

  /** One iteration of the loop: no contributions remain when sample j + 1 is missing, and
      otherwise the next one is what the probe cast from it finds. */
  lemma HitsFromStep(m: Maths, call: Call, track: seq<Point>, line: seq<Point>, j: nat, at: real, prev: Sample)
    requires |track| >= 2 && IsSqrt(m) && AtSample(m, track, j, at, prev)
    ensures var next := SampleAt(m, track, at + Step);
      && (next.None? ==> j == LastSample(m, track) && HitsFrom(m, call, track, line, j, at, prev) == [])
      && (next.Some? ==>
            && AtSample(m, track, j + 1, at + Step, next.value)
            && HitsFrom(m, call, track, line, j, at, prev) ==
               [ProbeFrom(m, call, track, line, prev, next.value)] + HitsFrom(m, call, track, line, j + 1, at + Step, next.value))
  {
    match SampleAt(m, track, at + Step)
    case None => HitsFromStops(m, call, track, line, j, at, prev);
    case Some(cur) => HitsFromGoesOn(m, call, track, line, j, at, prev, cur);
  }

  /** One iteration of the loop, on the tally: taking in what remains from sample j is t itself
      when sample j + 1 is missing, and otherwise taking in what remains from sample j + 1
      once its own contribution is in. */
  lemma TalliedStep(m: Maths, call: Call, track: seq<Point>, line: seq<Point>, j: nat, at: real, prev: Sample, t: Tally)
    requires |track| >= 2 && IsSqrt(m) && AtSample(m, track, j, at, prev)
    ensures var next := SampleAt(m, track, at + Step);
      && (next.None? ==> Tallied(t, HitsFrom(m, call, track, line, j, at, prev)) == t)
      && (next.Some? ==>
            && AtSample(m, track, j + 1, at + Step, next.value)
            && Tallied(t, HitsFrom(m, call, track, line, j, at, prev)) ==
               Tallied(Advance(t, ProbeFrom(m, call, track, line, prev, next.value)),
                       HitsFrom(m, call, track, line, j + 1, at + Step, next.value)))
  {
    HitsFromStep(m, call, track, line, j, at, prev);
    match SampleAt(m, track, at + Step)
    case None =>
    case Some(cur) =>
      TalliedCons(t, ProbeFrom(m, call, track, line, prev, cur), HitsFrom(m, call, track, line, j + 1, at + Step, cur));
  }

  /** The first sample, at distance 0, is the first track point. */
  function FirstSample(m: Maths, track: seq<Point>): (s: Sample)
    requires |track| >= 2
    ensures SampleAt(m, track, 0.0) == Some(s) && s.index + 1 < |track|
  {
    SampleAt(m, track, 0.0).value
  }

  /** The tally process reports: every sample's contribution taken in, in order, starting
      with nothing counted. */
  function Outcome(m: Maths, call: Call, track: seq<Point>, line: seq<Point>): Tally
    requires |track| >= 2 && IsSqrt(m)
  {
    Tallied(Tally(Finite(0.0), 0), HitsFrom(m, call, track, line, 0, 0.0, FirstSample(m, track)))
  }

  /** What process reports, in terms of its samples: one probe per sample after the first,
      count is the number of them that met the line, totalDist is NaN exactly when one of
      them accepted a crossing of parallel lines, and otherwise the sum of the distances. */
  lemma ProcessOutcome(m: Maths, call: Call, track: seq<Point>, line: seq<Point>)
    requires |track| >= 2 && IsSqrt(m)
    ensures var hits := HitsFrom(m, call, track, line, 0, 0.0, FirstSample(m, track));
      && |hits| == LastSample(m, track)
      && Outcome(m, call, track, line).count == Matches(hits) <= |hits|
      && (Outcome(m, call, track, line).count == |hits| <==> forall k :: 0 <= k < |hits| ==> hits[k].Some?)
      && (Outcome(m, call, track, line).totalDist.NaN? <==> exists k :: 0 <= k < |hits| && hits[k] == Some(NaN))
      && (Outcome(m, call, track, line).totalDist.Finite? ==> Outcome(m, call, track, line).totalDist.value == Sum(hits))
  {
    var first := FirstSample(m, track);
    var hits := HitsFrom(m, call, track, line, 0, 0.0, first);
    EveryProbeCounted(Tally(Finite(0.0), 0), hits);
    TalliedCounts(Tally(Finite(0.0), 0), hits);
    NaNPersists(Tally(Finite(0.0), 0), hits);
    if Outcome(m, call, track, line).totalDist.Finite? {
      TalliedSums(Tally(Finite(0.0), 0), hits);
    }
  }

  /** One pass of the loop body, from sample j at distance d: the probe end from prev, the
      next sample, and when there is one, the tally with its contribution taken in. Taking
      in what remains from sample j is t itself when the loop breaks, and otherwise taking
      in what remains from sample j + 1 after r. */
  method Iteration(m: Maths, call: Call, track: seq<Point>, line: seq<Point>, ghost j: nat, d: real, prev: Sample, t: Tally)
    returns (pt: Option<Sample>, r: Tally)
    requires |track| >= 2 && IsSqrt(m) && AtSample(m, track, j, d, prev)
    ensures pt == SampleAt(m, track, d + Step)
    ensures pt.None? ==> r == t && Tallied(t, HitsFrom(m, call, track, line, j, d, prev)) == t
    ensures pt.Some? ==>
      && AtSample(m, track, j + 1, d + Step, pt.value)
      && Tallied(r, HitsFrom(m, call, track, line, j + 1, d + Step, pt.value)) ==
         Tallied(t, HitsFrom(m, call, track, line, j, d, prev))
  {
    var perp := ProbeEnd(m, track, prev);
    TalliedStep(m, call, track, line, j, d, prev, t);
    pt := GetPoint(m, track, d + Step);
    r := t;
    if pt.Some? {
      r := TakeIn(m, call, track, line, prev, pt.value, perp, t);
    }
  }

  /** process, from the first sample to the one where the track runs out; with AsWritten
      it adds the distances the source computes, with Corrected the intended ones. */
  method Process(m: Maths, call: Call, track: seq<Point>, line: seq<Point>) returns (t: Tally)
    requires |track| >= 2 && IsSqrt(m)
    ensures t == Outcome(m, call, track, line)
  {
    var d := 0.0;
    var pt := GetPoint(m, track, d);
    t := Tally(Finite(0.0), 0);
    ghost var j: nat := 0;
    while true
      invariant pt == SampleAt(m, track, d) && pt.Some? && AtSample(m, track, j, d, pt.value)
      invariant Tallied(t, HitsFrom(m, call, track, line, j, d, pt.value)) == Outcome(m, call, track, line)
      decreases LastSample(m, track) - j
    {
      var next, r := Iteration(m, call, track, line, j, d, pt.value, t);
      d := d + Step;
      if next.None? {
        return;
      }
      pt, t, j := next, r, j + 1;
    }
  }
}
