# geoanalyser: the average-distance engine, in Dafny

GeoAnalyser compares a recorded GPS track with a reference line. It walks along the track in
fixed steps of distance. From each sample it casts a long probe sideways. It takes the first
segment of the reference line, in stored order, whose infinite line crosses the probe's
infinite line or is parallel to it. With exact arithmetic that is always the first segment,
whether or not the probe reaches it. The program means to measure the great-circle distance
from the sample to that crossing. It then reports the average of those distances. The
haversine call at src/js/geoanalyser.js:353 passes longitude where latitude is expected (see
"## Findings"), so the distances the program adds are not great-circle distances between the
two points.

This project models that engine over the reals:

- the planar geometry of `AverageMethod`, in modules `PointMath`, `PathSampler` and
  `IntersectionSolver`;
- the acceptance filter `checkIntersection` and the haversine distance, in
  `IntersectionSolver` and `Geodesic`;
- the sampling, scan and accumulate loop of `process`, in `AnalysisLoop`.

A point is `(x, y) = (longitude, latitude)` in degrees. The planar code treats these as plain
coordinates.

The host's numeric primitives are parameters: `Math.sqrt`, `Math.atan2`, `Math.sin`,
`Math.cos`, `Math.PI` and the IEEE test "not an infinity". Module `Numerics` passes them as a
record `Maths` of total tables. The laws that real arithmetic gives them are predicates
(`IsSqrt`, `IsTrig`), and the lemmas that rely on them take those predicates as hypotheses.

Modelling decisions, each taken from the code:

- `getPoint` with a zero distance returns the first vertex without walking. A negative
  distance stops the walk before its first step. The reference-equality test
  `prevPoint == currentPoint` then holds, so the first vertex is returned with index 0.
- For a positive distance the walk stops in a segment of positive length. The ratio is
  therefore always defined there. The code divides before that reference test; the model
  computes the ratio only after it, because in the no-step case the quotient is never used.
- `lineLineIntersect` returns an object, not an array, when the denominator is zero. In
  `checkIntersection` its missing coordinates compare false with `Infinity`, so the sentinel
  is accepted. Its distance is then NaN, and NaN stays in `totalDist` from then on. The model
  gives that sentinel its own constructor, `Parallel`, and gives numbers the datatype
  `Number = Finite | NaN`.
- The loop casts each probe from the new sample towards the far end computed from the
  previous sample and its segment. The model does the same.
- The average is `totalDist / count`, and `0 / 0` is NaN.
- The loop takes a parameter `call: Geodesic.Call`. `AsWritten` is the haversine call of
  line 353, with the coordinates in the order the source passes them. `Corrected` passes
  latitude first. `Process(m, AsWritten, track, line)` is the program as written, and every
  property of the loop below holds for both calls.

## Model

| member | source | states |
|---|---|---|
| PointMath.Lerp | src/js/geoanalyser.js:12-17 | the result differs from start by ratio times (end - start); equal ends give start back for every ratio; ratio 0 gives start and ratio 1 gives end |
| PointMath.LerpPoints | src/js/geoanalyser.js:19-26 | each component moves by ratio times the component difference; equal points are returned unchanged |
| PointMath.DistProperties | src/js/geoanalyser.js:28-34 | with a true square root the planar distance (DistBetweenPoints) is non-negative and symmetric, its square is the sum of the squared coordinate differences, and it is zero on equal points |
| PointMath.LerpDistance | src/js/geoanalyser.js:19-34 | moving a fraction r >= 0 along a segment covers r times its length |
| PointMath.AngleAlongSegment | src/js/geoanalyser.js:36-42 | cos and sin of the bearing (AngleBetweenPoints), scaled by the segment length, give back the coordinate differences |
| PointMath.BearingReversed | src/js/geoanalyser.js:36-42 | for distinct points, reversing the segment negates the cos and the sin of its bearing: a half turn |
| PointMath.FindRatioToGetDistance | src/js/geoanalyser.js:44-50 | the path length before the segment plus ratio times the segment length equals the wanted distance |
| PathSampler.FirstReaching | src/js/geoanalyser.js:61-72 | the vertex found is in range and reaches the wanted distance, and its predecessor falls short; when none is found the whole path falls short |
| PathSampler.FirstReachingMinimal | src/js/geoanalyser.js:61-72 | every vertex the walk passes over falls short of the wanted distance |
| PathSampler.SampleAt | src/js/geoanalyser.js:52-81 | the reported segment index is in bounds; for a positive distance the path length to vertex k is below it and to vertex k + 1 reaches it; null only for a positive distance beyond the whole path |
| PathSampler.GetPoint | src/js/geoanalyser.js:52-81 | the walk with its accumulated distance returns exactly SampleAt; a zero distance gives the first vertex with index 0 |
| PathSampler.SampleAtMinimal | src/js/geoanalyser.js:57-72 | every vertex up to the reported one falls short; null exactly when the distance is positive and every vertex falls short |
| PathSampler.LengthToMonotone | src/js/geoanalyser.js:61-70 | with a true square root the accumulated path length never decreases along the path |
| PathSampler.Exhaustion | src/js/geoanalyser.js:57-68 | for a positive distance, null exactly when the distance exceeds the length of the whole path |
| PathSampler.SegmentUnique | src/js/geoanalyser.js:61-80 | the segment whose ends bracket the distance is the one reported |
| PathSampler.RatioInRange | src/js/geoanalyser.js:74-80 | the reported segment has positive length, the ratio lies in (0, 1], and the point is lerpPoints at that ratio |
| PathSampler.Placement | src/js/geoanalyser.js:74-80 | the path length to the returned point is exactly the wanted distance |
| PathSampler.SegmentPlacement | src/js/geoanalyser.js:44-50 | the point at the ratio found is as far from the segment start as the wanted distance exceeds the length before the segment |
| IntersectionSolver.LineLineIntersect | src/js/geoanalyser.js:99-134 | the parallel sentinel is returned exactly when the cross product of the two directions is zero |
| IntersectionSolver.IntersectionOnBothLines | src/js/geoanalyser.js:116-123 | a returned point lies on line 1 at parameter a and on line 2 at parameter b; this is the comment's formula with its y coordinate along line 2 starting from l2s[1], where the comment writes l2s[0] |
| IntersectionSolver.IntersectionUnique | src/js/geoanalyser.js:99-134 | for non-parallel lines every common point of the two lines is the returned point, at parameter a |
| IntersectionSolver.ExactAcceptsAll | src/js/geoanalyser.js:275-277 | with a finiteness test that holds for every real, checkIntersection accepts every outcome of lineLineIntersect, the parallel sentinel included |
| Geodesic.Deg2Rad | src/js/geoanalyser.js:279-281 | 180 degrees are pi radians, linearly |
| Geodesic.SamePlaceIsZero | src/js/geoanalyser.js:288-300 | the haversine distance (DistanceInMeters, via Haversine) from a position to itself is zero |
| Geodesic.DistanceSymmetric | src/js/geoanalyser.js:288-300 | the haversine distance (DistanceInMeters, via Haversine) is symmetric in its two positions |
| Geodesic.SquareTermPositiveDistance | src/js/geoanalyser.js:296-299 | a haversine term that is the square of a positive number gives a positive distance |
| Geodesic.MeterCalls | src/js/geoanalyser.js:353 | the call as written (MetersAsCalled) is the corrected call (MetersBetween) on the two points with their coordinates exchanged; the corrected call is symmetric and zero from a point to itself |
| Geodesic.SwappedArgumentsLoseLatitude | src/js/geoanalyser.js:353 | the call as written reports two points one degree of latitude apart as 0 m apart; the corrected call reports a positive distance |
| AnalysisLoop.Average | src/js/geoanalyser.js:368 | NaN exactly when count is 0 or totalDist is NaN; otherwise the average times count is totalDist |
| AnalysisLoop.ProbePerpendicular | src/js/geoanalyser.js:331-338 | the probe end (ProbeEnd) lies ProbeLength from the sample it is computed from, perpendicular to the track segment that sample lies on; a zero-length segment, as when a track starts with a repeated fix, is included |
| AnalysisLoop.FirstAccepted | src/js/geoanalyser.js:346-359 | the segment found is in range and accepted by checkIntersection |
| AnalysisLoop.FirstAcceptedMinimal | src/js/geoanalyser.js:346-359 | every segment passed over is rejected, and none is found exactly when all are rejected |
| AnalysisLoop.ProbeHit | src/js/geoanalyser.js:346-359 | the intersection the scan stops at passes checkIntersection |
| AnalysisLoop.ExactScanStopsAtFirst | src/js/geoanalyser.js:346-359 | with a finiteness test that holds for every real and a line of at least two points, the scan stops at the first segment, at the probe's intersection with the line through line[0] and line[1] |
| AnalysisLoop.TakeIn | src/js/geoanalyser.js:346-359 | the inner for loop adds the first accepted crossing's distance under the chosen call and one to the count (Advance), or leaves both unchanged when none is accepted |
| AnalysisLoop.SwappedCallInTheLoop | src/js/geoanalyser.js:353 | a crossing one degree of latitude north of the sample [90, 0] adds 0 m with the call as written and a positive distance with the corrected call |
| AnalysisLoop.HitOf | src/js/geoanalyser.js:350-357 | a probe contributes nothing exactly when the scan found nothing, and NaN exactly when it accepted the parallel sentinel |
| AnalysisLoop.EveryProbeCounted | src/js/geoanalyser.js:354-356 | each probe adds at most one to count, and every probe adds one exactly when every probe met the line |
| AnalysisLoop.TalliedCounts | src/js/geoanalyser.js:356 | count goes up by exactly the number of probes that met the line |
| AnalysisLoop.NaNPersists | src/js/geoanalyser.js:353-355 | totalDist ends NaN exactly when it started NaN or some probe contributed NaN |
| AnalysisLoop.TalliedSums | src/js/geoanalyser.js:353-355 | without a NaN contribution, totalDist goes up by the sum of the distances found |
| AnalysisLoop.SampleExists | src/js/geoanalyser.js:340-344 | sample j >= 1 exists exactly up to floor(track length / Step) |
| AnalysisLoop.NextSample | src/js/geoanalyser.js:340-344 | the loop stops after iteration j exactly when j is the last sample |
| AnalysisLoop.HitsFrom | src/js/geoanalyser.js:329-359 | the contributions from sample j on number LastSample - j: every sample after the first casts exactly one probe |
| AnalysisLoop.HitsFromStep | src/js/geoanalyser.js:329-359 | one iteration either finds the next sample missing, with j the last sample and nothing left, or moves on to it, its probe's contribution coming first |
| AnalysisLoop.TalliedStep | src/js/geoanalyser.js:329-359 | one iteration either stops with the tally unchanged or takes in the next sample's contribution and goes on from there |
| AnalysisLoop.FirstSample | src/js/geoanalyser.js:326-327 | the first sample is taken at distance 0 and lies on a segment with a successor |
| AnalysisLoop.ProcessOutcome | src/js/geoanalyser.js:326-364 | under either call: one probe per sample after the first; count is the number that met the line; totalDist is NaN exactly when one accepted the parallel sentinel, and otherwise the sum of the distances found |
| AnalysisLoop.Iteration | src/js/geoanalyser.js:330-359 | one pass of the loop body: the next sample is the path sample at d + Step; the loop breaks with the tally unchanged when it is missing, and otherwise the tally after its contribution, taken further, gives what the tally before gives |
| AnalysisLoop.Process | src/js/geoanalyser.js:323-364 | the loop terminates, every track index it reads is in bounds, and it ends with the tally of its samples (Outcome) under the chosen call; with AsWritten that is the program's totalDist and count |

## Left out

- Reading files, GPX parsing, map projection, rendering and the DOM are left out. The loop
  takes the track and the reference line as sequences of [longitude, latitude] points, as
  `waypointsToArrays` builds them.
- `rad2deg` is not used by the engine, and the commented-out `lineLineIntersect` is dead code.
- Floating point is left out: rounding, overflow to infinity, and the drift of `d` under
  repeated `+= 0.0002`. The model takes `d` to be exactly j times the step. NaN comes in
  only where the code creates it, from the parallel sentinel and from `0 / 0`.
- `toFixed(3)` formatting of the reported average is left out.
- Math.sqrt, Math.atan2, Math.sin, Math.cos and Math.PI are parameters with stated laws, not
  computed. The finiteness test is an unconstrained parameter, since no real is infinite.
- The `onLine1`/`onLine2` flags are computed by the code but never returned, so they are not
  part of `LineLineIntersect`'s result.
- PathSampler.GetPoint: requires at least one vertex. On an empty path the loop at line 61
  takes no turn, so the code returns `[undefined, 0]` for distance 0 and throws a TypeError
  for any other distance: line 75 calls `findRatioToGetDistance` with `undefined`, which
  calls `distBetweenPoints` at line 47, which reads `end[0]` at line 31.
- The `console.assert` logging at lines 20, 29, 37 and 45 is not modelled: it only writes to
  the console. On tracks of distinct point arrays it fires only when `getPoint` takes no
  step, for a negative distance, where line 75 passes the same point (or `undefined`) twice.
- AnalysisLoop.Average: gives NaN for count 0 with a finite non-zero total, where JavaScript
  gives plus or minus Infinity. Process never produces that tally, since totalDist only
  grows when count does.
- AnalysisLoop.Process: requires a track of at least two points. With fewer, `arrTrack[1]`
  is `undefined`, and the code throws a TypeError at line 39, where `angleBetweenPoints`
  reads `end[0]`. Process also requires IsSqrt, because termination
  rests on the path length never decreasing.
- AnalysisLoop.Process: returns the two accumulators (AnalysisLoop.Tally). AnalysisLoop.Average
  states what is reported from them.

## Findings

| source | as written | input that shows it | evidently intended | confidence | as-written member | corrected member |
|---|---|---|---|---|---|---|
| src/js/geoanalyser.js:353 | `distanceInMeters(pt[0][0], pt[0][1], intersection[0], intersection[1])` passes longitude as lat and latitude as lon, because points are stored [lon, lat] (lines 160-171) | track point [90, 0] and intersection [90, 1]: one degree of latitude apart, reported as 0 m | latitude is the second component: `distanceInMeters(pt[0][1], pt[0][0], intersection[1], intersection[0])` | not executed | Geodesic.MetersAsCalled, Geodesic.SwappedArgumentsLoseLatitude, AnalysisLoop.SwappedCallInTheLoop; the loop as written is AnalysisLoop.Process with Call.AsWritten | Geodesic.MetersBetween, Geodesic.MeterCalls; the corrected loop is AnalysisLoop.Process with Call.Corrected |
