/**
 * The acceptance loop of generateRandomPoints: candidate positions are
 * drawn until N targets have been accepted, a candidate being accepted
 * only when it is at least MIN_SEPARATION from every target accepted
 * before it.  The random draws are supplied as a finite sequence.
 */
module Generation {
  import opened Geometry
  import opened Board

  /** The two Math.random() draws of one candidate. */
  datatype Sample = Sample(u: real, v: real)

  /** Math.random() returns values in [0, 1). */
  predicate IsUnitSample(s: Sample) {
    0.0 <= s.u < 1.0 && 0.0 <= s.v < 1.0
  }

  /** The candidate position a sample stands for: the canvas inset by one point radius. */
  function Position(s: Sample, width: real, height: real): Point {
    Point(s.u * (width - 2.0 * POINT_RADIUS) + POINT_RADIUS,
          s.v * (height - 2.0 * POINT_RADIUS) + POINT_RADIUS)
  }

  lemma UnitScale(u: real, d: real)
    requires 0.0 <= u < 1.0 && d >= 0.0
    ensures 0.0 <= u * d <= d
  {
    assert d - u * d == (1.0 - u) * d;
  }

  /**
   * A candidate lies at least one point radius inside each edge of the
   * canvas, so a drawn target is never clipped by the canvas border.
   */
  lemma PositionInCanvas(s: Sample, width: real, height: real)
    requires IsUnitSample(s)
    requires width >= 2.0 * POINT_RADIUS && height >= 2.0 * POINT_RADIUS
    ensures POINT_RADIUS <= Position(s, width, height).x <= width - POINT_RADIUS
    ensures POINT_RADIUS <= Position(s, width, height).y <= height - POINT_RADIUS
  {
    var dw, dh := width - 2.0 * POINT_RADIUS, height - 2.0 * POINT_RADIUS;
    UnitScale(s.u, dw);
    UnitScale(s.v, dh);
    assert Position(s, width, height) == Point(s.u * dw + POINT_RADIUS, s.v * dh + POINT_RADIUS);
    assert dw + POINT_RADIUS == width - POINT_RADIUS && dh + POINT_RADIUS == height - POINT_RADIUS;
  }

  /** isTooClose: some accepted target is closer than MIN_SEPARATION (twice the point radius) to `c`. */
  predicate TooClose(pts: seq<Vertex>, c: Point, dist: Metric) {
    exists i :: 0 <= i < |pts| && dist(pts[i].pos, c) < MIN_SEPARATION
  }

  /** Every target is at least MIN_SEPARATION from each target accepted before it. */
  predicate Separated(pts: seq<Vertex>, dist: Metric) {
    forall i, j :: 0 <= i < j < |pts| ==> dist(pts[i].pos, pts[j].pos) >= MIN_SEPARATION
  }

  /** Targets are numbered by position and none is intermediate. */
  predicate AreTargets(pts: seq<Vertex>) {
    forall i :: 0 <= i < |pts| ==> pts[i].id == i && !pts[i].isIntermediate
  }

  /** Appending a candidate that is not too close keeps the targets separated. */
  lemma AcceptKeepsSeparated(pts: seq<Vertex>, v: Vertex, dist: Metric)
    requires Separated(pts, dist) && !TooClose(pts, v.pos, dist)
    ensures Separated(pts + [v], dist)
  {
    forall i, j | 0 <= i < j < |pts + [v]|
      ensures dist((pts + [v])[i].pos, (pts + [v])[j].pos) >= MIN_SEPARATION
    {
      if j == |pts| {
        assert (pts + [v])[i] == pts[i];
      } else {
        assert (pts + [v])[i] == pts[i] && (pts + [v])[j] == pts[j];
      }
    }
  }

  /** Candidate `k` was too close to a target accepted from an earlier candidate. */
  ghost predicate RejectedAt(pts: seq<Vertex>, from: seq<nat>, candidates: seq<Point>, k: nat, dist: Metric)
    requires |from| == |pts| && k < |candidates|
  {
    exists i :: 0 <= i < |from| && from[i] < k && dist(pts[i].pos, candidates[k]) < MIN_SEPARATION
  }

  /**
   * `pts` is what the acceptance loop holds after drawing `candidates[..used]`:
   * separated numbered targets, target `i` taken from candidate `from[i]`
   * in drawing order, and every other candidate drawn rejected as too close
   * to a target accepted before it.
   */
  ghost predicate Placed(candidates: seq<Point>, dist: Metric, pts: seq<Vertex>, used: nat, from: seq<nat>) {
    && used <= |candidates|
    && |from| == |pts|
    && AreTargets(pts)
    && Separated(pts, dist)
    && (forall i, j :: 0 <= i < j < |from| ==> from[i] < from[j])
    && (forall i :: 0 <= i < |from| ==> from[i] < used && pts[i].pos == candidates[from[i]])
    && (forall k :: 0 <= k < used && k !in from ==> RejectedAt(pts, from, candidates, k, dist))
  }

  /** Accepting the next candidate keeps the loop's description. */
  lemma PlacedAccept(candidates: seq<Point>, dist: Metric, pts: seq<Vertex>, used: nat, from: seq<nat>)
    requires Placed(candidates, dist, pts, used, from) && used < |candidates|
    requires !TooClose(pts, candidates[used], dist)
    ensures Placed(candidates, dist, pts + [Vertex(candidates[used], |pts|, false)], used + 1, from + [used])
  {
    var v := Vertex(candidates[used], |pts|, false);
    var pts', from' := pts + [v], from + [used];
    AcceptKeepsSeparated(pts, v, dist);
    forall k | 0 <= k < used + 1 && k !in from'
      ensures RejectedAt(pts', from', candidates, k, dist)
    {
      assert k !in from && k < used;
      assert RejectedAt(pts, from, candidates, k, dist);
      var i :| 0 <= i < |from| && from[i] < k && dist(pts[i].pos, candidates[k]) < MIN_SEPARATION;
      assert from'[i] == from[i] && pts'[i] == pts[i];
    }
    assert forall i :: 0 <= i < |from| ==> from'[i] == from[i] && pts'[i] == pts[i];
  }

  /** Rejecting the next candidate keeps the loop's description. */
  lemma PlacedReject(candidates: seq<Point>, dist: Metric, pts: seq<Vertex>, used: nat, from: seq<nat>)
    requires Placed(candidates, dist, pts, used, from) && used < |candidates|
    requires TooClose(pts, candidates[used], dist)
    ensures Placed(candidates, dist, pts, used + 1, from)
  {
    var i :| 0 <= i < |pts| && dist(pts[i].pos, candidates[used]) < MIN_SEPARATION;
    assert from[i] < used;
    assert RejectedAt(pts, from, candidates, used, dist);
  }

  /** The candidate positions a run of samples stands for. */
  function Candidates(samples: seq<Sample>, width: real, height: real): seq<Point> {
    seq(|samples|, k requires 0 <= k < |samples| => Position(samples[k], width, height))
  }

  /**
   * The `while (points.length < N)` loop over the candidate positions drawn
   * in turn.  `used` is how many candidates were drawn; `from[i]` is the
   * candidate target `i` came from.  When the candidates run out first,
   * `ok` is false (the source would keep drawing forever).
   */
  method PlaceTargets(candidates: seq<Point>, n: int, dist: Metric)
    returns (pts: seq<Vertex>, ok: bool, used: nat, ghost from: seq<nat>)
    ensures Placed(candidates, dist, pts, used, from)
    ensures AreTargets(pts) && Separated(pts, dist)
    ensures ok ==> |pts| == (if n < 0 then 0 else n)
    ensures !ok ==> |pts| < n && used == |candidates|
    ensures ok && n > 0 ==> |from| > 0 && used == from[|from| - 1] + 1
  {
    pts, used, from := [], 0, [];
    while |pts| < n && used < |candidates|
      invariant Placed(candidates, dist, pts, used, from)
      invariant |from| == |pts|
      invariant pts == [] || |pts| <= n
      invariant |pts| >= n && n > 0 ==> used == from[|from| - 1] + 1
    {
      var newPoint := Vertex(candidates[used], |pts|, false);
      if !TooClose(pts, newPoint.pos, dist) {
        PlacedAccept(candidates, dist, pts, used, from);
        pts := pts + [newPoint];
        from := from + [used];
      } else {
        PlacedReject(candidates, dist, pts, used, from);
      }
      used := used + 1;
    }
    ok := |pts| >= n;
  }

  /**
   * The reference score of a board: calculateInitialScore around the
   * centroid.  With no targets the centroid is 0/0, but the reduce over no
   * points is 0, so the score is 0 whatever the centroid.
   */
  function ReferenceScore(pts: seq<Vertex>, dist: Metric): real {
    if pts == [] then 0.0 else InitialScore(Positions(pts), Centroid(Positions(pts)), dist)
  }

  /**
   * `pts` and `score` are what generateRandomPoints produces for `level`
   * from the samples: the level's number of targets, placed by the
   * acceptance loop, and their reference score.
   */
  ghost predicate Generated(samples: seq<Sample>, width: real, height: real, dist: Metric, level: int,
                            pts: seq<Vertex>, score: real)
  {
    && AreTargets(pts) && Separated(pts, dist)
    && |pts| == (if PointsForLevel(level) < 0 then 0 else PointsForLevel(level))
    && (exists used: nat, from: seq<nat> :: Placed(Candidates(samples, width, height), dist, pts, used, from))
    && score == ReferenceScore(pts, dist)
  }

  /**
   * The samples run out before the targets of `level` are placed: having
   * drawn every candidate, the acceptance loop holds fewer targets than
   * the level needs.
   */
  ghost predicate Exhausted(samples: seq<Sample>, width: real, height: real, dist: Metric, level: int) {
    exists pts: seq<Vertex>, from: seq<nat> ::
      && Placed(Candidates(samples, width, height), dist, pts, |samples|, from)
      && |pts| < PointsForLevel(level)
  }

  /**
   * Every target generateRandomPoints places lies at least one point radius
   * inside each edge of the canvas, whichever candidates were rejected.
   */
  lemma GeneratedInCanvas(samples: seq<Sample>, width: real, height: real, dist: Metric, level: int,
                          pts: seq<Vertex>, score: real)
    requires forall k :: 0 <= k < |samples| ==> IsUnitSample(samples[k])
    requires width >= 2.0 * POINT_RADIUS && height >= 2.0 * POINT_RADIUS
    requires Generated(samples, width, height, dist, level, pts, score)
    ensures forall i :: 0 <= i < |pts| ==> POINT_RADIUS <= pts[i].pos.x <= width - POINT_RADIUS
    ensures forall i :: 0 <= i < |pts| ==> POINT_RADIUS <= pts[i].pos.y <= height - POINT_RADIUS
  {
    var candidates := Candidates(samples, width, height);
    var used: nat, from: seq<nat> :| Placed(candidates, dist, pts, used, from);
    forall i | 0 <= i < |pts|
      ensures POINT_RADIUS <= pts[i].pos.x <= width - POINT_RADIUS
      ensures POINT_RADIUS <= pts[i].pos.y <= height - POINT_RADIUS
    {
      var k := from[i];
      assert pts[i].pos == candidates[k] == Position(samples[k], width, height);
      PositionInCanvas(samples[k], width, height);
    }
  }
}
