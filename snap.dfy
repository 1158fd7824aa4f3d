/**
 * Snap resolution: findClosestPoint scans the point list and keeps the
 * first point that is strictly closer than every point seen so far and
 * within SNAP_DISTANCE of the query position.
 */
module Snap {
  import opened Optional
  import opened Geometry
  import opened Board

  /** No point of `points` lies within `bound` of `q`. */
  predicate NoneWithin(points: seq<Vertex>, q: Point, dist: Metric, bound: real) {
    forall j :: 0 <= j < |points| ==> dist(q, points[j].pos) > bound
  }

  /**
   * Index `k` is what the scan of `points[..n]` settles on: it is within
   * snap distance, no point of the prefix within snap distance is closer,
   * and every earlier such point is strictly farther (first one wins a tie).
   */
  predicate ClosestAmong(points: seq<Vertex>, q: Point, dist: Metric, n: nat, k: nat)
    requires n <= |points|
  {
    && k < n
    && dist(q, points[k].pos) <= SNAP_DISTANCE
    && forall j :: 0 <= j < n && dist(q, points[j].pos) <= SNAP_DISTANCE ==>
         && dist(q, points[k].pos) <= dist(q, points[j].pos)
         && (j < k ==> dist(q, points[k].pos) < dist(q, points[j].pos))
  }

  /** The snap target of `q` among all of `points`. */
  predicate IsSnapTarget(points: seq<Vertex>, q: Point, dist: Metric, k: nat) {
    ClosestAmong(points, q, dist, |points|, k)
  }

  /**
   * findClosestPoint: the index of the point `q` snaps to, or None when no
   * point is within SNAP_DISTANCE.  `minDistance` stands for +Infinity while
   * nothing has been found.
   */
  method FindClosestPoint(points: seq<Vertex>, q: Point, dist: Metric) returns (r: Option<nat>)
    ensures r.None? <==> NoneWithin(points, q, dist, SNAP_DISTANCE)
    ensures r.Some? ==> IsSnapTarget(points, q, dist, r.value)
  {
    r := None;
    var minDistance: real := 0.0;
    for i := 0 to |points|
      invariant r.None? <==> NoneWithin(points[..i], q, dist, SNAP_DISTANCE)
      invariant r.Some? ==> ClosestAmong(points, q, dist, i, r.value)
      invariant r.Some? ==> minDistance == dist(q, points[r.value].pos)
    {
      var distance := dist(q, points[i].pos);
      if (r.None? || distance < minDistance) && distance <= SNAP_DISTANCE {
        minDistance := distance;
        r := Some(i);
      }
    }
    assert points[..|points|] == points;
  }

  /**
   * The snap target is unique, so the scan's result is determined by its
   * contract: findClosestPoint is a function of the point list and the query.
   */
  lemma SnapTargetUnique(points: seq<Vertex>, q: Point, dist: Metric, k1: nat, k2: nat)
    requires IsSnapTarget(points, q, dist, k1) && IsSnapTarget(points, q, dist, k2)
    ensures k1 == k2
  {
  }

  /**
   * handleMouseDown's test: the snap target is within POINT_RADIUS exactly
   * when some point is, so a drag starts exactly when the click lands on a point.
   */
  lemma DragStartTest(points: seq<Vertex>, q: Point, dist: Metric, k: nat)
    requires IsSnapTarget(points, q, dist, k)
    ensures dist(q, points[k].pos) <= POINT_RADIUS <==> !NoneWithin(points, q, dist, POINT_RADIUS)
  {
    if !NoneWithin(points, q, dist, POINT_RADIUS) {
      var j :| 0 <= j < |points| && dist(q, points[j].pos) <= POINT_RADIUS;
      assert dist(q, points[k].pos) <= dist(q, points[j].pos);
    }
  }

  /** Nothing within SNAP_DISTANCE means nothing within the smaller POINT_RADIUS either. */
  lemma NoSnapNoDrag(points: seq<Vertex>, q: Point, dist: Metric)
    requires NoneWithin(points, q, dist, SNAP_DISTANCE)
    ensures NoneWithin(points, q, dist, POINT_RADIUS)
  {
  }

  /**
   * With targets at (0,0) and (100,100) and the Euclidean distance, a stroke
   * ending at (5,5) snaps to the first one and a stroke ending at (50,50)
   * snaps to nothing.
   */
  lemma SnapExample(dist: Metric)
    requires IsEuclidean(dist)
    ensures IsSnapTarget([Vertex(Point(0.0, 0.0), 0, false), Vertex(Point(100.0, 100.0), 1, false)],
                         Point(5.0, 5.0), dist, 0)
    ensures NoneWithin([Vertex(Point(0.0, 0.0), 0, false), Vertex(Point(100.0, 100.0), 1, false)],
                       Point(50.0, 50.0), dist, SNAP_DISTANCE)
  {
    var a, b := Point(0.0, 0.0), Point(100.0, 100.0);
    WithinBySquares(dist, Point(5.0, 5.0), a, SNAP_DISTANCE);
    WithinBySquares(dist, Point(5.0, 5.0), b, SNAP_DISTANCE);
    WithinBySquares(dist, Point(50.0, 50.0), a, SNAP_DISTANCE);
    WithinBySquares(dist, Point(50.0, 50.0), b, SNAP_DISTANCE);
  }
}
