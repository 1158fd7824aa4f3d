/** Small helper datatype for "a value or nothing" (JavaScript's null). */
module Optional {
  datatype Option<T> = None | Some(value: T)
}

/**
 * Points, distances and the centroid of the connect-the-dots board.
 *
 * The game measures distances with Math.sqrt over floating-point numbers.
 * Dafny has no square root, so a distance function is supplied by the host
 * (`Metric`).  Everything the game engine promises holds for any metric;
 * `IsEuclidean` pins a metric to the Euclidean one where a concrete
 * example needs actual distances.
 */
module Geometry {

  /** A canvas-local position. */
  datatype Point = Point(x: real, y: real)

  /** The host's distance function, distanceBetweenPoints(p1, p2). */
  type Metric = (Point, Point) -> real

  /** The squared Euclidean distance, the radicand of distanceBetweenPoints. */
  function SqDist(p: Point, q: Point): real {
    (q.x - p.x) * (q.x - p.x) + (q.y - p.y) * (q.y - p.y)
  }

  /** `dist` is the non-negative square root of the squared distance. */
  ghost predicate IsEuclidean(dist: Metric) {
    forall p: Point, q: Point :: dist(p, q) >= 0.0 && dist(p, q) * dist(p, q) == SqDist(p, q)
  }

  /** Among non-negative reals, squaring preserves and reflects the order. */
  lemma SquareMonotone(a: real, b: real)
    requires a >= 0.0 && b >= 0.0
    ensures a <= b <==> a * a <= b * b
    ensures a < b <==> a * a < b * b
  {
    if a < b {
      PositiveProduct(b - a, b + a);
    } else if b < a {
      PositiveProduct(a - b, a + b);
    }
  }

  lemma PositiveProduct(d: real, s: real)
    requires d > 0.0 && s > 0.0
    ensures d * s > 0.0
  {
  }

  /** A Euclidean distance is within a bound exactly when its square is within the squared bound. */
  lemma WithinBySquares(dist: Metric, p: Point, q: Point, bound: real)
    requires IsEuclidean(dist) && bound >= 0.0
    ensures dist(p, q) <= bound <==> SqDist(p, q) <= bound * bound
  {
    SquareMonotone(dist(p, q), bound);
  }

  /**
   * A Euclidean distance does not depend on the order of its arguments, so
   * the argument order of distanceBetweenPoints at its call sites does not
   * matter for the Euclidean metric.
   */
  lemma EuclideanSymmetric(dist: Metric, p: Point, q: Point)
    requires IsEuclidean(dist)
    ensures dist(p, q) == dist(q, p)
  {
    assert SqDist(p, q) == SqDist(q, p);
    SquareMonotone(dist(p, q), dist(q, p));
  }

  /** Sum of `f` over a sequence of points: the `reduce` of calculateCentroid and calculateInitialScore. */
  function Sum(ps: seq<Point>, f: Point -> real): real {
    if ps == [] then 0.0 else f(ps[0]) + Sum(ps[1..], f)
  }

  function XOf(p: Point): real { p.x }
  function YOf(p: Point): real { p.y }

  /** The distance from a point to `c`, the summand of calculateInitialScore. */
  function DistTo(c: Point, dist: Metric): Point -> real {
    p => dist(p, c)
  }

  /** calculateCentroid: the arithmetic mean of the coordinates. */
  function Centroid(ps: seq<Point>): (c: Point)
    requires |ps| > 0
    ensures c.x * (|ps| as real) == Sum(ps, XOf)
    ensures c.y * (|ps| as real) == Sum(ps, YOf)
  {
    Point(Sum(ps, XOf) / (|ps| as real), Sum(ps, YOf) / (|ps| as real))
  }

  /**
   * calculateInitialScore: the summed distance to the centroid, divided by
   * 10.  With no points the sum is the reduce's initial 0, so the score is 0.
   */
  function InitialScore(ps: seq<Point>, c: Point, dist: Metric): (s: real)
    ensures ps == [] ==> s == 0.0
    ensures (forall p :: p in ps ==> dist(p, c) >= 0.0) ==> s >= 0.0
  {
    SumNonNegative(ps, DistTo(c, dist));
    Sum(ps, DistTo(c, dist)) / 10.0
  }

  /** A sum of non-negative terms is non-negative. */
  lemma {:induction false} SumNonNegative(ps: seq<Point>, f: Point -> real)
    ensures (forall p :: p in ps ==> f(p) >= 0.0) ==> Sum(ps, f) >= 0.0
  {
    if ps != [] {
      SumNonNegative(ps[1..], f);
      if forall p :: p in ps ==> f(p) >= 0.0 {
        assert forall p :: p in ps[1..] ==> p in ps;
        assert f(ps[0]) >= 0.0;
      }
    }
  }

  /** Taking one element out of the middle of a sum. */
  lemma {:induction false} SumRemove(ps: seq<Point>, j: nat, f: Point -> real)
    requires j < |ps|
    ensures Sum(ps, f) == f(ps[j]) + Sum(ps[..j] + ps[j + 1..], f)
  {
    if j > 0 {
      SumRemove(ps[1..], j - 1, f);
      assert ps[1..][..j - 1] + ps[1..][j..] == (ps[..j] + ps[j + 1..])[1..];
    } else {
      assert ps[..j] + ps[j + 1..] == ps[1..];
    }
  }

  /** Taking one element out of the middle of a sequence takes it out of its multiset. */
  lemma MultisetRemove(ps: seq<Point>, j: nat)
    requires j < |ps|
    ensures multiset(ps[..j] + ps[j + 1..]) == multiset(ps) - multiset{ps[j]}
  {
    assert ps == ps[..j] + [ps[j]] + ps[j + 1..];
  }

  /** The first element of `ps` occurs in a permutation `qs`; removing both leaves permutations. */
  lemma PermutationHead(ps: seq<Point>, qs: seq<Point>) returns (j: nat)
    requires ps != [] && multiset(ps) == multiset(qs)
    ensures j < |qs| && qs[j] == ps[0]
    ensures multiset(ps[1..]) == multiset(qs[..j] + qs[j + 1..])
  {
    assert ps[0] in multiset(qs);
    j :| 0 <= j < |qs| && qs[j] == ps[0];
    MultisetRemove(qs, j);
    assert ps == [ps[0]] + ps[1..];
    assert multiset(ps) == multiset{ps[0]} + multiset(ps[1..]);
  }

  /** A sum depends only on the multiset of the summed points. */
  lemma {:induction false} SumPermutation(ps: seq<Point>, qs: seq<Point>, f: Point -> real)
    requires multiset(ps) == multiset(qs)
    ensures Sum(ps, f) == Sum(qs, f)
  {
    if ps != [] {
      var j := PermutationHead(ps, qs);
      var rest := qs[..j] + qs[j + 1..];
      SumPermutation(ps[1..], rest, f);
      SumRemove(qs, j, f);
      calc {
        Sum(ps, f);
        f(ps[0]) + Sum(ps[1..], f);
        f(qs[j]) + Sum(rest, f);
        Sum(qs, f);
      }
    } else {
      assert |qs| == |multiset(qs)| == 0;
    }
  }

  /** The reference score depends only on the set of generated points, not their order. */
  lemma InitialScorePermutation(ps: seq<Point>, qs: seq<Point>, dist: Metric)
    requires |ps| > 0 && multiset(ps) == multiset(qs)
    ensures |qs| > 0 && Centroid(ps) == Centroid(qs)
    ensures InitialScore(ps, Centroid(ps), dist) == InitialScore(qs, Centroid(qs), dist)
  {
    assert |qs| == |multiset(qs)| == |multiset(ps)| == |ps|;
    SumPermutation(ps, qs, XOf);
    SumPermutation(ps, qs, YOf);
    SumPermutation(ps, qs, DistTo(Centroid(ps), dist));
  }
}
