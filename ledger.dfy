/**
 * The connection ledger's length accounting: addConnection adds each new
 * stroke's length divided by 10 to `totalLength`, which therefore always
 * equals the scaled sum over every connection drawn so far.
 */
module Ledger {
  import opened Geometry
  import opened Board

  /** The scaled length of one stroke, distanceBetweenPoints(start, end) / 10. */
  function ConnectionLength(c: Connection, dist: Metric): real {
    dist(c.start.pos, c.end.pos) / LENGTH_SCALE
  }

  /**
   * A stroke drawn from `a` to `b` costs the same as one drawn from `b` to
   * `a` under the Euclidean distance: the direction of the drag does not
   * matter to the score, just as it does not matter to connectivity.
   */
  lemma ConnectionLengthReversed(a: Vertex, b: Vertex, dist: Metric)
    requires IsEuclidean(dist)
    ensures ConnectionLength(Connection(a, b), dist) == ConnectionLength(Connection(b, a), dist)
  {
    EuclideanSymmetric(dist, a.pos, b.pos);
  }

  /** The scaled length of every stroke in `conns`. */
  function SumLengths(conns: seq<Connection>, dist: Metric): real {
    if conns == [] then 0.0 else ConnectionLength(conns[0], dist) + SumLengths(conns[1..], dist)
  }

  /** Appending a stroke adds exactly its length: the `totalLength +=` step keeps the sum. */
  lemma {:induction false} SumLengthsAppend(conns: seq<Connection>, c: Connection, dist: Metric)
    ensures SumLengths(conns + [c], dist) == SumLengths(conns, dist) + ConnectionLength(c, dist)
  {
    if conns != [] {
      assert (conns + [c])[1..] == conns[1..] + [c];
      SumLengthsAppend(conns[1..], c, dist);
    } else {
      assert [c][1..] == [];
    }
  }

  /**
   * With a non-negative distance the accumulated length never goes below
   * zero, so the score never rises above the reference score.
   */
  lemma {:induction false} SumLengthsNonNegative(conns: seq<Connection>, dist: Metric)
    requires forall p: Point, q: Point :: dist(p, q) >= 0.0
    ensures SumLengths(conns, dist) >= 0.0
  {
    if conns != [] {
      SumLengthsNonNegative(conns[1..], dist);
    }
  }

  /** One stroke of Euclidean length 30 against a reference score of 10 leaves a score of 7. */
  lemma ScoreExample(dist: Metric)
    requires IsEuclidean(dist)
    ensures 10.0 - SumLengths([Connection(Vertex(Point(0.0, 0.0), 0, false),
                                          Vertex(Point(30.0, 0.0), 1, false))], dist) == 7.0
  {
    var a, b := Point(0.0, 0.0), Point(30.0, 0.0);
    assert SqDist(a, b) == 30.0 * 30.0;
    SquareMonotone(dist(a, b), 30.0);
    var conns := [Connection(Vertex(a, 0, false), Vertex(b, 1, false))];
    assert conns[1..] == [];
  }
}
