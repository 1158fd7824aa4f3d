/**
 * The game's constants and the values it manipulates: vertices ("points")
 * and connections, and the level-size rule.
 */
module Board {
  import opened Geometry

  /** Radius of a target point; a drag must start within it. */
  const POINT_RADIUS: real := 15.0

  /** A stroke end within this distance of a point snaps to it. */
  const SNAP_DISTANCE: real := POINT_RADIUS * 1.5

  /** Two generated targets are at least this far apart (minDistance in generateRandomPoints). */
  const MIN_SEPARATION: real := POINT_RADIUS * 2.0

  /** Stroke lengths and the reference score are divided by this for display. */
  const LENGTH_SCALE: real := 10.0

  /**
   * A point of the board: a generated target (`isIntermediate == false`) or
   * a point created where a stroke ended in empty space.
   */
  datatype Vertex = Vertex(pos: Point, id: int, isIntermediate: bool)

  /** A drawn stroke, stored with its orientation but undirected in meaning. */
  datatype Connection = Connection(start: Vertex, end: Vertex)

  /** Every point's id is its index in the point list. */
  predicate IdsAreIndices(points: seq<Vertex>) {
    forall i :: 0 <= i < |points| ==> points[i].id == i
  }

  /** The positions of a list of points, in order. */
  function Positions(vs: seq<Vertex>): seq<Point> {
    seq(|vs|, i requires 0 <= i < |vs| => vs[i].pos)
  }

  /** getPointsForLevel: the number of targets of a level. */
  function PointsForLevel(level: int): (n: int)
    ensures n % 2 == 1
    ensures (n - 1) / 2 == level
    ensures level >= 1 ==> n >= 3
  {
    2 * level + 1
  }
}
