/**
 * The game session: the module-level state of the game (points,
 * connections, the connected graph, the accumulated length and the drag
 * flags) and the handlers that change it.  Removing the mouse listeners on
 * a win is modelled by the `won` flag, which turns the mouse handlers into
 * no-ops until the next reset.
 */
module Session {
  import opened Optional
  import opened Geometry
  import opened Board
  import opened Snap
  import opened Ledger
  import opened Reachability
  import opened Generation

  class Game {
    /** distanceBetweenPoints, supplied by the host. */
    const dist: Metric
    /** The canvas size used to place targets. */
    const width: real
    const height: real

    var points: seq<Vertex>
    var connections: seq<Connection>
    var totalLength: real
    var isDragging: bool
    var dragStart: Option<Vertex>
    var dragEnd: Option<Point>
    var connectedGraph: seq<Vertex>
    var initialScore: real
    var currentLevel: int
    /** The mouse listeners were removed after a win. */
    var won: bool

    /** What every handler keeps about the board, whatever the win state. */
    ghost predicate Consistent()
      reads this
    {
      && IdsAreIndices(points)
      && NoDuplicates(connectedGraph)
      && totalLength == SumLengths(connections, dist)
    }

    /** Consistent, and a won game has every target connected. */
    ghost predicate BoardValid()
      reads this
    {
      Consistent() && (won ==> AllTargetsConnected(points, connectedGraph))
    }

    /** A drag is in progress exactly when it has a start; an end position only during a drag. */
    ghost predicate DragValid()
      reads this
    {
      && (isDragging <==> dragStart.Some?)
      && (dragEnd.Some? ==> isDragging)
    }

    /** The object invariant. */
    ghost predicate Valid()
      reads this
    {
      BoardValid() && DragValid()
    }

    /** The initial values of the module-level variables, listeners attached. */
    constructor (dist: Metric, width: real, height: real)
      ensures Valid()
      ensures this.dist == dist && this.width == width && this.height == height
      ensures points == [] && connections == [] && connectedGraph == [] && totalLength == 0.0
      ensures !isDragging && dragStart == None && dragEnd == None
      ensures initialScore == 0.0 && currentLevel == 1 && !won
    {
      this.dist, this.width, this.height := dist, width, height;
      points, connections, connectedGraph, totalLength := [], [], [], 0.0;
      isDragging, dragStart, dragEnd := false, None, None;
      initialScore, currentLevel, won := 0.0, 1, false;
    }

    /** The score shown to the player: the reference score minus the length drawn so far. */
    function CurrentScore(): (s: real)
      reads this
      requires Consistent()
      ensures s == initialScore - SumLengths(connections, dist)
    {
      initialScore - totalLength
    }

    /**
     * generateRandomPoints: place the targets of the current level from the
     * candidates the samples stand for, clear the connections and the length,
     * and fix the reference score.  When the samples run out before the level
     * is full, `ok` is false and nothing changes.
     */
    method GenerateRandomPoints(samples: seq<Sample>) returns (ok: bool)
      requires Consistent()
      modifies this`points, this`connections, this`initialScore, this`totalLength
      ensures Consistent()
      ensures !ok ==> unchanged(this) && Exhausted(samples, width, height, dist, currentLevel)
      ensures ok ==> && connections == [] && totalLength == 0.0
                     && Generated(samples, width, height, dist, currentLevel, points, initialScore)
    {
      var n := PointsForLevel(currentLevel);
      var candidates := Candidates(samples, width, height);
      var pts, placed, used, from := PlaceTargets(candidates, n, dist);
      if !placed {
        assert Placed(candidates, dist, pts, |samples|, from);
        return false;
      }
      points, connections := pts, [];
      var ps := Positions(points);
      initialScore := if ps == [] then 0.0 else InitialScore(ps, Centroid(ps), dist);
      assert initialScore == ReferenceScore(points, dist);
      totalLength := 0.0;
      ok := true;
    }

    /**
     * The new state after addConnection(start, end): `end` snapped to the
     * nearest point, or a new intermediate point; one more connection; its
     * length added; the graph grown to everything reachable from its old
     * contents; the win recorded.
     */
    twostate predicate ConnectionAdded(start: Vertex, end: Point)
      reads this`points, this`connections, this`totalLength, this`connectedGraph, this`won
    {
      var n := |old(connections)|;
      && |connections| == n + 1
      && connections[..n] == old(connections)
      && connections[n].start == start
      && (NoneWithin(old(points), end, dist, SNAP_DISTANCE) ==>
            && points == old(points) + [Vertex(end, |old(points)|, true)]
            && connections[n].end == points[|old(points)|])
      && (!NoneWithin(old(points), end, dist, SNAP_DISTANCE) ==>
            && points == old(points)
            && exists k: nat :: IsSnapTarget(points, end, dist, k) && connections[n].end == points[k])
      && totalLength == old(totalLength) + ConnectionLength(connections[n], dist)
      && old(connectedGraph) <= connectedGraph
      && (forall v :: v in connectedGraph <==> Reachable(old(connectedGraph), connections, v))
      && won == (old(won) || AllTargetsConnected(points, connectedGraph))
    }

    /** addConnection: record the stroke from `start` to the raw position `end`. */
    method AddConnection(start: Vertex, end: Point)
      requires BoardValid()
      modifies this`points, this`connections, this`totalLength, this`connectedGraph, this`won
      ensures BoardValid()
      ensures ConnectionAdded(start, end)
    {
      var endPoint := SnapEnd(end);
      var conn := Connection(start, endPoint);
      RecordConnection(conn);
      ghost var g0 := connectedGraph;
      GrowGraph(conn);
      TargetsConnectedGrow(points, g0, connectedGraph);
      CheckGameEnd();
    }

    /**
     * The first step of addConnection: `end` snaps to the closest point
     * within SNAP_DISTANCE, or else becomes a new intermediate point.
     */
    method SnapEnd(end: Point) returns (endPoint: Vertex)
      requires IdsAreIndices(points)
      modifies this`points
      ensures IdsAreIndices(points)
      ensures NoneWithin(old(points), end, dist, SNAP_DISTANCE) ==>
                && endPoint == Vertex(end, |old(points)|, true)
                && points == old(points) + [endPoint]
      ensures !NoneWithin(old(points), end, dist, SNAP_DISTANCE) ==>
                && points == old(points)
                && exists k: nat :: IsSnapTarget(points, end, dist, k) && endPoint == points[k]
      ensures AllTargetsConnected(points, connectedGraph) == AllTargetsConnected(old(points), connectedGraph)
    {
      var snapped := FindClosestPoint(points, end, dist);
      if snapped.None? {
        endPoint := Vertex(end, |points|, true);
        WinIgnoresIntermediate(points, connectedGraph, endPoint);
        points := points + [endPoint];
      } else {
        endPoint := points[snapped.value];
      }
    }

    /** The second step of addConnection: store the connection and add its length. */
    method RecordConnection(conn: Connection)
      requires totalLength == SumLengths(connections, dist)
      modifies this`connections, this`totalLength
      ensures connections == old(connections) + [conn]
      ensures totalLength == old(totalLength) + ConnectionLength(conn, dist)
      ensures totalLength == SumLengths(connections, dist)
    {
      SumLengthsAppend(connections, conn, dist);
      connections := connections + [conn];
      totalLength := totalLength + dist(conn.start.pos, conn.end.pos) / LENGTH_SCALE;
    }

    /**
     * The last step of addConnection: when exactly one endpoint of the new
     * connection is in the graph, the other one joins it; then
     * updateConnectedGraph completes the graph.
     */
    method GrowGraph(conn: Connection)
      requires conn in connections && NoDuplicates(connectedGraph)
      modifies this`connectedGraph
      ensures NoDuplicates(connectedGraph)
      ensures old(connectedGraph) <= connectedGraph
      ensures forall v :: v in connectedGraph <==> Reachable(old(connectedGraph), connections, v)
    {
      ghost var g0, conns := connectedGraph, connections;
      GrownFromStart(g0, conns);
      if conn.start in connectedGraph {
        if conn.end !in connectedGraph {
          GrownFromPush(g0, conns, g0, conn, conn.start, conn.end);
          connectedGraph := connectedGraph + [conn.end];
        }
      } else if conn.end in connectedGraph {
        GrownFromPush(g0, conns, g0, conn, conn.end, conn.start);
        connectedGraph := connectedGraph + [conn.start];
      }
      ghost var g1 := connectedGraph;
      assert GrownFrom(g0, conns, g1);
      UpdateConnectedGraph();
      assert connections == conns;
      GrownThenClosed(g0, conns, g1, connectedGraph);
    }

    /**
     * updateConnectedGraph: repeat passes over the connections until a pass
     * adds nothing.  The passes terminate because a pass that adds a vertex
     * leaves fewer connections with an endpoint outside the graph.
     */
    method UpdateConnectedGraph()
      requires NoDuplicates(connectedGraph)
      modifies this`connectedGraph
      ensures NoDuplicates(connectedGraph)
      ensures old(connectedGraph) <= connectedGraph
      ensures Closed(connectedGraph, connections)
      ensures forall v :: v in connectedGraph <==> Reachable(old(connectedGraph), connections, v)
      ensures Closed(old(connectedGraph), connections) ==> connectedGraph == old(connectedGraph)
    {
      ghost var g0 := connectedGraph;
      GrownFromStart(g0, connections);
      var changed := true;
      while changed
        invariant GrownFrom(g0, connections, connectedGraph)
        invariant !changed ==> Closed(connectedGraph, connections)
        invariant Closed(g0, connections) ==> connectedGraph == g0
        decreases Loose(connections, connectedGraph), changed
      {
        changed := PropagatePass(g0);
      }
      forall v | Reachable(g0, connections, v)
        ensures v in connectedGraph
      {
        ClosedContainsReachable(g0, connectedGraph, connections, v);
      }
    }

    /**
     * One pass of updateConnectedGraph's do-while loop: the forEach over the
     * connections, adding the missing endpoint of every connection with
     * exactly one endpoint in the graph.
     */
    method PropagatePass(ghost g0: seq<Vertex>) returns (changed: bool)
      requires GrownFrom(g0, connections, connectedGraph)
      modifies this`connectedGraph
      ensures GrownFrom(g0, connections, connectedGraph)
      ensures old(connectedGraph) <= connectedGraph
      ensures changed ==> Loose(connections, connectedGraph) < Loose(connections, old(connectedGraph))
      ensures !changed ==> connectedGraph == old(connectedGraph) && Closed(connectedGraph, connections)
      ensures Closed(old(connectedGraph), connections) ==> !changed
    {
      changed := false;
      PassStart(g0, connections, connectedGraph);
      for i := 0 to |connections|
        invariant PassInvariant(g0, connections, old(connectedGraph), connectedGraph, changed, i)
      {
        var conn := connections[i];
        if conn.start in connectedGraph && conn.end !in connectedGraph {
          PassPush(g0, connections, old(connectedGraph), connectedGraph, changed, i, conn.start, conn.end);
          connectedGraph := connectedGraph + [conn.end];
          changed := true;
        } else if conn.end in connectedGraph && conn.start !in connectedGraph {
          PassPush(g0, connections, old(connectedGraph), connectedGraph, changed, i, conn.end, conn.start);
          connectedGraph := connectedGraph + [conn.start];
          changed := true;
        } else {
          PassSkip(g0, connections, old(connectedGraph), connectedGraph, changed, i);
        }
      }
    }

    /** checkGameEnd: the game is won once every target is in the connected graph. */
    method CheckGameEnd()
      modifies this`won
      ensures won == (old(won) || AllTargetsConnected(points, connectedGraph))
    {
      if AllTargetsConnected(points, connectedGraph) {
        won := true;
      }
    }

    /**
     * handleMouseDown: a drag starts only from a point within POINT_RADIUS
     * of the click (the snap target of the click); the first drag of a
     * session seeds the connected graph with its start.
     */
    method HandleMouseDown(click: Point)
      requires Valid()
      modifies this`connectedGraph, this`dragStart, this`isDragging
      ensures Valid()
      ensures old(won) || NoneWithin(points, click, dist, POINT_RADIUS) ==>
                && connectedGraph == old(connectedGraph)
                && dragStart == old(dragStart)
                && isDragging == old(isDragging)
      ensures !old(won) && !NoneWithin(points, click, dist, POINT_RADIUS) ==>
                && isDragging
                && dragStart.Some?
                && (exists k: nat :: IsSnapTarget(points, click, dist, k) && dragStart.value == points[k])
                && connectedGraph == (if old(connectedGraph) == [] then [dragStart.value] else old(connectedGraph))
    {
      if won {
        return;
      }
      var closest := FindClosestPoint(points, click, dist);
      if closest.None? {
        NoSnapNoDrag(points, click, dist);
        return;
      }
      DragStartTest(points, click, dist, closest.value);
      var closestPoint := points[closest.value];
      if dist(click, closestPoint.pos) <= POINT_RADIUS {
        if |connectedGraph| == 0 {
          connectedGraph := connectedGraph + [closestPoint];
        }
        dragStart := Some(closestPoint);
        isDragging := true;
      }
    }

    /** handleMouseMove: while dragging, remember where the stroke currently ends. */
    method HandleMouseMove(pos: Point)
      requires Valid()
      modifies this`dragEnd
      ensures Valid()
      ensures dragEnd == if !won && isDragging then Some(pos) else old(dragEnd)
    {
      if !won && isDragging {
        dragEnd := Some(pos);
      }
    }

    /**
     * handleMouseUp: a drag in progress ends; if the stroke has an end
     * position, it becomes a connection.  The drag state is cleared either way.
     */
    method HandleMouseUp()
      requires Valid()
      modifies this`isDragging, this`dragStart, this`dragEnd
      modifies this`points, this`connections, this`totalLength, this`connectedGraph, this`won
      ensures Valid()
      ensures old(won) || !old(isDragging) ==> unchanged(this)
      ensures !old(won) && old(isDragging) ==> !isDragging && dragStart == None && dragEnd == None
      ensures !old(won) && old(isDragging) && old(dragEnd).None? ==>
                unchanged(this`points, this`connections, this`totalLength, this`connectedGraph, this`won)
      ensures !old(won) && old(isDragging) && old(dragEnd).Some? ==>
                ConnectionAdded(old(dragStart).value, old(dragEnd).value)
    {
      if won || !isDragging {
        return;
      }
      isDragging := false;
      if dragStart.Some? && dragEnd.Some? {
        AddConnection(dragStart.value, dragEnd.value);
      }
      dragStart := None;
      dragEnd := None;
    }

    /**
     * resetGame: new targets for the current level, no connections, an empty
     * graph, listeners attached again.  The drag flags are left as they were.
     */
    method ResetGame(samples: seq<Sample>) returns (ok: bool)
      requires Valid()
      modifies this`points, this`connections, this`initialScore, this`totalLength, this`connectedGraph, this`won
      ensures Valid()
      ensures !ok ==> unchanged(this) && Exhausted(samples, width, height, dist, currentLevel)
      ensures ok ==> && connections == [] && connectedGraph == [] && totalLength == 0.0 && !won
                     && Generated(samples, width, height, dist, currentLevel, points, initialScore)
      ensures isDragging == old(isDragging) && dragStart == old(dragStart) && dragEnd == old(dragEnd)
      ensures currentLevel == old(currentLevel)
    {
      ok := GenerateRandomPoints(samples);
      if !ok {
        return;
      }
      connections, connectedGraph, won := [], [], false;
    }

    /** changeLevel: switch to `level` and reset. */
    method ChangeLevel(level: int, samples: seq<Sample>) returns (ok: bool)
      requires Valid()
      modifies this`currentLevel, this`points, this`connections, this`initialScore, this`totalLength
      modifies this`connectedGraph, this`won
      ensures Valid()
      ensures currentLevel == level
      ensures !ok ==> && Exhausted(samples, width, height, dist, level)
                      && unchanged(this`points, this`connections, this`totalLength, this`connectedGraph)
                      && unchanged(this`initialScore, this`won)
      ensures ok ==> && connections == [] && connectedGraph == [] && totalLength == 0.0 && !won
                     && Generated(samples, width, height, dist, level, points, initialScore)
      ensures isDragging == old(isDragging) && dragStart == old(dragStart) && dragEnd == old(dragEnd)
    {
      currentLevel := level;
      ok := ResetGame(samples);
    }
  }
}
