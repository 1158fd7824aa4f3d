# Connect-the-dots: the graph-connectivity engine

A Dafny model of the game logic in `game.js`, a browser connect-the-dots
game. The game places a level's target points on a canvas, spaced out from
each other. The player drags strokes between points. A stroke that ends near
a point snaps to it. A stroke that ends in empty space creates an
intermediate point there. Every stroke's length counts against the score.
The game keeps a connected graph, seeded by the first point the player
touches, and grows it along the strokes until no more points can join. The
game is won once every target is in the connected graph.

Modules, one per file (`Optional` shares `geometry.dfy`):

- `Geometry` (`geometry.dfy`): points, the distance function, the centroid
  and the reference score (`calculateCentroid`, `calculateInitialScore`).
  `Math.sqrt` has no Dafny counterpart, so `distanceBetweenPoints` is a
  function the host supplies (`Metric`). Every property of the engine holds
  for any such function. `IsEuclidean` pins it to the Euclidean distance
  only for the Euclidean lemmas (`WithinBySquares`, `EuclideanSymmetric`,
  `ConnectionLengthReversed`) and the concrete examples.
- `Board` (`board.dfy`): the constants, vertices, connections and
  `getPointsForLevel`.
- `Snap` (`snap.dfy`): `findClosestPoint`, the first-wins closest point
  within `SNAP_DISTANCE`.
- `Ledger` (`ledger.dfy`): the length accounting of `addConnection`.
- `Reachability` (`reachability.dfy`): what the connected graph means. A
  vertex is reachable when a walk along strokes, each usable in either
  direction, leads to it from the graph's earlier contents. This module also
  has the lemmas behind `updateConnectedGraph` and the win condition.
- `Generation` (`generation.dfy`): the acceptance loop of
  `generateRandomPoints`. The random draws arrive as a sequence of samples.
- `Session` (`session.dfy`): the class `Game`. Its fields are the module
  variables of `game.js`, and its methods are the functions that change
  them. Removing the mouse listeners after a win becomes the field `won`,
  which turns the mouse handlers into no-ops until the next reset.

The object invariant `Game.Valid` has three parts:

- point ids equal their index in the point list;
- the connected graph has no duplicates;
- `totalLength` is the scaled length of all connections.

On top of these, a drag is in progress exactly when it has a start, a
stroke end is set only while a drag is in progress, and a won game has
every target connected. Vertices are compared by value.
`resetGame` keeps the drag flags, so a drag started on an old board can end
on a new one. Its start vertex is then not among the new board's points, and
the graph may hold vertices that are not in `points`. For that reason
`updateConnectedGraph`'s termination measure counts loose connections
rather than points.

## Model

| member | source | states |
|---|---|---|
| Board.PointsForLevel | game.js:22-24 | the number of targets is odd, `(n - 1) / 2` is the level, and from level 1 on there are at least 3 |
| Geometry.Centroid | game.js:27-36 | the centroid times the number of points is the sum of their coordinates |
| Geometry.SumPermutation | game.js:28-31 | a `reduce` sum over the points does not depend on their order |
| Geometry.InitialScorePermutation | game.js:39-42 | the centroid and the reference score depend only on the multiset of targets, not on the order they were accepted in |
| Geometry.InitialScore | game.js:39-42 | the reference score of no points is 0 (the reduce's initial value over 10), and it is never negative when the distances to the centroid are not |
| Geometry.SumNonNegative | game.js:40-41 | a reduce sum of non-negative terms is non-negative |
| Geometry.WithinBySquares | game.js:105-107 | for the Euclidean distance, being within a bound is the same as the squared distance being within the squared bound |
| Geometry.EuclideanSymmetric | game.js:105-107 | the Euclidean distance is symmetric |
| Generation.Position | game.js:52-53 | the candidate position: a draw scaled to the canvas inset by one point radius on each side |
| Generation.TooClose | game.js:57 | `isTooClose`: some accepted target is closer than `2 * POINT_RADIUS` to the candidate |
| Generation.PositionInCanvas | game.js:52-53 | a candidate drawn from values in [0, 1) lies at least one point radius inside each edge of the canvas |
| Generation.AcceptKeepsSeparated | game.js:57-61 | accepting a candidate that is not too close keeps every pair of targets at least `2 * POINT_RADIUS` apart |
| Generation.PlacedAccept | game.js:54-61 | accepting the next candidate with id `points.length` keeps the loop's description: ordered ids, candidates in drawing order, rejected candidates too close to an earlier target |
| Generation.PlacedReject | game.js:57-61 | rejecting a candidate that is too close keeps the loop's description |
| Generation.ReferenceScore | game.js:64-66 | `calculateCentroid` then `calculateInitialScore` over the accepted targets; with no targets the reduce gives 0 whatever the centroid |
| Generation.GeneratedInCanvas | game.js:51-61 | every target the acceptance loop places, from draws in [0, 1), lies at least one point radius inside each edge of the canvas |
| Generation.PlaceTargets | game.js:51-62 | the loop stops with exactly N targets, numbered 0..N-1 in order, none intermediate, pairwise at least `2 * POINT_RADIUS` apart; each came from a candidate in drawing order, and every other candidate drawn was too close to a target accepted before it; when the candidates run out first it reports failure |
| Snap.FindClosestPoint | game.js:110-123 | the result is None exactly when no point is within `SNAP_DISTANCE`; otherwise it is a point within `SNAP_DISTANCE` that no point is closer than, and every earlier point within range is strictly farther (the first one wins a tie) |
| Snap.SnapTargetUnique | game.js:114-120 | at most one index satisfies that description, so the result is determined |
| Snap.DragStartTest | game.js:200-201 | the closest point is within `POINT_RADIUS` of the click exactly when some point is |
| Snap.NoSnapNoDrag | game.js:200-201 | when nothing is within `SNAP_DISTANCE`, nothing is within `POINT_RADIUS` either |
| Snap.SnapExample | game.js:110-123 | with targets at (0,0) and (100,100), a stroke ending at (5,5) snaps to the first and one ending at (50,50) snaps to nothing |
| Ledger.ConnectionLength | game.js:139 | the scaled length `distanceBetweenPoints(start, endPoint) / 10`, the summand of `totalLength` |
| Ledger.ConnectionLengthReversed | game.js:139 | under the Euclidean distance a stroke costs the same in either drag direction |
| Ledger.SumLengthsAppend | game.js:138-139 | appending a connection adds exactly its length divided by 10 to the total |
| Ledger.SumLengthsNonNegative | game.js:139 | with a non-negative distance the accumulated length is never negative |
| Ledger.ScoreExample | game.js:155-159 | a stroke of length 30 against a reference score of 10 leaves a score of 7 |
| Reachability.SeedReachable | game.js:143-149 | every vertex already in the graph is reachable from it |
| Reachability.ReachableStep | game.js:167-172 | a connection with one reachable endpoint makes the other endpoint reachable, in either direction |
| Reachability.WalkStaysInside | game.js:162-176 | a walk that starts inside a graph no connection leaves stays inside it |
| Reachability.ClosedContainsReachable | game.js:162-176 | a graph that no connection leaves and that holds the seeds holds everything they reach |
| Reachability.ReachableTransitive | game.js:143-151 | what is reachable from reachable vertices is reachable from the seeds |
| Reachability.ReachableMoreConnections | game.js:138 | adding a connection never makes a vertex unreachable |
| Reachability.LooseGrow | game.js:164-175 | adding a vertex to the graph never increases the number of connections with an endpoint outside it |
| Reachability.LooseShrink | game.js:167-172 | adding the missing endpoint of a connection strictly decreases that number, so the do-while loop terminates |
| Reachability.GrownFromStart | game.js:162-165 | a graph without duplicates has grown from itself |
| Reachability.GrownFromPush | game.js:167-172 | pushing the missing endpoint keeps the graph duplicate-free, the old graph a prefix, and every vertex reachable |
| Reachability.GrownThenClosed | game.js:143-151 | after the pre-step and the fixed-point loop, the graph holds exactly what its earlier contents reach |
| Reachability.PassPush | game.js:166-173 | a push inside a pass keeps the pass invariant and records a change |
| Reachability.AllTargetsConnected | game.js:180 | the win condition: every non-intermediate point is in the connected graph |
| Reachability.WinIgnoresIntermediate | game.js:180 | appending an intermediate point does not change whether every target is connected |
| Reachability.ThreeTargetsExample | game.js:143-189 | seeded with A, strokes A-B and B-C reach exactly A, B, C, and such a graph wins |
| Session.Game.constructor | game.js:11-19 | the module variables start empty, zero, not dragging, level 1, not won |
| Session.Game.CurrentScore | game.js:155-159 | the score is the reference score minus the scaled length of every connection |
| Session.Game.GenerateRandomPoints | game.js:45-69 | the board gets the level's number of targets placed by the acceptance loop from the samples (`Generated`: numbered, not intermediate, separated, in drawing order), no connections, length 0, and the reference score of those targets; `ok` is false only when the loop, having drawn every sample, holds fewer targets than the level needs (`Exhausted`), and then nothing changes |
| Session.Game.AddConnection | game.js:126-153 | `ConnectionAdded`: the end snaps to the closest point or becomes a new intermediate point with id `points.length`; exactly one connection is appended and earlier ones are untouched; the length grows by the connection's length / 10; the old graph is a prefix of the new graph, which holds exactly what the old graph reaches; the win is recorded; the invariant is kept |
| Session.Game.SnapEnd | game.js:127-136 | with nothing within `SNAP_DISTANCE`, exactly one intermediate point is appended at the raw end; otherwise `points` is unchanged and the end is the snap target |
| Session.Game.RecordConnection | game.js:138-139 | the connection is appended, and `totalLength` grows by its length and stays the sum over all connections |
| Session.Game.GrowGraph | game.js:142-151 | the graph only grows, has no duplicates, and holds exactly what its previous contents reach |
| Session.Game.UpdateConnectedGraph | game.js:162-176 | the graph only grows and has no duplicates; on exit every connection has both or neither endpoint in it; it holds exactly what its previous contents reach; on a graph already closed it changes nothing, so a second call changes nothing |
| Session.Game.PropagatePass | game.js:165-174 | one pass keeps the graph grown from the seeds; a pass that reports a change shrinks the loose-connection count; one that reports none leaves a closed, unchanged graph |
| Session.Game.CheckGameEnd | game.js:179-189 | the game is won exactly when it was already won or every non-intermediate point is in the graph |
| Session.Game.HandleMouseDown | game.js:192-208 | a drag starts only when a point is within `POINT_RADIUS` of the click, from the click's snap target; the graph is seeded with that point only when it is empty; otherwise, and after a win, nothing changes |
| Session.Game.HandleMouseMove | game.js:211-220 | while dragging (and not won) the stroke end follows the mouse; nothing else changes |
| Session.Game.HandleMouseUp | game.js:223-233 | when dragging, the drag state is cleared, and a connection is added exactly when the stroke has an end; when not dragging, or after a win, nothing changes |
| Session.Game.ResetGame | game.js:236-244 | the targets, reference score, connections and length of `GenerateRandomPoints` for the current level, an empty graph, listeners back (`won` false); the drag flags and the level are left as they were; when the samples run out (`Exhausted`) nothing changes |
| Session.Game.ChangeLevel | game.js:247-250 | the level is set, then the board is what `ResetGame` gives for that level (targets, reference score, no connections, empty graph, not won); the drag flags are kept; when the samples run out for that level (`Exhausted`) everything but the level is unchanged |

## Left out

- Rendering (`draw`), DOM lookups, the level buttons and `init`: these are presentation and browser wiring. Listener removal after a win is the `won` flag.
- `updateScore` writes text with `toFixed`, and `checkGameEnd` shows an `alert` after a `setTimeout`. These are output only. `CurrentScore` is the value shown.
- The click position is given in canvas coordinates. The `getBoundingClientRect` offset is left out.
- `Math.sqrt`: the distance is a host-supplied function. Floating-point rounding is not modelled either: coordinates, lengths and scores are exact reals.
- `Math.random`: the draws arrive as a finite sequence of samples.
- Session.Game.GenerateRandomPoints: when the samples run out before the level is full, it reports failure and leaves the game unchanged. The source would draw forever.
- Identity: the source compares point objects by identity, the model compares vertices by value. They differ only when two distinct objects have the same position, id and kind.
- Constants: the point radius, snap multiplier and score divisor are fixed, as in the source. The canvas size is a parameter.
