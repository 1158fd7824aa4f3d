/**
 * What the reachability tracker computes: the vertices joined to the seed
 * vertices by a walk along connections, each connection usable in either
 * direction, and the win condition over the target points.
 */
module Reachability {
  import opened Board

  /** Both or neither endpoint of `c` are in `g`. */
  predicate Balanced(g: seq<Vertex>, c: Connection) {
    (c.start in g) == (c.end in g)
  }

  /** `g` is closed under the connections: no connection leaves it. */
  predicate Closed(g: seq<Vertex>, conns: seq<Connection>) {
    forall c :: c in conns ==> Balanced(g, c)
  }

  /** No vertex occurs twice. */
  predicate NoDuplicates(g: seq<Vertex>) {
    forall i, j :: 0 <= i < j < |g| ==> g[i] != g[j]
  }

  /** How many connections still have an endpoint outside `g`. */
  function Loose(conns: seq<Connection>, g: seq<Vertex>): nat {
    if conns == [] then 0
    else (if conns[0].start in g && conns[0].end in g then 0 else 1) + Loose(conns[1..], g)
  }

  /** Adding a vertex never loosens a connection. */
  lemma {:induction false} LooseGrow(conns: seq<Connection>, g: seq<Vertex>, v: Vertex)
    ensures Loose(conns, g + [v]) <= Loose(conns, g)
  {
    if conns != [] {
      LooseGrow(conns[1..], g, v);
    }
  }

  /** Adding the missing endpoint of a connection tightens it, so fewer connections stay loose. */
  lemma {:induction false} LooseShrink(conns: seq<Connection>, g: seq<Vertex>, i: nat, u: Vertex, v: Vertex)
    requires i < |conns| && Joins(conns[i], u, v) && u in g && v !in g
    ensures Loose(conns, g + [v]) < Loose(conns, g)
  {
    if i == 0 {
      LooseGrow(conns[1..], g, v);
    } else {
      LooseShrink(conns[1..], g, i - 1, u, v);
    }
  }

  /** `c` joins `u` and `v`, in either orientation. */
  predicate Joins(c: Connection, u: Vertex, v: Vertex) {
    (c.start == u && c.end == v) || (c.start == v && c.end == u)
  }

  /** Some connection joins `u` and `v`. */
  ghost predicate Linked(conns: seq<Connection>, u: Vertex, v: Vertex) {
    exists k :: 0 <= k < |conns| && Joins(conns[k], u, v)
  }

  /** `w` is a non-empty walk along the connections. */
  ghost predicate IsWalk(conns: seq<Connection>, w: seq<Vertex>) {
    |w| > 0 && forall i :: 0 <= i < |w| - 1 ==> Linked(conns, w[i], w[i + 1])
  }

  /** `v` is at the end of a walk that starts at one of the seeds. */
  ghost predicate Reachable(seeds: seq<Vertex>, conns: seq<Connection>, v: Vertex) {
    exists w, i :: IsWalk(conns, w) && 0 <= i < |seeds| && w[0] == seeds[i] && w[|w| - 1] == v
  }

  /** Every seed reaches itself by the one-vertex walk. */
  lemma SeedReachable(seeds: seq<Vertex>, conns: seq<Connection>, v: Vertex)
    requires v in seeds
    ensures Reachable(seeds, conns, v)
  {
    var i :| 0 <= i < |seeds| && seeds[i] == v;
    assert IsWalk(conns, [v]) && [v][0] == seeds[i];
  }

  /** A connection extends reachability to its other endpoint. */
  lemma ReachableStep(seeds: seq<Vertex>, conns: seq<Connection>, c: Connection, u: Vertex, v: Vertex)
    requires c in conns && Joins(c, u, v)
    requires Reachable(seeds, conns, u)
    ensures Reachable(seeds, conns, v)
  {
    var w, j :| IsWalk(conns, w) && 0 <= j < |seeds| && w[0] == seeds[j] && w[|w| - 1] == u;
    var k :| 0 <= k < |conns| && conns[k] == c;
    var w' := w + [v];
    assert Linked(conns, u, v);
    assert forall i :: 0 <= i < |w'| - 1 ==> Linked(conns, w'[i], w'[i + 1]) by {
      forall i | 0 <= i < |w'| - 1
        ensures Linked(conns, w'[i], w'[i + 1])
      {
        if i < |w| - 1 {
          assert w'[i] == w[i] && w'[i + 1] == w[i + 1];
        }
      }
    }
    assert IsWalk(conns, w') && w'[0] == seeds[j] && w'[|w'| - 1] == v;
  }

  /** A walk that starts inside a closed set stays inside it. */
  lemma {:induction false} WalkStaysInside(g: seq<Vertex>, conns: seq<Connection>, w: seq<Vertex>)
    requires Closed(g, conns) && IsWalk(conns, w) && w[0] in g
    ensures w[|w| - 1] in g
  {
    if |w| > 1 {
      assert Linked(conns, w[0], w[1]);
      var k :| 0 <= k < |conns| && Joins(conns[k], w[0], w[1]);
      assert Balanced(g, conns[k]);
      assert IsWalk(conns, w[1..]) by {
        forall i | 0 <= i < |w[1..]| - 1
          ensures Linked(conns, w[1..][i], w[1..][i + 1])
        {
          assert w[1..][i] == w[i + 1] && w[1..][i + 1] == w[i + 2];
        }
      }
      WalkStaysInside(g, conns, w[1..]);
    }
  }

  /** A closed set holding the seeds holds everything they reach. */
  lemma ClosedContainsReachable(seeds: seq<Vertex>, g: seq<Vertex>, conns: seq<Connection>, v: Vertex)
    requires Closed(g, conns) && forall s :: s in seeds ==> s in g
    requires Reachable(seeds, conns, v)
    ensures v in g
  {
    var w, j :| IsWalk(conns, w) && 0 <= j < |seeds| && w[0] == seeds[j] && w[|w| - 1] == v;
    assert seeds[j] in seeds;
    WalkStaysInside(g, conns, w);
  }

  /** Reaching from vertices that are themselves reachable reaches nothing new. */
  lemma ReachableTransitive(seeds: seq<Vertex>, mid: seq<Vertex>, conns: seq<Connection>, v: Vertex)
    requires forall m :: m in mid ==> Reachable(seeds, conns, m)
    requires Reachable(mid, conns, v)
    ensures Reachable(seeds, conns, v)
  {
    var w, j :| IsWalk(conns, w) && 0 <= j < |mid| && w[0] == mid[j] && w[|w| - 1] == v;
    assert mid[j] in mid;
    var w0, j0 :| IsWalk(conns, w0) && 0 <= j0 < |seeds| && w0[0] == seeds[j0] && w0[|w0| - 1] == w[0];
    var w' := w0 + w[1..];
    assert forall i :: 0 <= i < |w'| - 1 ==> Linked(conns, w'[i], w'[i + 1]) by {
      forall i | 0 <= i < |w'| - 1
        ensures Linked(conns, w'[i], w'[i + 1])
      {
        if i < |w0| - 1 {
          assert w'[i] == w0[i] && w'[i + 1] == w0[i + 1];
        } else {
          var k := i - (|w0| - 1);
          assert w'[i] == w[k] && w'[i + 1] == w[k + 1];
        }
      }
    }
    assert IsWalk(conns, w') && w'[0] == seeds[j0] && w'[|w'| - 1] == v;
  }

  /**
   * Adding a connection never makes a vertex unreachable: the connected
   * graph is monotone in the strokes drawn, as its push-only updates promise.
   */
  lemma ReachableMoreConnections(seeds: seq<Vertex>, conns: seq<Connection>, c: Connection, v: Vertex)
    requires Reachable(seeds, conns, v)
    ensures Reachable(seeds, conns + [c], v)
  {
    var w, j :| IsWalk(conns, w) && 0 <= j < |seeds| && w[0] == seeds[j] && w[|w| - 1] == v;
    assert forall i :: 0 <= i < |w| - 1 ==> Linked(conns + [c], w[i], w[i + 1]) by {
      forall i | 0 <= i < |w| - 1
        ensures Linked(conns + [c], w[i], w[i + 1])
      {
        assert Linked(conns, w[i], w[i + 1]);
        var k :| 0 <= k < |conns| && Joins(conns[k], w[i], w[i + 1]);
        assert (conns + [c])[k] == conns[k];
      }
    }
    assert IsWalk(conns + [c], w);
  }

  /**
   * What updateConnectedGraph keeps while it grows `g` from `g0`: no
   * duplicates, `g0` still a prefix, and everything in `g` reachable from
   * `g0`.
   */
  ghost predicate GrownFrom(g0: seq<Vertex>, conns: seq<Connection>, g: seq<Vertex>) {
    && NoDuplicates(g)
    && g0 <= g
    && forall v :: v in g ==> Reachable(g0, conns, v)
  }

  /** A graph without duplicates has grown from itself. */
  lemma GrownFromStart(g0: seq<Vertex>, conns: seq<Connection>)
    requires NoDuplicates(g0)
    ensures GrownFrom(g0, conns, g0)
  {
    forall v | v in g0
      ensures Reachable(g0, conns, v)
    {
      SeedReachable(g0, conns, v);
    }
  }

  /** Pushing the far endpoint of a connection that leaves the graph keeps GrownFrom and adds a vertex. */
  lemma GrownFromPush(g0: seq<Vertex>, conns: seq<Connection>, g: seq<Vertex>, c: Connection, u: Vertex, v: Vertex)
    requires GrownFrom(g0, conns, g)
    requires c in conns && Joins(c, u, v)
    requires u in g && v !in g
    ensures GrownFrom(g0, conns, g + [v])
  {
    ReachableStep(g0, conns, c, u, v);
    forall w | w in g + [v]
      ensures Reachable(g0, conns, w)
    {
      if w != v {
        assert w in g;
      }
    }
    forall i, j | 0 <= i < j < |g + [v]|
      ensures (g + [v])[i] != (g + [v])[j]
    {
      if j == |g| {
        assert (g + [v])[i] == g[i];
      }
    }
  }

  /**
   * A closed graph grown from `g1`, itself grown from `g0`, holds exactly
   * what `g0` reaches.
   */
  lemma GrownThenClosed(g0: seq<Vertex>, conns: seq<Connection>, g1: seq<Vertex>, g: seq<Vertex>)
    requires GrownFrom(g0, conns, g1)
    requires Closed(g, conns) && g1 <= g
    requires forall v :: v in g ==> Reachable(g1, conns, v)
    ensures forall v :: v in g <==> Reachable(g0, conns, v)
  {
    forall v
      ensures v in g <==> Reachable(g0, conns, v)
    {
      if v in g {
        ReachableTransitive(g0, g1, conns, v);
      }
      if Reachable(g0, conns, v) {
        ClosedContainsReachable(g0, g, conns, v);
      }
    }
  }

  /**
   * What one pass of updateConnectedGraph keeps after visiting the first `i`
   * connections, starting from `gStart`: the graph has grown from `g0`
   * through `gStart`; `changed` means it gained a vertex in this pass, and
   * otherwise it is still `gStart` and the connections visited are balanced
   * in it; a pass over a closed graph never sets `changed`.
   */
  ghost predicate PassInvariant(g0: seq<Vertex>, conns: seq<Connection>, gStart: seq<Vertex>,
                                g: seq<Vertex>, changed: bool, i: nat)
    requires i <= |conns|
  {
    && GrownFrom(g0, conns, g)
    && gStart <= g
    && (changed ==> Loose(conns, g) < Loose(conns, gStart))
    && (!changed ==> g == gStart && forall j :: 0 <= j < i ==> Balanced(gStart, conns[j]))
    && (Closed(gStart, conns) ==> !changed)
  }

  /** A pass begins with nothing changed. */
  lemma PassStart(g0: seq<Vertex>, conns: seq<Connection>, g: seq<Vertex>)
    requires GrownFrom(g0, conns, g)
    ensures PassInvariant(g0, conns, g, g, false, 0)
  {
  }

  /** Pushing the missing endpoint of connection `i` keeps the pass invariant, now changed. */
  lemma PassPush(g0: seq<Vertex>, conns: seq<Connection>, gStart: seq<Vertex>, g: seq<Vertex>,
                 changed: bool, i: nat, u: Vertex, v: Vertex)
    requires i < |conns| && PassInvariant(g0, conns, gStart, g, changed, i)
    requires Joins(conns[i], u, v)
    requires u in g && v !in g
    ensures PassInvariant(g0, conns, gStart, g + [v], true, i + 1)
  {
    GrownFromPush(g0, conns, g, conns[i], u, v);
    LooseShrink(conns, g, i, u, v);
    assert gStart <= g + [v];
  }

  /** Passing over a balanced connection keeps the pass invariant. */
  lemma PassSkip(g0: seq<Vertex>, conns: seq<Connection>, gStart: seq<Vertex>, g: seq<Vertex>,
                 changed: bool, i: nat)
    requires i < |conns| && PassInvariant(g0, conns, gStart, g, changed, i)
    requires Balanced(g, conns[i])
    ensures PassInvariant(g0, conns, gStart, g, changed, i + 1)
  {
  }

  /** checkGameEnd: every target (non-intermediate point) is in the graph. */
  predicate AllTargetsConnected(points: seq<Vertex>, g: seq<Vertex>) {
    forall i :: 0 <= i < |points| && !points[i].isIntermediate ==> points[i] in g
  }

  /** A won board stays won while the graph only grows. */
  lemma TargetsConnectedGrow(points: seq<Vertex>, g: seq<Vertex>, g': seq<Vertex>)
    requires forall v :: v in g ==> v in g'
    ensures AllTargetsConnected(points, g) ==> AllTargetsConnected(points, g')
  {
  }

  /** Intermediate points play no part in the win check. */
  lemma WinIgnoresIntermediate(points: seq<Vertex>, g: seq<Vertex>, v: Vertex)
    requires v.isIntermediate
    ensures AllTargetsConnected(points + [v], g) == AllTargetsConnected(points, g)
  {
    if AllTargetsConnected(points, g) {
      forall i | 0 <= i < |points + [v]| && !(points + [v])[i].isIntermediate
        ensures (points + [v])[i] in g
      {
        assert (points + [v])[i] == points[i];
      }
    }
    if AllTargetsConnected(points + [v], g) {
      forall i | 0 <= i < |points| && !points[i].isIntermediate
        ensures points[i] in g
      {
        assert (points + [v])[i] == points[i];
      }
    }
  }

  /** Three targets A, B, C, the graph seeded with A, strokes A-B and B-C: exactly A, B, C
      are reachable, and a graph holding exactly them wins. */
  lemma ThreeTargetsExample(a: Vertex, b: Vertex, c: Vertex, g: seq<Vertex>)
    requires !a.isIntermediate && !b.isIntermediate && !c.isIntermediate
    requires forall v :: v in g <==> Reachable([a], [Connection(a, b), Connection(b, c)], v)
    ensures forall v :: v in g <==> v == a || v == b || v == c
    ensures AllTargetsConnected([a, b, c], g)
  {
    var conns := [Connection(a, b), Connection(b, c)];
    SeedReachable([a], conns, a);
    ReachableStep([a], conns, conns[0], a, b);
    ReachableStep([a], conns, conns[1], b, c);
    forall v | Reachable([a], conns, v)
      ensures v == a || v == b || v == c
    {
      ClosedContainsReachable([a], [a, b, c], conns, v);
    }
  }
}
