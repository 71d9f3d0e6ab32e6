// Walks and hop-distance balls in a directed multigraph of provenance edges. A search direction
// says from which end an edge may be crossed; `Both` treats the graph as undirected.
module Graph {

  datatype NodeRef = NodeRef(kind: string, id: string)

  datatype Edge = Edge(
    id: nat, ts: int, source: NodeRef, target: NodeRef, edgeType: string, confidence: real, origin: string)

  datatype Direction = Out | In | Both

  predicate Adjacent(dir: Direction, e: Edge, n: NodeRef) {
    (dir != In && e.source == n) || (dir != Out && e.target == n)
  }

  // The end of e that is not n (n itself for a loop).
  function Other(e: Edge, n: NodeRef): NodeRef {
    if e.source == n then e.target else e.source
  }

  // `w` leads from `s` to `t` along edges of `es`.
  predicate Walk(es: set<Edge>, dir: Direction, s: NodeRef, w: seq<Edge>, t: NodeRef)
    decreases |w|
  {
    if w == [] then s == t
    else w[0] in es && Adjacent(dir, w[0], s) && Walk(es, dir, Other(w[0], s), w[1..], t)
  }

  function Neighbours(es: set<Edge>, dir: Direction, ns: set<NodeRef>): set<NodeRef> {
    set n, e | n in ns && e in es && Adjacent(dir, e, n) :: Other(e, n)
  }

  // The nodes at most d hops from s.
  function Ball(es: set<Edge>, dir: Direction, s: NodeRef, d: nat): (b: set<NodeRef>) {
    if d == 0 then {s}
    else Ball(es, dir, s, d - 1) + Neighbours(es, dir, Ball(es, dir, s, d - 1))
  }

  // The nodes strictly closer than d hops.
  function Closer(es: set<Edge>, dir: Direction, s: NodeRef, d: nat): set<NodeRef> {
    if d == 0 then {} else Ball(es, dir, s, d - 1)
  }

  lemma {:induction false} WalkSnoc(es: set<Edge>, dir: Direction, s: NodeRef, w: seq<Edge>, m: NodeRef, e: Edge)
    requires Walk(es, dir, s, w, m) && e in es && Adjacent(dir, e, m)
    ensures Walk(es, dir, s, w + [e], Other(e, m))
    decreases |w|
  {
    if w == [] {
      assert w + [e] == [e];
      assert Walk(es, dir, Other(e, s), [e][1..], Other(e, m));
    } else {
      WalkSnoc(es, dir, Other(w[0], s), w[1..], m, e);
      assert (w + [e])[1..] == w[1..] + [e];
    }
  }

  lemma {:induction false} WalkUnsnoc(es: set<Edge>, dir: Direction, s: NodeRef, w: seq<Edge>, t: NodeRef)
    returns (m: NodeRef)
    requires w != [] && Walk(es, dir, s, w, t)
    ensures Walk(es, dir, s, w[..|w| - 1], m)
    ensures w[|w| - 1] in es && Adjacent(dir, w[|w| - 1], m) && Other(w[|w| - 1], m) == t
    decreases |w|
  {
    if |w| == 1 {
      m := s;
    } else {
      m := WalkUnsnoc(es, dir, Other(w[0], s), w[1..], t);
      assert w[..|w| - 1][1..] == w[1..][..|w| - 2];
    }
  }

  // Balls are exactly what short walks reach: every walk stays inside the ball of its length...
  lemma {:induction false} WalkStaysInBall(es: set<Edge>, dir: Direction, s: NodeRef, w: seq<Edge>, t: NodeRef)
    requires Walk(es, dir, s, w, t)
    ensures t in Ball(es, dir, s, |w|)
    decreases |w|
  {
    if w != [] {
      var m := WalkUnsnoc(es, dir, s, w, t);
      WalkStaysInBall(es, dir, s, w[..|w| - 1], m);
    }
  }

  lemma LastHop(es: set<Edge>, dir: Direction, s: NodeRef, d: nat, t: NodeRef) returns (n: NodeRef, e: Edge)
    requires d > 0 && t in Ball(es, dir, s, d) && t !in Ball(es, dir, s, d - 1)
    ensures n in Ball(es, dir, s, d - 1) && e in es && Adjacent(dir, e, n) && Other(e, n) == t
  {
    n, e :| n in Ball(es, dir, s, d - 1) && e in es && Adjacent(dir, e, n) && Other(e, n) == t;
  }

  // ...and every node of a ball is reached by a walk no longer than its radius.
  lemma {:induction false} BallHasWalk(es: set<Edge>, dir: Direction, s: NodeRef, d: nat, t: NodeRef) returns (w: seq<Edge>)
    requires t in Ball(es, dir, s, d)
    ensures |w| <= d && Walk(es, dir, s, w, t)
  {
    hide Ball, Walk, Adjacent, Other;
    if d == 0 {
      AtSeed(es, dir, s, t);
      w := [];
    } else if t in Ball(es, dir, s, d - 1) {
      w := BallHasWalk(es, dir, s, d - 1, t);
    } else {
      var n, e := LastHop(es, dir, s, d, t);
      w := BallHasWalk(es, dir, s, d - 1, n);
      WalkSnoc(es, dir, s, w, n, e);
      w := w + [e];
    }
  }

  lemma AtSeed(es: set<Edge>, dir: Direction, s: NodeRef, t: NodeRef)
    requires t in Ball(es, dir, s, 0)
    ensures Walk(es, dir, s, [], t)
  {
  }

  lemma {:induction false} BallMonotone(es: set<Edge>, dir: Direction, s: NodeRef, c: nat, d: nat)
    requires c <= d
    ensures Ball(es, dir, s, c) <= Ball(es, dir, s, d)
  {
    hide Neighbours;
    if c < d {
      BallMonotone(es, dir, s, c, d - 1);
    }
  }

  // Once a layer adds nothing the ball stops growing for good.
  lemma {:induction false} BallClosed(es: set<Edge>, dir: Direction, s: NodeRef, c: nat, d: nat)
    requires c <= d
    requires Neighbours(es, dir, Ball(es, dir, s, c)) <= Ball(es, dir, s, c)
    ensures Ball(es, dir, s, d) == Ball(es, dir, s, c)
  {
    hide Neighbours;
    if c < d {
      BallClosed(es, dir, s, c, d - 1);
    }
  }

  lemma {:induction false} BallInLarger(es: set<Edge>, fs: set<Edge>, dir: Direction, s: NodeRef, d: nat)
    requires es <= fs
    ensures Ball(es, dir, s, d) <= Ball(fs, dir, s, d)
  {
    if d > 0 {
      BallInLarger(es, fs, dir, s, d - 1);
    }
  }
}
