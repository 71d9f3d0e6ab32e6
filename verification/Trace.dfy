// The forward trace over outgoing edges.
module ProvenanceTrace {
  import opened Sequences
  import opened Graph
  import opened Exploration
  import opened EdgeQueries

  // The edges leaving each node of a list, node by node.
  function LayerEdges(rows: seq<Edge>, frontier: seq<NodeRef>): seq<Edge> {
    if frontier == [] then []
    else LayerEdges(rows, frontier[..|frontier| - 1]) + Outgoing(rows, frontier[|frontier| - 1], None)
  }

  lemma {:induction false} LayerEdgesRows(rows: seq<Edge>, frontier: seq<NodeRef>)
    requires Valid(rows) && NoDup(frontier)
    ensures NoDup(LayerEdges(rows, frontier))
    ensures forall e :: e in LayerEdges(rows, frontier) <==> e in Matching(rows, None) && e.source in frontier
  {
    if frontier != [] {
      var k := |frontier| - 1;
      LayerEdgesRows(rows, frontier[..k]);
      OutgoingRows(rows, frontier[k], None);
      assert frontier == frontier[..k] + [frontier[k]];
    }
  }

  // Sources appear in order of hop distance.
  ghost predicate Nearest(es: set<Edge>, s: NodeRef, out: seq<Edge>) {
    forall i, j, d: nat :: 0 <= i < j < |out| && out[j].source in Ball(es, Out, s, d)
      ==> out[i].source in Ball(es, Out, s, d)
  }

  // A complete trace of depth d: every edge whose source is closer than d, once, nearest first.
  ghost predicate Traced(es: set<Edge>, s: NodeRef, d: nat, out: seq<Edge>) {
    && NoDup(out)
    && Nearest(es, s, out)
    && forall e :: e in out <==> e in es && e.source in Closer(es, Out, s, d)
  }

  lemma TraceGrows(rows: seq<Edge>, s: NodeRef, d: nat, frontier: seq<NodeRef>, out: seq<Edge>)
    requires Valid(rows)
    requires Traced(Matching(rows, None), s, d, out) && Frontier(Matching(rows, None), Out, s, d, frontier)
    ensures Traced(Matching(rows, None), s, d + 1, out + LayerEdges(rows, frontier))
  {
    var es, layer := Matching(rows, None), LayerEdges(rows, frontier);
    var out' := out + layer;
    LayerEdgesRows(rows, frontier);
    FrontierSplit(es, Out, s, d, frontier);
    forall i, j, c: nat | 0 <= i < j < |out'| && out'[j].source in Ball(es, Out, s, c)
      ensures out'[i].source in Ball(es, Out, s, c)
    {
      if j >= |out| {
        assert out'[j] in layer;
        FrontierLevel(es, Out, s, d, frontier, out'[j].source, c);
        BallMonotone(es, Out, s, d, c);
        assert out'[i] in out || out'[i] in layer;
      }
    }
  }

  lemma TraceStart(es: set<Edge>, s: NodeRef)
    ensures Traced(es, s, 0, [])
  {
  }

  lemma TraceDone(es: set<Edge>, s: NodeRef, d: nat, m: nat, out: seq<Edge>)
    requires Traced(es, s, d, out) && Frontier(es, Out, s, d, []) && d < m
    ensures Traced(es, s, m, out)
  {
    FrontierEmpty(es, Out, s, d, m);
  }

  // Breadth-first forward trace: every edge leaving a node fewer than maxDepth hops away, once each,
  // nearer sources first.
  method Trace(rows: seq<Edge>, node: NodeRef, maxDepth: int) returns (out: seq<Edge>)
    requires Valid(rows) && KeysDistinct(NodesOf(Matching(rows, None)) + {node})
    ensures Traced(Matching(rows, None), node, if maxDepth > 0 then maxDepth else 0, out)
    ensures forall e :: e in out <==> e in rows && exists w :: |w| < maxDepth && Walk(Matching(rows, None), Out, node, w, e.source)
  {
    hide Walk, Matching, Adjacent;
    hide Frontier, Layered, Stands, Traced, Explored, Neighbours, SetOf, Targets, Outgoing, NodesOf, Key;
    ghost var es := Matching(rows, None);
    ghost var all, ball := NodesOf(es) + {node}, {node};
    var seen := {Key(node)};
    out := [];
    var frontier := [node];
    var depth := 0;
    LayeredStart(es, Out, node, all);
    TraceStart(es, node);
    while depth < maxDepth && |frontier| > 0
      invariant 0 <= depth && (depth <= maxDepth || depth == 0)
      invariant Layered(es, Out, node, depth, frontier, seen, ball, all)
      invariant Traced(es, node, depth, out)
    {
      var next: seq<NodeRef> := [];
      ghost var out0, seen0, reached := out, seen, ball;
      LayeredFacts(es, Out, node, depth, frontier, seen, ball, all);
      ExploreStart(es, Out, all, ball, frontier, seen);
      var i := 0;
      while i < |frontier|
        invariant 0 <= i <= |frontier|
        invariant out == out0 + LayerEdges(rows, frontier[..i])
        invariant Explored(es, Out, all, ball, SetOf(frontier[..i]), {}, seen, reached, next)
      {
        var n := frontier[i];
        var adj := Outgoing(rows, n, None);
        OutgoingAdjacent(rows, n, None);
        CrossStart(es, Out, all, ball, SetOf(frontier[..i]), adj, n, seen, reached, next);
        ghost var out1 := out;
        var j := 0;
        while j < |adj|
          invariant 0 <= j <= |adj|
          invariant out == out1 + adj[..j]
          invariant Explored(es, Out, all, ball, SetOf(frontier[..i]), Targets(adj[..j], n), seen, reached, next)
        {
          var e := adj[j];
          assert e in adj;
          CrossEdge(es, Out, all, ball, SetOf(frontier[..i]), adj, j, n, seen, reached, next);
          out := out + [e];
          var key := Key(e.target);
          if key !in seen {
            seen := seen + {key};
            reached := reached + {e.target};
            next := next + [e.target];
          }
          j := j + 1;
        }
        assert adj[..|adj|] == adj;
        LayerEdgesSnoc(rows, frontier, i);
        ExpandNode(es, Out, all, ball, frontier, i, adj, seen, reached, next);
        i := i + 1;
      }
      assert frontier[..|frontier|] == frontier;
      TraceGrows(rows, node, depth, frontier, out0);
      LayeredNext(es, Out, node, depth, frontier, seen0, ball, all, next, seen, reached);
      ball := reached;
      frontier := next;
      depth := depth + 1;
    }
    if depth < maxDepth {
      assert frontier == [];
      LayeredFacts(es, Out, node, depth, frontier, seen, ball, all);
      TraceDone(es, node, depth, maxDepth, out);
    }
    InWalks(rows, node, maxDepth, out);
  }

  // Closer in terms of walks.
  lemma InWalks(rows: seq<Edge>, s: NodeRef, m: int, out: seq<Edge>)
    requires Traced(Matching(rows, None), s, if m > 0 then m else 0, out)
    ensures forall e :: e in out <==> e in rows && exists w :: |w| < m && Walk(Matching(rows, None), Out, s, w, e.source)
  {
    hide Walk, Ball;
    var es := Matching(rows, None);
    forall e: Edge ensures e in out <==> e in rows && exists w :: |w| < m && Walk(es, Out, s, w, e.source) {
      if e in out {
        var w := BallHasWalk(es, Out, s, m - 1, e.source);
      }
      if w :| e in rows && |w| < m && Walk(es, Out, s, w, e.source) {
        WalkStaysInBall(es, Out, s, w, e.source);
        BallMonotone(es, Out, s, |w|, m - 1);
      }
    }
  }

  lemma LayerEdgesSnoc(rows: seq<Edge>, frontier: seq<NodeRef>, i: nat)
    requires i < |frontier|
    ensures LayerEdges(rows, frontier[..i + 1]) == LayerEdges(rows, frontier[..i]) + Outgoing(rows, frontier[i], None)
  {
    assert frontier[..i + 1][..i] == frontier[..i];
  }
}
