// The capped subgraph search around a seed node.
module ProvenanceSubgraph {
  import opened Sequences
  import opened Graph
  import opened Exploration
  import opened EdgeQueries

  // The edges of `es` that touch one of `ns` from the side the search may cross.
  ghost function Touching(es: set<Edge>, dir: Direction, ns: set<NodeRef>): set<Edge> {
    set n, e | n in ns && e in es && Adjacent(dir, e, n) :: e
  }

  function IdsOf(edges: seq<Edge>): set<nat> {
    set e | e in edges :: e.id
  }

  // The result is a connected piece of the graph: every returned node is within d hops of the seed
  // along returned edges, and both ends of every returned edge are returned.
  ghost predicate Connected(es: set<Edge>, dir: Direction, s: NodeRef, d: nat, nodes: seq<NodeRef>, edges: seq<Edge>) {
    && NoDup(nodes) && NoDup(edges)
    && s in nodes
    && SetOf(edges) <= es
    && SetOf(nodes) <= Ball(SetOf(edges), dir, s, d)
    && forall e :: e in edges ==> e.source in nodes && e.target in nodes
  }

  // The complete neighbourhood of radius d.
  ghost predicate Complete(es: set<Edge>, dir: Direction, s: NodeRef, d: nat, nodes: seq<NodeRef>, edges: seq<Edge>) {
    && SetOf(nodes) == Ball(es, dir, s, d)
    && SetOf(edges) == Touching(es, dir, Closer(es, dir, s, d))
  }

  // Crossing an edge from a node d hops out keeps the piece connected.
  lemma ConnectedCross(es: set<Edge>, dir: Direction, s: NodeRef, d: nat, nodes: seq<NodeRef>, edges: seq<Edge>,
                       n: NodeRef, e: Edge)
    requires Connected(es, dir, s, d + 1, nodes, edges)
    requires e in es && e !in edges && Adjacent(dir, e, n) && n in nodes
    requires n in Ball(SetOf(edges), dir, s, d)
    ensures Ball(SetOf(edges), dir, s, d) <= Ball(SetOf(edges + [e]), dir, s, d)
    ensures Other(e, n) in nodes ==> Connected(es, dir, s, d + 1, nodes, edges + [e])
    ensures Other(e, n) !in nodes ==> Connected(es, dir, s, d + 1, nodes + [Other(e, n)], edges + [e])
  {
    hide Ball, Neighbours;
    BallsGrow(es, dir, s, d, edges, n, e);
    assert SetOf(edges + [e]) == SetOf(edges) + {e};
    assert SetOf(nodes + [Other(e, n)]) == SetOf(nodes) + {Other(e, n)};
  }

  lemma BallsGrow(es: set<Edge>, dir: Direction, s: NodeRef, d: nat, edges: seq<Edge>, n: NodeRef, e: Edge)
    requires Adjacent(dir, e, n) && n in Ball(SetOf(edges), dir, s, d)
    ensures var fs, gs := SetOf(edges), SetOf(edges + [e]);
      && Ball(fs, dir, s, d) <= Ball(gs, dir, s, d) && Ball(fs, dir, s, d + 1) <= Ball(gs, dir, s, d + 1)
      && Other(e, n) in Ball(gs, dir, s, d + 1)
  {
    var fs, gs := SetOf(edges), SetOf(edges + [e]);
    assert gs == fs + {e};
    BallInLarger(fs, gs, dir, s, d + 1);
    BallInLarger(fs, gs, dir, s, d);
    assert Other(e, n) in Neighbours(gs, dir, Ball(gs, dir, s, d));
  }

  ghost predicate DistinctIds(es: set<Edge>) {
    forall a, b :: a in es && b in es && a.id == b.id ==> a == b
  }

  lemma ValidIds(rows: seq<Edge>, ty: Option<string>)
    requires Valid(rows)
    ensures DistinctIds(Matching(rows, ty))
  {
  }

  // What the search keeps at any point while it expands the frontier of depth d.
  ghost predicate Piece(es: set<Edge>, dir: Direction, s: NodeRef, d: nat, all: set<NodeRef>, frontier: seq<NodeRef>,
                        cap: int, nodes: seq<NodeRef>, edges: seq<Edge>, ids: set<nat>, keys: set<string>, next: seq<NodeRef>) {
    && Connected(es, dir, s, d + 1, nodes, edges)
    && Stands(keys, SetOf(nodes), all)
    && ids == IdsOf(edges)
    && |edges| <= cap
    && SetOf(frontier) <= SetOf(nodes) && SetOf(next) <= SetOf(nodes)
    && SetOf(frontier) <= Ball(SetOf(edges), dir, s, d)
  }

  // Below the cap nothing has been left out.
  ghost predicate Uncapped(es: set<Edge>, dir: Direction, all: set<NodeRef>, ball: set<NodeRef>, before: set<Edge>,
                           done: set<NodeRef>, crossed: seq<Edge>, n: NodeRef,
                           cap: int, nodes: seq<NodeRef>, edges: seq<Edge>, keys: set<string>, next: seq<NodeRef>) {
    |edges| < cap ==>
      && Explored(es, dir, all, ball, done, Targets(crossed, n), keys, SetOf(nodes), next)
      && SetOf(edges) == before + Touching(es, dir, done) + SetOf(crossed)
  }

  // An edge already collected from its other end changes nothing.
  lemma CrossOld(es: set<Edge>, dir: Direction, s: NodeRef, d: nat, all: set<NodeRef>, frontier: seq<NodeRef>,
                 ball: set<NodeRef>, before: set<Edge>, done: set<NodeRef>, adj: seq<Edge>, j: nat, n: NodeRef,
                 cap: int, nodes: seq<NodeRef>, edges: seq<Edge>, ids: set<nat>, keys: set<string>, next: seq<NodeRef>)
    requires Piece(es, dir, s, d, all, frontier, cap, nodes, edges, ids, keys, next)
    requires j < |adj| && adj[j] in es && adj[j].id in ids
    requires Uncapped(es, dir, all, ball, before, done, adj[..j], n, cap, nodes, edges, keys, next)
    requires NodesOf(es) <= all && DistinctIds(es)
    ensures Uncapped(es, dir, all, ball, before, done, adj[..j + 1], n, cap, nodes, edges, keys, next)
  {
  }

  // A new edge extends the piece, with its far end if that is new.
  lemma CrossNew(es: set<Edge>, dir: Direction, s: NodeRef, d: nat, all: set<NodeRef>, frontier: seq<NodeRef>,
                 ball: set<NodeRef>, before: set<Edge>, done: set<NodeRef>, adj: seq<Edge>, j: nat, n: NodeRef,
                 cap: int, nodes: seq<NodeRef>, edges: seq<Edge>, ids: set<nat>, keys: set<string>, next: seq<NodeRef>)
    requires Piece(es, dir, s, d, all, frontier, cap, nodes, edges, ids, keys, next)
    requires j < |adj| && adj[j] in es && Adjacent(dir, adj[j], n) && adj[j].id !in ids
    requires Uncapped(es, dir, all, ball, before, done, adj[..j], n, cap, nodes, edges, keys, next)
    requires NodesOf(es) <= all && n in frontier && |edges| < cap
    ensures var e, t := adj[j], Other(adj[j], n);
      && (Key(t) in keys ==>
            && Piece(es, dir, s, d, all, frontier, cap, nodes, edges + [e], ids + {e.id}, keys, next)
            && Uncapped(es, dir, all, ball, before, done, adj[..j + 1], n, cap, nodes, edges + [e], keys, next))
      && (Key(t) !in keys ==>
            && Piece(es, dir, s, d, all, frontier, cap, nodes + [t], edges + [e], ids + {e.id}, keys + {Key(t)}, next + [t])
            && Uncapped(es, dir, all, ball, before, done, adj[..j + 1], n, cap, nodes + [t], edges + [e],
                        keys + {Key(t)}, next + [t]))
  {
    hide Ball, Piece, Uncapped, NodesOf, Key, SetOf, Explored;
    PieceExplores(es, dir, s, d, all, frontier, ball, before, done, adj, j, n, cap, nodes, edges, ids, keys, next);
    PieceGrows(es, dir, s, d, all, frontier, adj[j], n, cap, nodes, edges, ids, keys, next);
  }

  // The exploration side of a new edge.
  lemma PieceExplores(es: set<Edge>, dir: Direction, s: NodeRef, d: nat, all: set<NodeRef>, frontier: seq<NodeRef>,
                 ball: set<NodeRef>, before: set<Edge>, done: set<NodeRef>, adj: seq<Edge>, j: nat, n: NodeRef,
                 cap: int, nodes: seq<NodeRef>, edges: seq<Edge>, ids: set<nat>, keys: set<string>, next: seq<NodeRef>)
    requires Piece(es, dir, s, d, all, frontier, cap, nodes, edges, ids, keys, next)
    requires j < |adj| && adj[j] in es && |edges| < cap && NodesOf(es) <= all
    requires Uncapped(es, dir, all, ball, before, done, adj[..j], n, cap, nodes, edges, keys, next)
    ensures var e, t := adj[j], Other(adj[j], n);
      && (Key(t) in keys <==> t in nodes)
      && (Key(t) in keys ==>
            && Stands(keys, SetOf(nodes), all)
            && Uncapped(es, dir, all, ball, before, done, adj[..j + 1], n, cap, nodes, edges + [e], keys, next))
      && (Key(t) !in keys ==>
            && Stands(keys + {Key(t)}, SetOf(nodes + [t]), all)
            && Uncapped(es, dir, all, ball, before, done, adj[..j + 1], n, cap, nodes + [t], edges + [e],
                        keys + {Key(t)}, next + [t]))
  {
    hide Connected, Stands, KeysOf, KeysDistinct, NodesOf, Touching, Neighbours, Ball;
    var e, t := adj[j], Other(adj[j], n);
    CrossEdge(es, dir, all, ball, done, adj, j, n, keys, SetOf(nodes), next);
    SetOfSnoc(nodes, t);
    SetOfSnoc(edges, e);
    SetOfSnoc(adj[..j], e);
    assert adj[..j + 1] == adj[..j] + [e];
  }

  lemma SetOfSnoc<T>(s: seq<T>, x: T)
    ensures SetOf(s + [x]) == SetOf(s) + {x}
  {
  }

  // The piece side of a new edge.
  lemma PieceGrows(es: set<Edge>, dir: Direction, s: NodeRef, d: nat, all: set<NodeRef>, frontier: seq<NodeRef>,
                   e: Edge, n: NodeRef, cap: int, nodes: seq<NodeRef>, edges: seq<Edge>, ids: set<nat>,
                   keys: set<string>, next: seq<NodeRef>)
    requires Piece(es, dir, s, d, all, frontier, cap, nodes, edges, ids, keys, next)
    requires e in es && Adjacent(dir, e, n) && e.id !in ids && n in frontier && |edges| < cap
    ensures var t := Other(e, n);
      && (t in nodes ==>
            Piece(es, dir, s, d, all, frontier, cap, nodes, edges + [e], ids + {e.id}, keys, next))
      && (t !in nodes && Stands(keys + {Key(t)}, SetOf(nodes + [t]), all) ==>
            Piece(es, dir, s, d, all, frontier, cap, nodes + [t], edges + [e], ids + {e.id}, keys + {Key(t)}, next + [t]))
  {
    hide Ball, Connected, Stands, Key;
    var t := Other(e, n);
    assert n in SetOf(frontier) && e !in edges;
    InSetOf(nodes, n);
    ConnectedCross(es, dir, s, d, nodes, edges, n, e);
    SetOfSnoc(nodes, t);
    SetOfSnoc(next, t);
    assert IdsOf(edges + [e]) == IdsOf(edges) + {e.id};
  }

  lemma InSetOf<T>(s: seq<T>, x: T)
    ensures x in SetOf(s) <==> x in s
  {
  }

  lemma NodeStart(es: set<Edge>, dir: Direction, s: NodeRef, all: set<NodeRef>, ball: set<NodeRef>, before: set<Edge>,
                  done: set<NodeRef>, adj: seq<Edge>, n: NodeRef,
                  cap: int, nodes: seq<NodeRef>, edges: seq<Edge>, keys: set<string>, next: seq<NodeRef>)
    requires Uncapped(es, dir, all, ball, before, done, [], s, cap, nodes, edges, keys, next)
    ensures Uncapped(es, dir, all, ball, before, done, adj[..0], n, cap, nodes, edges, keys, next)
  {
  }

  lemma NodeDone(es: set<Edge>, dir: Direction, s: NodeRef, all: set<NodeRef>, ball: set<NodeRef>, before: set<Edge>,
                 frontier: seq<NodeRef>, i: nat, adj: seq<Edge>, j: nat,
                 cap: int, nodes: seq<NodeRef>, edges: seq<Edge>, keys: set<string>, next: seq<NodeRef>)
    requires i < |frontier| && j <= |adj| && (j < |adj| ==> |edges| >= cap)
    requires forall e :: e in adj <==> e in es && Adjacent(dir, e, frontier[i])
    requires Uncapped(es, dir, all, ball, before, SetOf(frontier[..i]), adj[..j], frontier[i], cap, nodes, edges, keys, next)
    ensures Uncapped(es, dir, all, ball, before, SetOf(frontier[..i + 1]), [], s, cap, nodes, edges, keys, next)
  {
    if |edges| < cap {
      hide Neighbours, Stands, Targets, Touching, Explored, SetOf;
      ExpandNode(es, dir, all, ball, frontier, i, adj, keys, SetOf(nodes), next);
      assert adj[..|adj|] == adj;
      TouchingNext(es, dir, frontier, i, adj);
      NoTargets(s);
    }
  }

  lemma TouchingNext(es: set<Edge>, dir: Direction, frontier: seq<NodeRef>, i: nat, adj: seq<Edge>)
    requires i < |frontier| && forall e :: e in adj <==> e in es && Adjacent(dir, e, frontier[i])
    ensures Touching(es, dir, SetOf(frontier[..i + 1])) == Touching(es, dir, SetOf(frontier[..i])) + SetOf(adj)
    ensures SetOf<Edge>([]) == {}
  {
    assert frontier[..i + 1] == frontier[..i] + [frontier[i]];
    SetOfSnoc(frontier[..i], frontier[i]);
  }

  lemma NoTargets(n: NodeRef)
    ensures Targets([], n) == {}
  {
  }

  // What the search knows between layers.
  ghost predicate PieceLayered(es: set<Edge>, dir: Direction, s: NodeRef, d: nat, all: set<NodeRef>, frontier: seq<NodeRef>,
                               cap: int, nodes: seq<NodeRef>, edges: seq<Edge>, ids: set<nat>, keys: set<string>) {
    && Connected(es, dir, s, d, nodes, edges)
    && Stands(keys, SetOf(nodes), all)
    && ids == IdsOf(edges)
    && SetOf(frontier) <= SetOf(nodes)
    && (|edges| <= cap || edges == [])
    && (|edges| < cap ==> Frontier(es, dir, s, d, frontier) && Complete(es, dir, s, d, nodes, edges))
  }

  lemma PieceStart(es: set<Edge>, dir: Direction, s: NodeRef, all: set<NodeRef>, cap: int)
    requires s in all && KeysDistinct(all)
    ensures PieceLayered(es, dir, s, 0, all, [s], cap, [s], [], {}, {Key(s)})
  {
  }

  lemma LayerBegin(es: set<Edge>, dir: Direction, s: NodeRef, d: nat, all: set<NodeRef>, frontier: seq<NodeRef>,
                   cap: int, nodes: seq<NodeRef>, edges: seq<Edge>, ids: set<nat>, keys: set<string>)
    requires PieceLayered(es, dir, s, d, all, frontier, cap, nodes, edges, ids, keys) && |edges| < cap
    ensures Piece(es, dir, s, d, all, frontier, cap, nodes, edges, ids, keys, [])
    ensures Uncapped(es, dir, all, SetOf(nodes), SetOf(edges), SetOf(frontier[..0]), [], s, cap, nodes, edges, keys, [])
  {
    hide Ball, Neighbours, Connected, Stands, Explored;
    ConnectedWider(es, dir, s, d, nodes, edges);
    ExploreStart(es, dir, all, SetOf(nodes), frontier, keys);
    NoTargets(s);
    assert SetOf<NodeRef>([]) == {} && SetOf<Edge>([]) == {};
    assert Touching(es, dir, SetOf(frontier[..0])) == {};
    ConnectedInside(es, dir, s, d, nodes, edges);
  }

  lemma ConnectedInside(es: set<Edge>, dir: Direction, s: NodeRef, d: nat, nodes: seq<NodeRef>, edges: seq<Edge>)
    requires Connected(es, dir, s, d, nodes, edges)
    ensures SetOf(nodes) <= Ball(SetOf(edges), dir, s, d)
  {
  }

  lemma ConnectedWider(es: set<Edge>, dir: Direction, s: NodeRef, d: nat, nodes: seq<NodeRef>, edges: seq<Edge>)
    requires Connected(es, dir, s, d, nodes, edges)
    ensures Connected(es, dir, s, d + 1, nodes, edges)
  {
    BallMonotone(SetOf(edges), dir, s, d, d + 1);
  }

  lemma LayerEnd(es: set<Edge>, dir: Direction, s: NodeRef, d: nat, all: set<NodeRef>, frontier: seq<NodeRef>,
                 cap: int, nodes0: seq<NodeRef>, edges0: seq<Edge>,
                 nodes: seq<NodeRef>, edges: seq<Edge>, ids: set<nat>, keys: set<string>, next: seq<NodeRef>)
    requires Frontier(es, dir, s, d, frontier) && Complete(es, dir, s, d, nodes0, edges0)
    requires Piece(es, dir, s, d, all, frontier, cap, nodes, edges, ids, keys, next)
    requires Uncapped(es, dir, all, SetOf(nodes0), SetOf(edges0), SetOf(frontier[..|frontier|]), [], s, cap, nodes, edges, keys, next)
    ensures PieceLayered(es, dir, s, d + 1, all, next, cap, nodes, edges, ids, keys)
  {
    if |edges| < cap {
      assert frontier[..|frontier|] == frontier;
      NoTargets(s);
      FrontierNext(es, dir, s, d, frontier, all, keys, SetOf(nodes), next);
      LayerTouching(es, dir, s, d, frontier);
      assert SetOf<Edge>([]) == {};
    }
  }

  lemma LayerTouching(es: set<Edge>, dir: Direction, s: NodeRef, d: nat, frontier: seq<NodeRef>)
    requires Frontier(es, dir, s, d, frontier)
    ensures Touching(es, dir, Closer(es, dir, s, d + 1))
         == Touching(es, dir, Closer(es, dir, s, d)) + Touching(es, dir, SetOf(frontier))
  {
  }

  lemma PieceDone(es: set<Edge>, dir: Direction, s: NodeRef, d: nat, m: nat, all: set<NodeRef>, frontier: seq<NodeRef>,
                  cap: int, nodes: seq<NodeRef>, edges: seq<Edge>, ids: set<nat>, keys: set<string>)
    requires PieceLayered(es, dir, s, d, all, frontier, cap, nodes, edges, ids, keys)
    requires d <= m && (d == m || frontier == [] || |edges| >= cap)
    ensures Connected(es, dir, s, m, nodes, edges)
    ensures |edges| <= cap || edges == []
    ensures |edges| < cap ==> Complete(es, dir, s, m, nodes, edges)
  {
    hide Neighbours;
    BallMonotone(SetOf(edges), dir, s, d, m);
    if d < m && |edges| < cap {
      FrontierEmpty(es, dir, s, d, m);
    }
  }

  // The stored edges of the type, as the search may cross them.
  ghost predicate Asked(rows: seq<Edge>, ty: Option<string>, e: Edge) {
    e in rows && (ty.None? || ty.value == "" || e.edgeType == ty.value)
  }

  // A connected piece in terms of walks: every returned node is reached over returned edges.
  lemma PieceReached(rows: seq<Edge>, ty: Option<string>, dir: Direction, s: NodeRef, d: nat,
                     nodes: seq<NodeRef>, edges: seq<Edge>)
    requires Connected(Matching(rows, ty), dir, s, d, nodes, edges)
    ensures forall e <- edges :: Asked(rows, ty, e) && e.source in nodes && e.target in nodes
    ensures forall n <- nodes :: exists w :: |w| <= d && Walk(SetOf(edges), dir, s, w, n)
  {
    hide Ball, Walk;
    forall e | e in edges ensures Asked(rows, ty, e) {
      assert e in SetOf(edges);
    }
    forall n | n in nodes ensures exists w :: |w| <= d && Walk(SetOf(edges), dir, s, w, n) {
      assert n in SetOf(nodes);
      var w := BallHasWalk(SetOf(edges), dir, s, d, n);
    }
  }

  // A complete neighbourhood in terms of walks: every node within reach, and every edge asked for that is adjacent
  // to a node reached in fewer hops.
  lemma WholeReached(rows: seq<Edge>, ty: Option<string>, dir: Direction, s: NodeRef, d: nat,
                     nodes: seq<NodeRef>, edges: seq<Edge>, w: seq<Edge>, n: NodeRef)
    requires Complete(Matching(rows, ty), dir, s, d, nodes, edges)
    requires Walk(Matching(rows, ty), dir, s, w, n) && |w| <= d
    ensures n in nodes
    ensures |w| < d ==> forall e :: Asked(rows, ty, e) && ((dir != In && e.source == n) || (dir != Out && e.target == n)) ==>
      e in edges
  {
    hide Ball, Walk, Neighbours;
    var es := Matching(rows, ty);
    WalkStaysInBall(es, dir, s, w, n);
    BallMonotone(es, dir, s, |w|, d);
    assert n in SetOf(nodes);
    if |w| < d {
      BallMonotone(es, dir, s, |w|, d - 1);
      assert n in Closer(es, dir, s, d);
      forall e | Asked(rows, ty, e) && ((dir != In && e.source == n) || (dir != Out && e.target == n)) ensures e in edges {
        assert e in es && Adjacent(dir, e, n);
        assert e in Touching(es, dir, Closer(es, dir, s, d));
        assert e in SetOf(edges);
      }
    }
  }

  // The capped subgraph search. Whatever the cap, the result is a connected piece of the graph; if
  // the cap was not reached it is the whole neighbourhood of radius maxDepth.
  method Subgraph(rows: seq<Edge>, node: NodeRef, maxDepth: int, direction: Direction, edgeType: Option<string>, maxEdges: int)
    returns (nodes: seq<NodeRef>, edges: seq<Edge>)
    requires Valid(rows) && KeysDistinct(NodesOf(Matching(rows, edgeType)) + {node})
    ensures Connected(Matching(rows, edgeType), direction, node, if maxDepth > 0 then maxDepth else 0, nodes, edges)
    ensures |edges| <= maxEdges || edges == []
    ensures |edges| < maxEdges
      ==> Complete(Matching(rows, edgeType), direction, node, if maxDepth > 0 then maxDepth else 0, nodes, edges)
    ensures forall e <- edges :: Asked(rows, edgeType, e) && e.source in nodes && e.target in nodes
    ensures node in nodes && forall n <- nodes :: exists w :: (w == [] || |w| <= maxDepth) && Walk(SetOf(edges), direction, node, w, n)
    ensures |edges| < maxEdges ==> forall w, n, e ::
      (&& Walk(Matching(rows, edgeType), direction, node, w, n) && |w| < maxDepth && Asked(rows, edgeType, e)
       && ((direction != In && e.source == n) || (direction != Out && e.target == n))) ==> e in edges
  {
    hide Walk, Asked;
    hide Connected, Complete, Frontier, Stands, Piece, Uncapped, PieceLayered, SetOf, IdsOf, Targets, AdjacentRows;
    ghost var es := Matching(rows, edgeType);
    ghost var all := NodesOf(es) + {node};
    var seen, edgeIds: set<nat> := {Key(node)}, {};
    nodes, edges := [node], [];
    var frontier := [node];
    var depth := 0;
    PieceStart(es, direction, node, all, maxEdges);
    ValidIds(rows, edgeType);
    while depth < maxDepth && |frontier| > 0 && |edges| < maxEdges
      invariant 0 <= depth && (depth <= maxDepth || depth == 0)
      invariant PieceLayered(es, direction, node, depth, all, frontier, maxEdges, nodes, edges, edgeIds, seen)
    {
      var next: seq<NodeRef> := [];
      ghost var nodes0, edges0 := nodes, edges;
      LayerBegin(es, direction, node, depth, all, frontier, maxEdges, nodes, edges, edgeIds, seen);
      LayerFacts(es, direction, node, depth, all, frontier, maxEdges, nodes, edges, edgeIds, seen);
      var i := 0;
      while i < |frontier|
        invariant 0 <= i <= |frontier|
        invariant Piece(es, direction, node, depth, all, frontier, maxEdges, nodes, edges, edgeIds, seen, next)
        invariant Uncapped(es, direction, all, SetOf(nodes0), SetOf(edges0), SetOf(frontier[..i]), [], node,
                           maxEdges, nodes, edges, seen, next)
      {
        var n := frontier[i];
        var adj := AdjacentRows(rows, n, edgeType, direction);
        AdjacentRowsMembers(rows, n, edgeType, direction);
        NodeStart(es, direction, node, all, SetOf(nodes0), SetOf(edges0), SetOf(frontier[..i]), adj, n,
                  maxEdges, nodes, edges, seen, next);
        var j := 0;
        while j < |adj|
          invariant 0 <= j <= |adj|
          invariant Piece(es, direction, node, depth, all, frontier, maxEdges, nodes, edges, edgeIds, seen, next)
          invariant Uncapped(es, direction, all, SetOf(nodes0), SetOf(edges0), SetOf(frontier[..i]), adj[..j], n,
                             maxEdges, nodes, edges, seen, next)
        {
          if |edges| >= maxEdges {
            break;
          }
          var e := adj[j];
          assert e in adj;
          if e.id in edgeIds {
            CrossOld(es, direction, node, depth, all, frontier, SetOf(nodes0), SetOf(edges0), SetOf(frontier[..i]), adj, j, n,
                     maxEdges, nodes, edges, edgeIds, seen, next);
          } else {
            CrossNew(es, direction, node, depth, all, frontier, SetOf(nodes0), SetOf(edges0), SetOf(frontier[..i]), adj, j, n,
                     maxEdges, nodes, edges, edgeIds, seen, next);
            edgeIds := edgeIds + {e.id};
            edges := edges + [e];
            var other := if Key(e.source) == Key(n) then e.target else e.source;
            KeyEnds(es, all, e, n);
            var key := Key(other);
            if key !in seen {
              seen := seen + {key};
              nodes := nodes + [other];
              next := next + [other];
            }
          }
          j := j + 1;
        }
        NodeDone(es, direction, node, all, SetOf(nodes0), SetOf(edges0), frontier, i, adj, j, maxEdges, nodes, edges, seen, next);
        i := i + 1;
      }
      LayerEnd(es, direction, node, depth, all, frontier, maxEdges, nodes0, edges0, nodes, edges, edgeIds, seen, next);
      frontier := next;
      depth := depth + 1;
    }
    ghost var d := if maxDepth > 0 then maxDepth else 0;
    PieceDone(es, direction, node, depth, d, all, frontier, maxEdges, nodes, edges, edgeIds, seen);
    InWalks(rows, edgeType, direction, node, maxDepth, nodes, edges);
    if |edges| < maxEdges {
      AllInWalks(rows, edgeType, direction, node, maxDepth, nodes, edges);
    }
  }

  lemma InWalks(rows: seq<Edge>, ty: Option<string>, dir: Direction, s: NodeRef, m: int, nodes: seq<NodeRef>, edges: seq<Edge>)
    requires Connected(Matching(rows, ty), dir, s, if m > 0 then m else 0, nodes, edges)
    ensures forall e <- edges :: Asked(rows, ty, e) && e.source in nodes && e.target in nodes
    ensures s in nodes && forall n <- nodes :: exists w :: (w == [] || |w| <= m) && Walk(SetOf(edges), dir, s, w, n)
  {
    hide Walk;
    PieceReached(rows, ty, dir, s, if m > 0 then m else 0, nodes, edges);
    forall n | n in nodes ensures exists w :: (w == [] || |w| <= m) && Walk(SetOf(edges), dir, s, w, n) {
      var w :| |w| <= (if m > 0 then m else 0) && Walk(SetOf(edges), dir, s, w, n);
      assert w == [] || |w| <= m;
    }
  }

  lemma AllInWalks(rows: seq<Edge>, ty: Option<string>, dir: Direction, s: NodeRef, m: int, nodes: seq<NodeRef>, edges: seq<Edge>)
    requires Complete(Matching(rows, ty), dir, s, if m > 0 then m else 0, nodes, edges)
    ensures forall w, n, e ::
      (&& Walk(Matching(rows, ty), dir, s, w, n) && |w| < m && Asked(rows, ty, e)
       && ((dir != In && e.source == n) || (dir != Out && e.target == n))) ==> e in edges
  {
    hide Walk, Asked, Complete;
    forall w, n, e | Walk(Matching(rows, ty), dir, s, w, n) && |w| < m && Asked(rows, ty, e)
      && ((dir != In && e.source == n) || (dir != Out && e.target == n)) ensures e in edges
    {
      WholeReached(rows, ty, dir, s, if m > 0 then m else 0, nodes, edges, w, n);
    }
  }

  lemma LayerFacts(es: set<Edge>, dir: Direction, s: NodeRef, d: nat, all: set<NodeRef>, frontier: seq<NodeRef>,
                   cap: int, nodes: seq<NodeRef>, edges: seq<Edge>, ids: set<nat>, keys: set<string>)
    requires PieceLayered(es, dir, s, d, all, frontier, cap, nodes, edges, ids, keys) && |edges| < cap
    ensures Frontier(es, dir, s, d, frontier) && Complete(es, dir, s, d, nodes, edges)
  {
  }
}
