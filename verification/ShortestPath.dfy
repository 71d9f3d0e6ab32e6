// The shortest chain of edges between two nodes, directions ignored.
module ProvenancePath {
  import opened Sequences
  import opened Graph
  import opened Exploration
  import opened EdgeQueries

  datatype Link = Link(prevKey: string, edge: Edge)

  // The tree behind the parent map: the node before each visited node, and the walk to it.
  datatype Tree = Tree(up: map<NodeRef, NodeRef>, walkTo: map<NodeRef, seq<Edge>>)

  ghost predicate ParentTree(es: set<Edge>, s: NodeRef, parent: map<string, Option<Link>>, tree: Tree) {
    && s in tree.walkTo && tree.walkTo[s] == []
    && (forall v :: v in tree.walkTo ==> Walk(es, Both, s, tree.walkTo[v], v))
    && forall v :: v in tree.walkTo && v != s ==> HasParent(es, parent, tree, v)
  }

  ghost predicate HasParent(es: set<Edge>, parent: map<string, Option<Link>>, tree: Tree, v: NodeRef) {
    && v in tree.walkTo && v in tree.up && tree.up[v] in tree.walkTo
    && Key(v) in parent && parent[Key(v)].Some?
    && var link, p := parent[Key(v)].value, tree.up[v];
       && link.prevKey == Key(p)
       && link.edge in es && Adjacent(Both, link.edge, p) && Other(link.edge, p) == v
       && tree.walkTo[v] == tree.walkTo[p] + [link.edge]
  }

  function Attach(tree: Tree, n: NodeRef, e: Edge): Tree
    requires n in tree.walkTo
  {
    Tree(tree.up[Other(e, n) := n], tree.walkTo[Other(e, n) := tree.walkTo[n] + [e]])
  }

  lemma TreeGrows(es: set<Edge>, s: NodeRef, parent: map<string, Option<Link>>, tree: Tree, all: set<NodeRef>, n: NodeRef, e: Edge)
    requires ParentTree(es, s, parent, tree) && KeysDistinct(all) && tree.walkTo.Keys <= all
    requires n in tree.walkTo && e in es && Adjacent(Both, e, n)
    requires Other(e, n) in all && Other(e, n) !in tree.walkTo
    ensures ParentTree(es, s, parent[Key(Other(e, n)) := Some(Link(Key(n), e))], Attach(tree, n, e))
  {
    hide Walk, Key, Adjacent, Other;
    var t := Other(e, n);
    var parent', tree' := parent[Key(t) := Some(Link(Key(n), e))], Attach(tree, n, e);
    WalkSnoc(es, Both, s, tree.walkTo[n], n, e);
    forall v | v in tree'.walkTo && v != s ensures HasParent(es, parent', tree', v) {
      if v != t {
        assert HasParent(es, parent, tree, v);
        assert Key(v) != Key(t);
      }
    }
  }

  lemma SeedWalk(es: set<Edge>, s: NodeRef, parent: map<string, Option<Link>>, tree: Tree)
    requires ParentTree(es, s, parent, tree)
    ensures s in tree.walkTo && tree.walkTo[s] == []
  {
  }

  lemma BackStep(es: set<Edge>, s: NodeRef, parent: map<string, Option<Link>>, tree: Tree, v: NodeRef)
    requires ParentTree(es, s, parent, tree) && v in tree.walkTo && v != s
    ensures HasParent(es, parent, tree, v)
  {
  }

  // Following parents from `target` to the seed and reversing gives the recorded walk.
  method WalkBack(ghost es: set<Edge>, s: NodeRef, target: NodeRef, parent: map<string, Option<Link>>,
                  ghost tree: Tree, ghost all: set<NodeRef>)
    returns (path: seq<Edge>)
    requires ParentTree(es, s, parent, tree) && target in tree.walkTo
    requires KeysDistinct(all) && tree.walkTo.Keys <= all && s in all
    ensures path == tree.walkTo[target]
  {
    hide Walk, Key, ParentTree;
    path := [];
    var cursor := Key(target);
    SeedWalk(es, s, parent, tree);
    ghost var v := target;
    while cursor != Key(s)
      invariant v in tree.walkTo && cursor == Key(v)
      invariant tree.walkTo[target] == tree.walkTo[v] + Reverse(path)
      decreases |tree.walkTo[v]|
    {
      BackStep(es, s, parent, tree, v);
      var link := parent[cursor];
      if link == None {
        break;
      }
      ReverseAppend(path, link.value.edge);
      path := path + [link.value.edge];
      cursor := link.value.prevKey;
      v := tree.up[v];
    }
    assert v == s;
    return Reverse(path);
  }

  // What the search keeps between layers: shortest walks to everything within d hops.
  ghost predicate TreeLayered(es: set<Edge>, s: NodeRef, d: nat, frontier: seq<NodeRef>,
                              parent: map<string, Option<Link>>, tree: Tree, all: set<NodeRef>) {
    && Layered(es, Both, s, d, frontier, parent.Keys, tree.walkTo.Keys, all)
    && ParentTree(es, s, parent, tree)
    && forall v :: v in frontier ==> v in tree.walkTo && |tree.walkTo[v]| == d
  }

  // ...and while it expands layer d: nodes found beyond the ball are d + 1 hops out.
  ghost predicate TreeExpanding(es: set<Edge>, s: NodeRef, d: nat, frontier: seq<NodeRef>, all: set<NodeRef>,
                                parent: map<string, Option<Link>>, tree: Tree, next: seq<NodeRef>) {
    && ParentTree(es, s, parent, tree) && tree.walkTo.Keys <= all
    && (forall v :: v in frontier ==> v in tree.walkTo && |tree.walkTo[v]| == d)
    && (forall v :: v in next ==> v in tree.walkTo && |tree.walkTo[v]| == d + 1)
  }

  lemma TreeStart(es: set<Edge>, s: NodeRef, all: set<NodeRef>)
    requires s in all && KeysDistinct(all)
    ensures TreeLayered(es, s, 0, [s], map[Key(s) := None], Tree(map[], map[s := []]), all)
  {
  }

  // A layer's expansion: the tree, and what has been explored of it.
  ghost predicate Seeking(es: set<Edge>, s: NodeRef, d: nat, frontier: seq<NodeRef>, all: set<NodeRef>,
                          ball: set<NodeRef>, done: set<NodeRef>, crossed: set<NodeRef>,
                          parent: map<string, Option<Link>>, tree: Tree, next: seq<NodeRef>) {
    && TreeExpanding(es, s, d, frontier, all, parent, tree, next)
    && Explored(es, Both, all, ball, done, crossed, parent.Keys, tree.walkTo.Keys, next)
  }

  lemma ExpandStart(es: set<Edge>, s: NodeRef, d: nat, frontier: seq<NodeRef>,
                    parent: map<string, Option<Link>>, tree: Tree, all: set<NodeRef>)
    requires TreeLayered(es, s, d, frontier, parent, tree, all)
    ensures Seeking(es, s, d, frontier, all, tree.walkTo.Keys, SetOf(frontier[..0]), {}, parent, tree, [])
  {
  }

  lemma SeekStart(es: set<Edge>, s: NodeRef, d: nat, frontier: seq<NodeRef>, all: set<NodeRef>,
                  ball: set<NodeRef>, done: set<NodeRef>, adj: seq<Edge>, n: NodeRef,
                  parent: map<string, Option<Link>>, tree: Tree, next: seq<NodeRef>)
    requires Seeking(es, s, d, frontier, all, ball, done, {}, parent, tree, next)
    ensures Seeking(es, s, d, frontier, all, ball, done, Targets(adj[..0], n), parent, tree, next)
  {
    hide TreeExpanding, Explored;
    CrossStart(es, Both, all, ball, done, adj, n, parent.Keys, tree.walkTo.Keys, next);
  }

  lemma SeekNext(es: set<Edge>, s: NodeRef, d: nat, frontier: seq<NodeRef>, all: set<NodeRef>,
                 ball: set<NodeRef>, i: nat, adj: seq<Edge>,
                 parent: map<string, Option<Link>>, tree: Tree, next: seq<NodeRef>)
    requires i < |frontier| && forall e :: e in adj <==> e in es && Adjacent(Both, e, frontier[i])
    requires Seeking(es, s, d, frontier, all, ball, SetOf(frontier[..i]), Targets(adj[..|adj|], frontier[i]), parent, tree, next)
    ensures Seeking(es, s, d, frontier, all, ball, SetOf(frontier[..i + 1]), {}, parent, tree, next)
  {
    hide TreeExpanding, Explored, Targets;
    ExpandNode(es, Both, all, ball, frontier, i, adj, parent.Keys, tree.walkTo.Keys, next);
  }

  // Crossing an edge: nothing new if its far end's key has a parent, else the far end joins the tree.
  lemma SeekCross(es: set<Edge>, s: NodeRef, d: nat, frontier: seq<NodeRef>, all: set<NodeRef>,
                  ball: set<NodeRef>, done: set<NodeRef>, adj: seq<Edge>, j: nat, n: NodeRef,
                  parent: map<string, Option<Link>>, tree: Tree, next: seq<NodeRef>)
    requires j < |adj| && adj[j] in es && Adjacent(Both, adj[j], n)
    requires Seeking(es, s, d, frontier, all, ball, done, Targets(adj[..j], n), parent, tree, next) && KeysDistinct(all)
    requires NodesOf(es) <= all && n in frontier
    ensures var e, t := adj[j], Other(adj[j], n);
      && n in tree.walkTo && t in all
      && (Key(t) in parent ==>
            Seeking(es, s, d, frontier, all, ball, done, Targets(adj[..j + 1], n), parent, tree, next))
      && (Key(t) !in parent ==>
            var parent', tree' := parent[Key(t) := Some(Link(Key(n), e))], Attach(tree, n, e);
            && t !in ball && tree'.walkTo.Keys == tree.walkTo.Keys + {t} && |tree'.walkTo[t]| == d + 1
            && Seeking(es, s, d, frontier, all, ball, done, Targets(adj[..j + 1], n), parent', tree', next + [t]))
  {
    hide ParentTree, Targets, SetOf, Key, Explored, NodesOf;
    var e, t := adj[j], Other(adj[j], n);
    InNodes(es, e, n);
    CrossEdge(es, Both, all, ball, done, adj, j, n, parent.Keys, tree.walkTo.Keys, next);
    if Key(t) !in parent {
      BallIsSeen(es, all, ball, done, Targets(adj[..j], n), parent.Keys, tree.walkTo.Keys, next);
      TreeGrows(es, s, parent, tree, all, n, e);
      assert parent[Key(t) := Some(Link(Key(n), e))].Keys == parent.Keys + {Key(t)};
      AttachKeys(tree, n, e);
    }
  }

  lemma BallIsSeen(es: set<Edge>, all: set<NodeRef>, ball: set<NodeRef>, done: set<NodeRef>, crossed: set<NodeRef>,
                   keys: set<string>, seen: set<NodeRef>, next: seq<NodeRef>)
    requires Explored(es, Both, all, ball, done, crossed, keys, seen, next)
    ensures ball <= seen
  {
  }

  // The far end as the code finds it, by comparing keys.
  lemma FarEnd(es: set<Edge>, all: set<NodeRef>, e: Edge, n: NodeRef)
    requires e in es && NodesOf(es) <= all && n in all && KeysDistinct(all)
    ensures (if Key(e.source) == Key(n) then e.target else e.source) == Other(e, n)
    ensures (if Key(e.source) == Key(n) then Key(e.target) else Key(e.source)) == Key(Other(e, n))
  {
    hide Key;
    KeyEnds(es, all, e, n);
  }

  // When the target joins the tree, the walk to it is a shortest chain.
  lemma SeekHit(es: set<Edge>, s: NodeRef, d: nat, m: nat, frontier: seq<NodeRef>, all: set<NodeRef>,
                done: set<NodeRef>, crossed: set<NodeRef>, parent: map<string, Option<Link>>, tree: Tree,
                next: seq<NodeRef>, t: NodeRef)
    requires Seeking(es, s, d, frontier, all, Ball(es, Both, s, d), done, crossed, parent, tree, next)
    requires t !in Ball(es, Both, s, d) && t in tree.walkTo && |tree.walkTo[t]| == d + 1 && d < m
    ensures ParentTree(es, s, parent, tree) && tree.walkTo.Keys <= all
    ensures ShortestChain(es, s, t, m, tree.walkTo[t])
  {
    hide ParentTree, Explored, Ball, ShortestChain;
    HitIsShortest(es, s, t, d, parent, tree);
    ChainWiden(es, s, t, d + 1, m, tree.walkTo[t]);
  }

  lemma InNodes(es: set<Edge>, e: Edge, n: NodeRef)
    requires e in es
    ensures Other(e, n) in NodesOf(es)
  {
  }

  lemma ExpandLayer(es: set<Edge>, s: NodeRef, d: nat, frontier: seq<NodeRef>, all: set<NodeRef>,
                    keys0: set<string>, ball: set<NodeRef>,
                    parent: map<string, Option<Link>>, tree: Tree, next: seq<NodeRef>)
    requires Layered(es, Both, s, d, frontier, keys0, ball, all)
    requires Seeking(es, s, d, frontier, all, ball, SetOf(frontier[..|frontier|]), {}, parent, tree, next)
    ensures TreeLayered(es, s, d + 1, next, parent, tree, all)
  {
    assert frontier[..|frontier|] == frontier;
    LayeredNext(es, Both, s, d, frontier, keys0, ball, all, next, parent.Keys, tree.walkTo.Keys);
  }

  // `path` is a chain of edges from s to t, at most m long, and no chain is shorter.
  ghost predicate ShortestChain(es: set<Edge>, s: NodeRef, t: NodeRef, m: nat, path: seq<Edge>) {
    && Walk(es, Both, s, path, t)
    && |path| <= m
    && forall w :: Walk(es, Both, s, w, t) ==> |path| <= |w|
  }

  ghost predicate NoChainWithin(es: set<Edge>, s: NodeRef, t: NodeRef, m: int) {
    forall w :: Walk(es, Both, s, w, t) ==> |w| > m
  }

  // A walk of d + 1 edges to a node outside the ball of radius d is shortest.
  lemma HitIsShortest(es: set<Edge>, s: NodeRef, t: NodeRef, d: nat, parent: map<string, Option<Link>>, tree: Tree)
    requires t !in Ball(es, Both, s, d)
    requires ParentTree(es, s, parent, tree) && t in tree.walkTo && |tree.walkTo[t]| == d + 1
    ensures ShortestChain(es, s, t, d + 1, tree.walkTo[t])
  {
    hide Neighbours, Ball;
    forall w | Walk(es, Both, s, w, t) ensures d + 1 <= |w| {
      WalkStaysInBall(es, Both, s, w, t);
      if |w| <= d { BallMonotone(es, Both, s, |w|, d); }
    }
  }

  lemma MissMeansFar(es: set<Edge>, s: NodeRef, t: NodeRef, d: nat, m: int, frontier: seq<NodeRef>)
    requires s != t && t !in Ball(es, Both, s, d) && Frontier(es, Both, s, d, frontier)
    requires d >= m || frontier == []
    ensures NoChainWithin(es, s, t, m)
  {
    hide Neighbours, Ball;
    forall w | Walk(es, Both, s, w, t) ensures |w| > m {
      WalkStaysInBall(es, Both, s, w, t);
      if |w| <= d {
        BallMonotone(es, Both, s, |w|, d);
      } else if |w| <= m {
        FrontierEmpty(es, Both, s, d, |w|);
      }
    }
  }

  // Shortest chain between two nodes of the undirected graph; None exactly when every chain is
  // longer than maxDepth. The search from a node to itself returns the empty chain whatever maxDepth.
  method ShortestPath(rows: seq<Edge>, source: NodeRef, target: NodeRef, maxDepth: int) returns (r: Option<seq<Edge>>)
    requires Valid(rows) && KeysDistinct(NodesOf(Matching(rows, None)) + {source, target})
    ensures r.Some? && source != target ==>
      maxDepth > 0 && ShortestChain(Matching(rows, None), source, target, maxDepth, r.value)
    ensures r.Some? && source == target ==> r.value == []
    ensures r.None? ==> source != target && NoChainWithin(Matching(rows, None), source, target, maxDepth)
  {
    hide TreeLayered, Seeking, Layered, Frontier, Targets, SetOf, AdjacentRows, ParentTree, Ball, ShortestChain, NoChainWithin,
      NodesOf, Walk, Key, Attach, KeysDistinct, Matching;
    ghost var es := Matching(rows, None);
    ghost var all := NodesOf(es) + {source, target};
    KeysTell(all, source, target);
    var fromKey, toKey := Key(source), Key(target);
    if fromKey == toKey {
      return Some([]);
    }
    var parent: map<string, Option<Link>> := map[fromKey := None];
    ghost var tree := Tree(map[], map[source := []]);
    var frontier := [source];
    var depth := 0;
    TreeStart(es, source, all);
    while depth < maxDepth && |frontier| > 0
      invariant 0 <= depth && (depth <= maxDepth || depth == 0)
      invariant TreeLayered(es, source, depth, frontier, parent, tree, all)
      invariant target !in tree.walkTo
    {
      var next: seq<NodeRef> := [];
      ghost var keys0, ball := parent.Keys, tree.walkTo.Keys;
      ExpandStart(es, source, depth, frontier, parent, tree, all);
      TreeFacts(es, source, depth, frontier, parent, tree, all);
      var i := 0;
      while i < |frontier|
        invariant 0 <= i <= |frontier|
        invariant Seeking(es, source, depth, frontier, all, ball, SetOf(frontier[..i]), {}, parent, tree, next)
        invariant target !in tree.walkTo
      {
        var n := frontier[i];
        var adj := AdjacentRows(rows, n, None, Both);
        AdjacentRowsMembers(rows, n, None, Both);
        SeekStart(es, source, depth, frontier, all, ball, SetOf(frontier[..i]), adj, n, parent, tree, next);
        var j := 0;
        while j < |adj|
          invariant 0 <= j <= |adj|
          invariant Seeking(es, source, depth, frontier, all, ball, SetOf(frontier[..i]), Targets(adj[..j], n), parent, tree, next)
          invariant target !in tree.walkTo
        {
          var e := adj[j];
          assert e in adj;
          SeekCross(es, source, depth, frontier, all, ball, SetOf(frontier[..i]), adj, j, n, parent, tree, next);
          InAll(es, source, depth, frontier, all, ball, SetOf(frontier[..i]), Targets(adj[..j], n), parent, tree, next, n);
          FarEnd(es, all, e, n);
          KeysTell(all, Other(e, n), target);
          var otherKey := if Key(e.source) == Key(n) then Key(e.target) else Key(e.source);
          if otherKey !in parent {
            parent := parent[otherKey := Some(Link(Key(n), e))];
            tree := Attach(tree, n, e);
            var otherNode := if Key(e.source) == Key(n) then e.target else e.source;
            if otherKey == toKey {
              SeekHit(es, source, depth, maxDepth, frontier, all, SetOf(frontier[..i]), Targets(adj[..j + 1], n), parent, tree,
                next + [target], target);
              var path := WalkBack(es, source, target, parent, tree, all);
              return Some(path);
            }
            next := next + [otherNode];
          }
          j := j + 1;
        }
        SeekNext(es, source, depth, frontier, all, ball, i, adj, parent, tree, next);
        i := i + 1;
      }
      ExpandLayer(es, source, depth, frontier, all, keys0, ball, parent, tree, next);
      frontier := next;
      depth := depth + 1;
    }
    TreeFacts(es, source, depth, frontier, parent, tree, all);
    MissMeansFar(es, source, target, depth, maxDepth, frontier);
    return None;
  }

  lemma TreeFacts(es: set<Edge>, s: NodeRef, d: nat, frontier: seq<NodeRef>,
                  parent: map<string, Option<Link>>, tree: Tree, all: set<NodeRef>)
    requires TreeLayered(es, s, d, frontier, parent, tree, all)
    ensures Layered(es, Both, s, d, frontier, parent.Keys, tree.walkTo.Keys, all)
    ensures Frontier(es, Both, s, d, frontier) && tree.walkTo.Keys == Ball(es, Both, s, d)
  {
  }

  lemma InAll(es: set<Edge>, s: NodeRef, d: nat, frontier: seq<NodeRef>, all: set<NodeRef>,
              ball: set<NodeRef>, done: set<NodeRef>, crossed: set<NodeRef>,
              parent: map<string, Option<Link>>, tree: Tree, next: seq<NodeRef>, n: NodeRef)
    requires Seeking(es, s, d, frontier, all, ball, done, crossed, parent, tree, next) && n in tree.walkTo
    ensures n in all
  {
  }

  lemma KeysTell(all: set<NodeRef>, a: NodeRef, b: NodeRef)
    requires KeysDistinct(all) && a in all && b in all
    ensures Key(a) == Key(b) <==> a == b
  {
  }

  lemma AttachKeys(tree: Tree, n: NodeRef, e: Edge)
    requires n in tree.walkTo
    ensures Attach(tree, n, e).walkTo.Keys == tree.walkTo.Keys + {Other(e, n)}
  {
  }

  lemma ChainWiden(es: set<Edge>, s: NodeRef, t: NodeRef, m: nat, m': nat, path: seq<Edge>)
    requires ShortestChain(es, s, t, m, path) && m <= m'
    ensures ShortestChain(es, s, t, m', path)
  {
  }
}
