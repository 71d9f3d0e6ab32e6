// What the three provenance searches share. The source keeps its visited sets by the string key
// `kind:id`; here a search also carries the set of nodes those keys stand for, so that what it has
// seen can be related to hop distance.
module Exploration {
  import opened Sequences
  import opened Graph

  function Key(n: NodeRef): string {
    n.kind + ":" + n.id
  }

  // Distinct nodes have distinct keys.
  ghost predicate KeysDistinct(ns: set<NodeRef>) {
    forall a, b :: a in ns && b in ns && Key(a) == Key(b) ==> a == b
  }

  // No kind continues another one after a separator.
  ghost predicate KindsApart(kinds: set<string>) {
    forall k, l :: k in kinds && l in kinds ==> !(k + ":" <= l)
  }

  // All nodes with these kinds have distinct keys.
  ghost predicate KeysApart(kinds: set<string>) {
    forall a: NodeRef, b: NodeRef :: a.kind in kinds && b.kind in kinds && Key(a) == Key(b) ==> a == b
  }

  // Of two kinds under one key, a shorter one is continued by the longer one.
  lemma SameKey(a: NodeRef, b: NodeRef)
    requires Key(a) == Key(b) && |a.kind| <= |b.kind|
    ensures |a.kind| == |b.kind| ==> a == b
    ensures |a.kind| < |b.kind| ==> a.kind + ":" <= b.kind
  {
    var i, j := |a.kind|, |b.kind|;
    assert a.kind == Key(a)[..i] && b.kind == Key(b)[..j];
    assert a.id == Key(a)[i + 1..] && b.id == Key(b)[j + 1..];
    if i < j {
      assert b.kind[..i] == a.kind && b.kind[i] == Key(a)[i] == ':';
      assert a.kind + ":" == b.kind[..i + 1];
    }
  }

  // When a kind continues another, every node of the longer kind has a node of the shorter one with its key.
  lemma KeyCollision(k: string, l: string, id: string) returns (a: NodeRef, b: NodeRef)
    requires k + ":" <= l
    ensures a.kind == k && b == NodeRef(l, id) && a != b && Key(a) == Key(b)
  {
    var rest := l[|k| + 1..];
    a, b := NodeRef(k, rest + ":" + id), NodeRef(l, id);
    assert l == k + ":" + rest;
    assert Key(a) == k + ":" + rest + ":" + id;
  }

  // The kinds whose nodes all have distinct keys are those that lie apart.
  lemma KeysExactly(kinds: set<string>)
    ensures KeysApart(kinds) <==> KindsApart(kinds)
  {
    if KindsApart(kinds) {
      forall a: NodeRef, b: NodeRef | a.kind in kinds && b.kind in kinds && Key(a) == Key(b) ensures a == b {
        if |a.kind| <= |b.kind| {
          SameKey(a, b);
        } else {
          SameKey(b, a);
        }
      }
    } else {
      var k, l :| k in kinds && l in kinds && k + ":" <= l;
      var a, b := KeyCollision(k, l, "");
    }
  }

  // Kinds without a separator lie apart.
  lemma ColonFreeKinds(ns: set<NodeRef>)
    requires forall n :: n in ns ==> ':' !in n.kind
    ensures KeysDistinct(ns)
  {
    var kinds := set n | n in ns :: n.kind;
    forall k, l | k in kinds && l in kinds ensures !(k + ":" <= l) {
      Separated(k, l);
    }
    KeysExactly(kinds);
  }

  lemma Separated(k: string, l: string)
    ensures k + ":" <= l ==> ':' in l
  {
    if k + ":" <= l {
      assert l[|k|] == (k + ":")[|k|];
    }
  }

  ghost function SetOf<T>(s: seq<T>): set<T> {
    set x | x in s
  }

  ghost function KeysOf(ns: set<NodeRef>): set<string> {
    set n | n in ns :: Key(n)
  }

  ghost function NodesOf(es: set<Edge>): set<NodeRef> {
    (set e | e in es :: e.source) + (set e | e in es :: e.target)
  }

  ghost function Targets(adj: seq<Edge>, n: NodeRef): set<NodeRef> {
    set e | e in adj :: Other(e, n)
  }

  // What expanding `done` and then crossing some edges adds to an explored set `ball`: the visited
  // nodes `seen`, and the new ones `next` in order of discovery. `keys` is the string set the search
  // keeps for `seen`, and `all` bounds the nodes it can meet.
  ghost predicate Explored(es: set<Edge>, dir: Direction, all: set<NodeRef>, ball: set<NodeRef>, done: set<NodeRef>,
                           crossed: set<NodeRef>, keys: set<string>, seen: set<NodeRef>, next: seq<NodeRef>) {
    && seen == ball + Neighbours(es, dir, done) + crossed
    && SetOf(next) == seen - ball
    && NoDup(next)
    && Stands(keys, seen, all)
  }

  ghost predicate Stands(keys: set<string>, seen: set<NodeRef>, all: set<NodeRef>) {
    seen <= all && KeysDistinct(all) && keys == KeysOf(seen)
  }

  lemma ExploreStart(es: set<Edge>, dir: Direction, all: set<NodeRef>, ball: set<NodeRef>,
                     frontier: seq<NodeRef>, keys: set<string>)
    requires Stands(keys, ball, all)
    ensures Explored(es, dir, all, ball, SetOf(frontier[..0]), {}, keys, ball, [])
  {
  }

  lemma CrossStart(es: set<Edge>, dir: Direction, all: set<NodeRef>, ball: set<NodeRef>, done: set<NodeRef>,
                   adj: seq<Edge>, n: NodeRef, keys: set<string>, seen: set<NodeRef>, next: seq<NodeRef>)
    requires Explored(es, dir, all, ball, done, {}, keys, seen, next)
    ensures Explored(es, dir, all, ball, done, Targets(adj[..0], n), keys, seen, next)
  {
  }

  lemma KeyOfSeen(seen: set<NodeRef>, all: set<NodeRef>, t: NodeRef)
    requires seen <= all && KeysDistinct(all) && t in all
    ensures Key(t) in KeysOf(seen) <==> t in seen
    ensures KeysOf(seen + {t}) == KeysOf(seen) + {Key(t)}
  {
  }

  lemma CrossEdge(es: set<Edge>, dir: Direction, all: set<NodeRef>, ball: set<NodeRef>, done: set<NodeRef>,
                  adj: seq<Edge>, j: nat, n: NodeRef, keys: set<string>, seen: set<NodeRef>, next: seq<NodeRef>)
    requires j < |adj| && adj[j] in es && NodesOf(es) <= all
    requires Explored(es, dir, all, ball, done, Targets(adj[..j], n), keys, seen, next)
    ensures var t := Other(adj[j], n);
      && (Key(t) in keys <==> t in seen)
      && (Key(t) in keys ==>
            Explored(es, dir, all, ball, done, Targets(adj[..j + 1], n), keys, seen, next))
      && (Key(t) !in keys ==>
            Explored(es, dir, all, ball, done, Targets(adj[..j + 1], n), keys + {Key(t)}, seen + {t}, next + [t]))
  {
    hide Neighbours, KeysDistinct;
    var t := Other(adj[j], n);
    assert adj[..j + 1] == adj[..j] + [adj[j]];
    assert Targets(adj[..j + 1], n) == Targets(adj[..j], n) + {t};
    assert SetOf(next + [t]) == SetOf(next) + {t};
    assert t in NodesOf(es);
    KeyOfSeen(seen, all, t);
  }

  lemma ExpandNode(es: set<Edge>, dir: Direction, all: set<NodeRef>, ball: set<NodeRef>, frontier: seq<NodeRef>, i: nat,
                   adj: seq<Edge>, keys: set<string>, seen: set<NodeRef>, next: seq<NodeRef>)
    requires i < |frontier|
    requires forall e :: e in adj <==> e in es && Adjacent(dir, e, frontier[i])
    requires Explored(es, dir, all, ball, SetOf(frontier[..i]), Targets(adj[..|adj|], frontier[i]), keys, seen, next)
    ensures Explored(es, dir, all, ball, SetOf(frontier[..i + 1]), {}, keys, seen, next)
  {
  }

  // A breadth-first frontier: the nodes at exactly d hops.
  ghost predicate Frontier(es: set<Edge>, dir: Direction, s: NodeRef, d: nat, frontier: seq<NodeRef>) {
    NoDup(frontier) && SetOf(frontier) == Ball(es, dir, s, d) - Closer(es, dir, s, d)
  }

  lemma FrontierNext(es: set<Edge>, dir: Direction, s: NodeRef, d: nat, frontier: seq<NodeRef>,
                     all: set<NodeRef>, keys: set<string>, seen: set<NodeRef>, next: seq<NodeRef>)
    requires Frontier(es, dir, s, d, frontier)
    requires Explored(es, dir, all, Ball(es, dir, s, d), SetOf(frontier), {}, keys, seen, next)
    ensures seen == Ball(es, dir, s, d + 1) && Frontier(es, dir, s, d + 1, next)
  {
  }

  // An empty frontier means the ball has stopped growing.
  lemma FrontierEmpty(es: set<Edge>, dir: Direction, s: NodeRef, d: nat, m: nat)
    requires Frontier(es, dir, s, d, []) && d < m
    ensures Ball(es, dir, s, m) == Ball(es, dir, s, d)
    ensures Ball(es, dir, s, m - 1) == Closer(es, dir, s, d)
  {
    hide Ball;
    EmptyDifference(Ball(es, dir, s, d), Closer(es, dir, s, d));
    SeedInBall(es, dir, s, d);
    assert d > 0;
    BallStops(es, dir, s, d, m);
    BallStops(es, dir, s, d, m - 1);
  }

  lemma SeedInBall(es: set<Edge>, dir: Direction, s: NodeRef, d: nat)
    ensures s in Ball(es, dir, s, d)
  {
  }

  lemma BallStops(es: set<Edge>, dir: Direction, s: NodeRef, d: nat, m: nat)
    requires 0 < d <= m && Ball(es, dir, s, d) <= Ball(es, dir, s, d - 1)
    ensures Ball(es, dir, s, m) == Ball(es, dir, s, d) == Ball(es, dir, s, d - 1)
  {
    hide Neighbours;
    BallClosed(es, dir, s, d - 1, d);
    BallClosed(es, dir, s, d - 1, m);
  }

  lemma EmptyDifference(b: set<NodeRef>, c: set<NodeRef>)
    requires SetOf<NodeRef>([]) == b - c
    ensures b <= c
  {
    forall x | x in b ensures x in c {
      assert x !in SetOf<NodeRef>([]);
    }
  }

  // The ball is its inner ball and its frontier.
  lemma FrontierSplit(es: set<Edge>, dir: Direction, s: NodeRef, d: nat, frontier: seq<NodeRef>)
    requires Frontier(es, dir, s, d, frontier)
    ensures forall n :: n in Ball(es, dir, s, d) <==> n in Closer(es, dir, s, d) || n in frontier
    ensures forall n :: n in frontier ==> n !in Closer(es, dir, s, d)
  {
    if d > 0 { BallMonotone(es, dir, s, d - 1, d); }
    forall n ensures n in frontier <==> n in Ball(es, dir, s, d) - Closer(es, dir, s, d) {
      assert n in frontier <==> n in SetOf(frontier);
    }
  }

  lemma FrontierLevel(es: set<Edge>, dir: Direction, s: NodeRef, d: nat, frontier: seq<NodeRef>, n: NodeRef, c: nat)
    requires Frontier(es, dir, s, d, frontier) && n in frontier && n in Ball(es, dir, s, c)
    ensures d <= c
  {
    FrontierSplit(es, dir, s, d, frontier);
    if c < d { BallMonotone(es, dir, s, c, d - 1); }
  }

  // What a search knows between layers.
  ghost predicate Layered(es: set<Edge>, dir: Direction, s: NodeRef, d: nat, frontier: seq<NodeRef>,
                          keys: set<string>, ball: set<NodeRef>, all: set<NodeRef>) {
    && Frontier(es, dir, s, d, frontier)
    && ball == Ball(es, dir, s, d)
    && Stands(keys, ball, all)
  }

  lemma LayeredStart(es: set<Edge>, dir: Direction, s: NodeRef, all: set<NodeRef>)
    requires s in all && KeysDistinct(all)
    ensures Layered(es, dir, s, 0, [s], {Key(s)}, {s}, all)
  {
  }

  lemma LayeredNext(es: set<Edge>, dir: Direction, s: NodeRef, d: nat, frontier: seq<NodeRef>,
                    keys: set<string>, ball: set<NodeRef>, all: set<NodeRef>,
                    next: seq<NodeRef>, keys': set<string>, ball': set<NodeRef>)
    requires Layered(es, dir, s, d, frontier, keys, ball, all)
    requires Explored(es, dir, all, ball, SetOf(frontier), {}, keys', ball', next)
    ensures Layered(es, dir, s, d + 1, next, keys', ball', all)
  {
  }

  lemma LayeredFacts(es: set<Edge>, dir: Direction, s: NodeRef, d: nat, frontier: seq<NodeRef>,
                     keys: set<string>, ball: set<NodeRef>, all: set<NodeRef>)
    requires Layered(es, dir, s, d, frontier, keys, ball, all)
    ensures Frontier(es, dir, s, d, frontier) && Stands(keys, ball, all)
  {
  }

  // Comparing keys finds the same far end as comparing nodes.
  lemma KeyEnds(es: set<Edge>, all: set<NodeRef>, e: Edge, n: NodeRef)
    requires e in es && NodesOf(es) <= all && n in all && KeysDistinct(all)
    ensures Key(e.source) == Key(n) <==> e.source == n
  {
  }
}
