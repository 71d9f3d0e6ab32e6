// The summary_supersedes relation. Links go from an older summary to the newer one that replaces it;
// both ends reference summaries with ON DELETE CASCADE.
module Supersedes {
  import opened Sequences

  datatype Link = Link(newer: nat, older: nat)

  datatype Store = Store(summaries: set<nat>, links: set<Link>)

  predicate Superseded(st: Store, id: nat) {
    exists l :: l in st.links && l.older == id
  }

  // INSERT OR IGNORE on the primary key (newer, older). A foreign key violation is not ignored: the
  // statement fails.
  function RecordSupersedes(st: Store, newer: nat, older: nat): Option<Store> {
    if newer in st.summaries && older in st.summaries
    then Some(st.(links := st.links + {Link(newer, older)}))
    else None
  }

  // DELETE of summaries, directly or by the cascade from their events; links at either end go too.
  function DeleteSummaries(st: Store, gone: set<nat>): Store {
    Store(st.summaries - gone, set l | l in st.links && l.newer !in gone && l.older !in gone)
  }

  // prune({superseded: true}): DELETE ... WHERE id IN (SELECT older_id ...).
  function PruneSuperseded(st: Store): Store {
    DeleteSummaries(st, set l | l in st.links :: l.older)
  }

  // ---- the forest ----

  // Every link climbs in rank.
  ghost predicate Ranks(st: Store, rank: map<nat, nat>) {
    && st.summaries <= rank.Keys
    && forall l :: l in st.links ==> l.newer in rank && l.older in rank && rank[l.older] < rank[l.newer]
  }

  // Links join stored summaries, each summary is superseded at most once, and links never cycle.
  ghost predicate Forest(st: Store) {
    && (forall l :: l in st.links ==> l.newer in st.summaries && l.older in st.summaries)
    && (forall l, m :: l in st.links && m in st.links && l.older == m.older ==> l == m)
    && (exists rank :: Ranks(st, rank))
  }

  // `chain` follows links from its first summary to its last.
  predicate Climbs(st: Store, chain: seq<nat>) {
    && chain != []
    && forall i :: 0 <= i < |chain| - 1 ==> Link(chain[i + 1], chain[i]) in st.links
  }

  // `chain` leads from `id` to a stored summary that is not superseded.
  predicate LeadsLive(st: Store, id: nat, chain: seq<nat>) {
    Climbs(st, chain) && chain[0] == id && chain[|chain| - 1] in st.summaries && !Superseded(st, chain[|chain| - 1])
  }

  lemma ForestStart(ids: set<nat>)
    ensures Forest(Store(ids, {}))
  {
    assert Ranks(Store(ids, {}), map x | x in ids :: 0);
  }

  // Linking one unsuperseded summary to another keeps the forest: the newer one is lifted above
  // everything the older one carries.
  lemma LinkKeepsForest(st: Store, newer: nat, older: nat)
    requires Forest(st) && newer in st.summaries && older in st.summaries && newer != older
    requires !Superseded(st, newer) && !Superseded(st, older)
    ensures Forest(RecordSupersedes(st, newer, older).value)
  {
    var st' := RecordSupersedes(st, newer, older).value;
    var rank :| Ranks(st, rank);
    var top := if rank[older] >= rank[newer] then rank[older] + 1 else rank[newer];
    var rank' := rank[newer := top];
    forall l | l in st'.links ensures rank'[l.older] < rank'[l.newer] {
      if l in st.links {
        assert l.older != newer;
      }
    }
    assert Ranks(st', rank');
    assert forall l :: l in st.links ==> l.older != older;
  }

  lemma DeleteKeepsForest(st: Store, gone: set<nat>)
    requires Forest(st)
    ensures Forest(DeleteSummaries(st, gone))
  {
    var rank :| Ranks(st, rank);
    assert Ranks(DeleteSummaries(st, gone), rank);
  }

  lemma InsertKeepsForest(st: Store, id: nat)
    requires Forest(st)
    ensures Forest(st.(summaries := st.summaries + {id}))
  {
    var rank :| Ranks(st, rank);
    var rank' := if id in rank then rank else rank[id := 0];
    assert Ranks(st.(summaries := st.summaries + {id}), rank');
  }

  // ---- what the forest gives ----

  lemma {:induction false} ClimbRises(st: Store, rank: map<nat, nat>, chain: seq<nat>)
    requires Ranks(st, rank) && Climbs(st, chain) && |chain| > 1
    ensures chain[0] in rank && chain[|chain| - 1] in rank && rank[chain[0]] < rank[chain[|chain| - 1]]
  {
    assert Link(chain[1], chain[0]) in st.links;
    if |chain| > 2 {
      TailClimbs(st, chain);
      ClimbRises(st, rank, chain[1..]);
    }
  }

  // No chain of links returns to where it started.
  lemma NoCycle(st: Store, chain: seq<nat>)
    requires Forest(st) && Climbs(st, chain) && |chain| > 1
    ensures chain[0] != chain[|chain| - 1]
  {
    var rank :| Ranks(st, rank);
    ClimbRises(st, rank, chain);
  }

  // From any stored summary the links lead to a stored one that is not superseded.
  lemma {:induction false} RootAbove(st: Store, rank: map<nat, nat>, id: nat, above: set<nat>) returns (chain: seq<nat>)
    requires Forest(st) && Ranks(st, rank) && id in st.summaries
    requires above == set x | x in st.summaries && rank[x] > rank[id]
    ensures LeadsLive(st, id, chain)
    decreases |above|
  {
    if Superseded(st, id) {
      var l :| l in st.links && l.older == id;
      var above' := set x | x in st.summaries && rank[x] > rank[l.newer];
      assert l.newer in above && l.newer !in above';
      Smaller(above', above, l.newer);
      var rest := RootAbove(st, rank, l.newer, above');
      chain := [id] + rest;
      assert l == Link(rest[0], id);
    } else {
      chain := [id];
    }
  }

  lemma Smaller(a: set<nat>, b: set<nat>, x: nat)
    requires a <= b && x in b && x !in a
    ensures |a| < |b|
  {
    assert b == (b - a) + a && x in b - a;
    assert |b| == |b - a| + |a|;
  }

  lemma LeadsToLive(st: Store, id: nat) returns (chain: seq<nat>)
    requires Forest(st) && id in st.summaries
    ensures LeadsLive(st, id, chain)
  {
    var rank :| Ranks(st, rank);
    chain := RootAbove(st, rank, id, set x | x in st.summaries && rank[x] > rank[id]);
  }

  // Each summary has one live representative: chains from it to live summaries agree.
  lemma {:induction false} LiveIsUnique(st: Store, c: seq<nat>, d: seq<nat>)
    requires Forest(st) && Climbs(st, c) && Climbs(st, d) && c[0] == d[0]
    requires !Superseded(st, c[|c| - 1]) && !Superseded(st, d[|d| - 1])
    ensures c == d
    decreases |c|
  {
    if |c| > 1 {
      assert Link(c[1], c[0]) in st.links;
      assert |d| > 1;
      assert Link(d[1], d[0]) in st.links;
      assert Link(c[1], c[0]) == Link(d[1], d[0]);
      TailClimbs(st, c);
      TailClimbs(st, d);
      LiveIsUnique(st, c[1..], d[1..]);
      assert c == [c[0]] + c[1..] && d == [d[0]] + d[1..];
    } else {
      if |d| > 1 {
        assert Link(d[1], d[0]) in st.links;
        assert Superseded(st, c[0]);
      }
      assert c == [c[0]] && d == [d[0]];
    }
  }

  lemma TailClimbs(st: Store, c: seq<nat>)
    requires Climbs(st, c) && |c| > 1
    ensures Climbs(st, c[1..])
  {
  }

  // Pruning superseded summaries keeps exactly the live ones, and no link.
  lemma PruneKeepsLive(st: Store)
    requires Forest(st)
    ensures PruneSuperseded(st).links == {}
    ensures forall id :: id in PruneSuperseded(st).summaries <==> id in st.summaries && !Superseded(st, id)
  {
  }

  // The cascade is what keeps following links useful: without it, deleting a live summary leaves those it
  // superseded stored and hidden, with no live summary to follow them to.
  lemma WithoutCascade(st: Store, l: Link)
    requires Forest(st) && l in st.links && !Superseded(st, l.newer)
    ensures var t := Store(st.summaries - {l.newer}, st.links);
      && l.older in t.summaries && Superseded(t, l.older)
      && forall chain :: !LeadsLive(t, l.older, chain)
  {
    var t := Store(st.summaries - {l.newer}, st.links);
    forall chain | Climbs(t, chain) && chain[0] == l.older ensures !LeadsLive(t, l.older, chain) {
      BelowTheEnd(t, chain);
      if |chain| > 1 {
        assert Link(chain[1], chain[0]) == l;
      }
    }
  }

  // Every summary of a chain but the last is superseded.
  lemma BelowTheEnd(st: Store, chain: seq<nat>)
    requires Climbs(st, chain)
    ensures forall i :: 0 <= i < |chain| - 1 ==> Superseded(st, chain[i])
  {
    forall i | 0 <= i < |chain| - 1 ensures Superseded(st, chain[i]) {
      assert Link(chain[i + 1], chain[i]) in st.links;
    }
  }
}
