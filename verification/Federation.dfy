// The merge of per-workspace search results.
module Federation {
  import opened Sequences
  import opened Sorting
  import Retrieval

  datatype FederatedHit = FederatedHit(hit: Retrieval.HybridHit, workspace: string)

  // A consenting workspace: its key, the time at which it is searched, and what its store answers, or None when
  // the store cannot be opened or searched.
  datatype Workspace = Workspace(key: string, now: int, store: Option<Retrieval.Store>)

  function Score(h: FederatedHit): real {
    h.hit.score
  }

  function Tag(hits: seq<Retrieval.HybridHit>, workspace: string): (r: seq<FederatedHit>)
    ensures |r| == |hits|
    ensures forall i :: 0 <= i < |r| ==> r[i] == FederatedHit(hits[i], workspace)
  {
    seq(|hits|, i requires 0 <= i < |hits| => FederatedHit(hits[i], workspace))
  }

  // The complete ranking that a search of the workspace takes its hits from; none if it cannot be searched.
  function RankingOf(w: Workspace, embed: bool, cfg: Retrieval.Config): seq<Retrieval.HybridHit>
    requires cfg.rrfK >= 0.0
  {
    if w.store.None? then []
    else Retrieval.Ranking(w.store.value, Retrieval.StagesOf(w.store.value, embed, cfg.candidatePool), cfg, w.now)
  }

  // The complete rankings of all workspaces, one after the other.
  function AllHits(ws: seq<Workspace>, embed: bool, cfg: Retrieval.Config): seq<FederatedHit>
    requires cfg.rrfK >= 0.0
  {
    if ws == [] then [] else Tag(RankingOf(ws[0], embed, cfg), ws[0].key) + AllHits(ws[1..], embed, cfg)
  }

  // The same with each ranking cut to its best m.
  function BestHits(ws: seq<Workspace>, embed: bool, cfg: Retrieval.Config, m: nat): seq<FederatedHit>
    requires cfg.rrfK >= 0.0
  {
    if ws == [] then []
    else Tag(Take(RankingOf(ws[0], embed, cfg), m), ws[0].key) + BestHits(ws[1..], embed, cfg, m)
  }

  // Only workspaces whose key has the prefix, at most `limit` of them; a limit of zero is no limit.
  function Select(all: seq<Workspace>, prefix: string, limit: nat): seq<Workspace> {
    var ws := Filter(all, (w: Workspace) => prefix <= w.key);
    if limit != 0 && |ws| > limit then ws[..limit] else ws
  }

  // The selected workspaces are the first ones whose key has the prefix, all of them without a limit.
  lemma SelectExactly(all: seq<Workspace>, prefix: string, limit: nat)
    ensures var ws := Select(all, prefix, limit); var chosen := Filter(all, (w: Workspace) => prefix <= w.key);
      && ws <= chosen
      && |ws| == (if limit == 0 || |chosen| < limit then |chosen| else limit)
      && (forall w :: w in chosen <==> w in all && prefix <= w.key)
  {
    FilterMembers(all, (w: Workspace) => prefix <= w.key);
  }

  lemma RankingFacts(w: Workspace, embed: bool, cfg: Retrieval.Config, m: nat)
    requires cfg.rrfK >= 0.0
    ensures Descending(Tag(RankingOf(w, embed, cfg), w.key), Score)
    ensures RankingOf(w, embed, cfg.(k := m)) == RankingOf(w, embed, cfg)
  {
    if w.store.Some? {
      var st := Retrieval.StagesOf(w.store.value, embed, cfg.candidatePool);
      Retrieval.RankingIgnoresK(w.store.value, st, cfg, w.now, m);
    }
  }

  // The best m of each workspace give the same top k as the complete rankings.
  lemma {:induction false} BestSuffices(pre: seq<FederatedHit>, ws: seq<Workspace>, embed: bool, cfg: Retrieval.Config,
                                        m: nat, k: nat)
    requires cfg.rrfK >= 0.0 && k <= m
    ensures Take(SortDesc(pre + AllHits(ws, embed, cfg), Score), k)
         == Take(SortDesc(pre + BestHits(ws, embed, cfg, m), Score), k)
    decreases |ws|
  {
    hide RankingOf, SortDesc;
    if ws != [] {
      var w, rest := ws[0], ws[1..];
      var run, cut := Tag(RankingOf(w, embed, cfg), w.key), Tag(Take(RankingOf(w, embed, cfg), m), w.key);
      assert Take(run, m) == cut;
      RankingFacts(w, embed, cfg, m);
      TruncateRun(pre, run, AllHits(rest, embed, cfg), Score, m, k);
      BestSuffices(pre + cut, rest, embed, cfg, m, k);
      Regroup(pre, run, AllHits(rest, embed, cfg));
      Regroup(pre, cut, BestHits(rest, embed, cfg, m));
    }
  }

  lemma {:induction false} BestHitsSnoc(ws: seq<Workspace>, embed: bool, cfg: Retrieval.Config, i: nat, m: nat)
    requires cfg.rrfK >= 0.0 && i < |ws|
    ensures BestHits(ws[..i + 1], embed, cfg, m)
         == BestHits(ws[..i], embed, cfg, m) + Tag(Take(RankingOf(ws[i], embed, cfg), m), ws[i].key)
    decreases i
  {
    hide RankingOf, Tag, Take;
    if i == 0 {
      assert ws[..1] == [ws[0]] && ws[..0] == [] && ws[..1][1..] == [];
    } else {
      BestHitsSnoc(ws[1..], embed, cfg, i - 1, m);
      assert ws[..i + 1][1..] == ws[1..][..i] && ws[..i][1..] == ws[1..][..i - 1];
    }
  }

  // A hit of one of the workspaces' rankings, under that workspace's key.
  ghost predicate FromOne(ws: seq<Workspace>, embed: bool, cfg: Retrieval.Config, h: FederatedHit)
    requires cfg.rrfK >= 0.0
  {
    exists w <- ws :: Offers(w, embed, cfg, h)
  }

  ghost predicate Offers(w: Workspace, embed: bool, cfg: Retrieval.Config, h: FederatedHit)
    requires cfg.rrfK >= 0.0
  {
    && h.workspace == w.key && w.store.Some?
    && h.hit in Retrieval.Ranking(w.store.value, Retrieval.StagesOf(w.store.value, embed, cfg.candidatePool), cfg, w.now)
  }

  // The k best of what the workspaces offer, best first.
  ghost predicate BestOf(ws: seq<Workspace>, embed: bool, cfg: Retrieval.Config, k: nat, top: seq<FederatedHit>)
    requires cfg.rrfK >= 0.0
  {
    && |top| <= k
    && (forall i, j :: 0 <= i < j < |top| ==> top[i].hit.score >= top[j].hit.score)
    && (forall h <- top :: FromOne(ws, embed, cfg, h))
    && (forall h :: FromOne(ws, embed, cfg, h) && h !in top ==> |top| == k && forall b <- top :: b.hit.score >= h.hit.score)
  }

  lemma {:induction false} AllHitsMembers(ws: seq<Workspace>, embed: bool, cfg: Retrieval.Config, h: FederatedHit)
    requires cfg.rrfK >= 0.0
    ensures h in AllHits(ws, embed, cfg) <==> FromOne(ws, embed, cfg, h)
  {
    if ws != [] {
      var rest, tagged := ws[1..], Tag(RankingOf(ws[0], embed, cfg), ws[0].key);
      AllHitsMembers(rest, embed, cfg, h);
      TaggedIsOffered(ws[0], embed, cfg, h);
      assert ws == [ws[0]] + rest;
    }
  }

  lemma TaggedIsOffered(w: Workspace, embed: bool, cfg: Retrieval.Config, h: FederatedHit)
    requires cfg.rrfK >= 0.0
    ensures h in Tag(RankingOf(w, embed, cfg), w.key) <==> Offers(w, embed, cfg, h)
  {
    var ranking := RankingOf(w, embed, cfg);
    if Offers(w, embed, cfg, h) {
      var i :| 0 <= i < |ranking| && ranking[i] == h.hit;
      assert Tag(ranking, w.key)[i] == h;
    }
  }

  lemma TopIsBest(ws: seq<Workspace>, embed: bool, cfg: Retrieval.Config, k: nat)
    requires cfg.rrfK >= 0.0
    ensures BestOf(ws, embed, cfg, k, Take(SortDesc(AllHits(ws, embed, cfg), Score), k))
  {
    hide AllHits, SortDesc, FromOne, Take;
    var hits := AllHits(ws, embed, cfg);
    var top := Take(SortDesc(hits, Score), k);
    TakeIsBest(hits, Score, k);
    forall h ensures h in hits <==> FromOne(ws, embed, cfg, h) {
      AllHitsMembers(ws, embed, cfg, h);
    }
    forall i, j | 0 <= i < j < |top| ensures top[i].hit.score >= top[j].hit.score {
      assert Score(top[i]) >= Score(top[j]);
    }
    forall h, b | h in hits && h !in top && b in top ensures b.hit.score >= h.hit.score {
      assert Score(b) >= Score(h);
    }
  }

  // Asking each workspace's search for 2k hits returns the same k hits, in the same order and with the same
  // ties, as merging the complete rankings would.
  method FederatedSearch(all: seq<Workspace>, prefix: string, limit: nat, embed: bool, cfg: Retrieval.Config, k: nat)
    returns (top: seq<FederatedHit>)
    requires cfg.rrfK >= 0.0
    ensures top == Take(SortDesc(AllHits(Select(all, prefix, limit), embed, cfg), Score), k)
    ensures BestOf(Select(all, prefix, limit), embed, cfg, k, top)
  {
    hide BestOf, RankingOf, SortDesc, AllHits, BestHits, Select;
    var workspaces := Select(all, prefix, limit);
    var results: seq<FederatedHit> := [];
    NoHits(embed, cfg, 2 * k);
    var i := 0;
    while i < |workspaces|
      invariant 0 <= i <= |workspaces|
      invariant results == BestHits(workspaces[..i], embed, cfg, 2 * k)
    {
      var ws := workspaces[i];
      BestHitsSnoc(workspaces, embed, cfg, i, 2 * k);
      var hits := SearchOne(ws, embed, cfg, 2 * k);
      ghost var before := results;
      var j := 0;
      while j < |hits|
        invariant 0 <= j <= |hits|
        invariant results == before + Tag(hits, ws.key)[..j]
      {
        results := results + [FederatedHit(hits[j], ws.key)];
        j := j + 1;
      }
      assert Tag(hits, ws.key)[..|hits|] == Tag(hits, ws.key);
      i := i + 1;
    }
    assert workspaces[..|workspaces|] == workspaces;
    BestSuffices([], workspaces, embed, cfg, 2 * k, k);
    assert [] + AllHits(workspaces, embed, cfg) == AllHits(workspaces, embed, cfg);
    assert [] + BestHits(workspaces, embed, cfg, 2 * k) == BestHits(workspaces, embed, cfg, 2 * k);
    results := SortDesc(results, Score);
    top := Take(results, k);
    TopIsBest(workspaces, embed, cfg, k);
  }

  lemma NoHits(embed: bool, cfg: Retrieval.Config, m: nat)
    requires cfg.rrfK >= 0.0
    ensures BestHits([], embed, cfg, m) == []
  {
  }

  // The body of the try block: nothing comes of a workspace that cannot be searched.
  method SearchOne(w: Workspace, embed: bool, cfg: Retrieval.Config, m: nat) returns (hits: seq<Retrieval.HybridHit>)
    requires cfg.rrfK >= 0.0
    ensures hits == Take(RankingOf(w, embed, cfg), m)
  {
    hits := [];
    if w.store.Some? {
      hits := Retrieval.HybridSearch(w.store.value, embed, cfg.(k := m), w.now);
      RankingFacts(w, embed, cfg, m);
    }
  }
}
