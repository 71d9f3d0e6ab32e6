// Hybrid retrieval: the two ranked lists, their reciprocal-rank fusion with per-tool decay, and the
// streaming variant. Similarities, text ranks and the decay factor are given; no reranker is
// configured and the embedder does not fail.
module Retrieval {
  import opened Sequences
  import opened Sorting

  datatype SearchHit = SearchHit(id: nat, eventId: nat, text: string, ts: int, tool: Option<string>)

  datatype SummaryRow = SummaryRow(eventId: nat, text: string, ts: int)

  datatype VecHit = VecHit(id: nat, cosine: real)

  // What the store answers for one query.
  datatype Store = Store(
    fts: seq<SearchHit>,           // text matches, best first
    vecEnabled: bool,
    vecIndex: seq<VecHit>,         // indexed neighbours, nearest first
    embeddings: seq<VecHit>,       // every embedding with its similarity to the query, unordered
    tools: map<nat, string>,       // summary id to the tool of its event
    summaries: map<nat, SummaryRow>,
    superseded: set<nat>,
    pinned: set<nat>)

  datatype Config = Config(
    k: nat, candidatePool: nat, rrfK: real, bm25Weight: real, vectorWeight: real,
    tauByTool: map<string, real>, tau: real, decay: (int, real) -> real, boost: Option<HybridHit -> real>)

  datatype HybridHit = HybridHit(
    id: nat, eventId: nat, text: string, ts: int, score: real,
    bm25Rank: Option<nat>, vecRank: Option<nat>, cosine: Option<real>, recency: real, tool: Option<string>)

  datatype Stages = Stages(bm25Hits: seq<SearchHit>, vecIds: seq<nat>,
                           vecRank: map<nat, nat>, vecCos: map<nat, real>, vecTools: map<nat, string>)

  // ---- the specification ----

  // The map a loop of `set(key, value)` calls builds.
  function MapOf<V>(pairs: seq<(nat, V)>): map<nat, V> {
    if pairs == [] then map[]
    else MapOf(pairs[..|pairs| - 1])[pairs[|pairs| - 1].0 := pairs[|pairs| - 1].1]
  }

  // The distinct elements in order of first occurrence, as a JavaScript Set iterates them.
  function Dedup(s: seq<nat>): seq<nat> {
    if s == [] then []
    else
      var d := Dedup(s[..|s| - 1]);
      if s[|s| - 1] in d then d else d + [s[|s| - 1]]
  }

  function Ranks(ids: seq<nat>): seq<(nat, nat)> {
    seq(|ids|, i requires 0 <= i < |ids| => (ids[i], i + 1))
  }

  function Ids(hits: seq<VecHit>): seq<nat> {
    seq(|hits|, i requires 0 <= i < |hits| => hits[i].id)
  }

  function Cosines(hits: seq<VecHit>): seq<(nat, real)> {
    seq(|hits|, i requires 0 <= i < |hits| => (hits[i].id, hits[i].cosine))
  }

  function Bm25Ids(hits: seq<SearchHit>): seq<nat> {
    seq(|hits|, i requires 0 <= i < |hits| => hits[i].id)
  }

  function Cosine(h: VecHit): real {
    h.cosine
  }

  function NearestHits(store: Store, pool: nat): seq<VecHit> {
    if store.vecEnabled then Take(store.vecIndex, pool) else Take(SortDesc(store.embeddings, Cosine), pool)
  }

  function ToolsOf(store: Store, ids: seq<nat>): map<nat, string> {
    map id | id in ids && id in store.tools :: store.tools[id]
  }

  function StagesOf(store: Store, embed: bool, pool: nat): Stages {
    var hits := if embed then NearestHits(store, pool) else [];
    Stages(Take(store.fts, pool), Ids(hits), MapOf(Ranks(Ids(hits))), MapOf(Cosines(hits)), ToolsOf(store, Ids(hits)))
  }

  function Lookup<V>(m: map<nat, V>, id: nat): Option<V> {
    if id in m then Some(m[id]) else None
  }

  function StoredRow(store: Store, id: nat): Option<SearchHit> {
    if id in store.summaries then
      var r := store.summaries[id];
      Some(SearchHit(id, r.eventId, r.text, r.ts, None))
    else None
  }

  // The row a candidate is rendered from: its text match if it has one, else the stored summary.
  function RowOf(store: Store, bm25Hits: seq<SearchHit>, id: nat): Option<SearchHit>
    decreases |bm25Hits|
  {
    if bm25Hits == [] then StoredRow(store, id)
    else if bm25Hits[|bm25Hits| - 1].id == id then Some(bm25Hits[|bm25Hits| - 1])
    else RowOf(store, bm25Hits[..|bm25Hits| - 1], id)
  }

  // An empty tool name is left out of a hit.
  function Named(tool: Option<string>): Option<string> {
    if tool == Some("") then None else tool
  }

  function TauFor(tool: Option<string>, cfg: Config): real {
    if tool.Some? && tool.value != "" && tool.value in cfg.tauByTool then cfg.tauByTool[tool.value] else cfg.tau
  }

  function Rrf(weight: real, rrfK: real, rank: Option<nat>): real
    requires rrfK >= 0.0
  {
    if rank.Some? && rank.value > 0 then weight / (rrfK + rank.value as real) else 0.0
  }

  // A candidate's hit before the optional boost.
  function BaseHit(row: SearchHit, st: Stages, cfg: Config, now: int): HybridHit
    requires cfg.rrfK >= 0.0
  {
    var br := Lookup(MapOf(Ranks(Bm25Ids(st.bm25Hits))), row.id);
    var vr := Lookup(st.vecRank, row.id);
    var tool := if row.tool.Some? then row.tool else Lookup(st.vecTools, row.id);
    var recency := cfg.decay(now - row.ts, TauFor(tool, cfg));
    HybridHit(row.id, row.eventId, row.text, row.ts,
              (Rrf(cfg.bm25Weight, cfg.rrfK, br) + Rrf(cfg.vectorWeight, cfg.rrfK, vr)) * recency,
              br, vr, Lookup(st.vecCos, row.id), recency, Named(tool))
  }

  function Boosted(h: HybridHit, cfg: Config): (r: HybridHit)
    ensures r.id == h.id
  {
    if cfg.boost.Some? then h.(score := h.score * cfg.boost.value(h)) else h
  }

  predicate Eligible(store: Store, st: Stages, id: nat) {
    && !(id in store.superseded && id !in store.pinned)
    && RowOf(store, st.bm25Hits, id).Some?
  }

  function Candidates(st: Stages): seq<nat> {
    Dedup(Bm25Ids(st.bm25Hits) + st.vecIds)
  }

  function HitFor(store: Store, st: Stages, cfg: Config, now: int, id: nat): HybridHit
    requires cfg.rrfK >= 0.0 && Eligible(store, st, id)
  {
    Boosted(BaseHit(RowOf(store, st.bm25Hits, id).value, st, cfg, now), cfg)
  }

  function BaseHits(store: Store, st: Stages, cfg: Config, now: int, ids: seq<nat>): seq<HybridHit>
    requires cfg.rrfK >= 0.0
  {
    if ids == [] then []
    else
      var id := ids[|ids| - 1];
      var rest := BaseHits(store, st, cfg, now, ids[..|ids| - 1]);
      if Eligible(store, st, id) then rest + [BaseHit(RowOf(store, st.bm25Hits, id).value, st, cfg, now)] else rest
  }

  function ScoredHits(store: Store, st: Stages, cfg: Config, now: int, ids: seq<nat>): seq<HybridHit>
    requires cfg.rrfK >= 0.0
  {
    var hits := BaseHits(store, st, cfg, now, ids);
    seq(|hits|, i requires 0 <= i < |hits| => Boosted(hits[i], cfg))
  }

  function Score(h: HybridHit): real {
    h.score
  }

  // The complete ranking; a search returns its first k hits.
  function Ranking(store: Store, st: Stages, cfg: Config, now: int): seq<HybridHit>
    requires cfg.rrfK >= 0.0
  {
    SortDesc(ScoredHits(store, st, cfg, now, Candidates(st)), Score)
  }

  // ---- what the ranking promises ----

  ghost predicate DistinctHits(hits: seq<HybridHit>) {
    forall i, j :: 0 <= i < j < |hits| ==> hits[i].id != hits[j].id
  }

  lemma {:induction false} DedupMembers(s: seq<nat>)
    ensures NoDup(Dedup(s))
    ensures forall x :: x in Dedup(s) <==> x in s
  {
    if s != [] {
      DedupMembers(s[..|s| - 1]);
      assert s == s[..|s| - 1] + [s[|s| - 1]];
    }
  }

  lemma {:induction false} RowHasId(store: Store, bm25Hits: seq<SearchHit>, id: nat)
    requires RowOf(store, bm25Hits, id).Some?
    ensures RowOf(store, bm25Hits, id).value.id == id
  {
    if bm25Hits != [] && bm25Hits[|bm25Hits| - 1].id != id {
      RowHasId(store, bm25Hits[..|bm25Hits| - 1], id);
    }
  }

  lemma BaseHitId(row: SearchHit, st: Stages, cfg: Config, now: int)
    requires cfg.rrfK >= 0.0
    ensures BaseHit(row, st, cfg, now).id == row.id
  {
  }

  lemma {:induction false} BaseHitsExact(store: Store, st: Stages, cfg: Config, now: int, ids: seq<nat>)
    requires cfg.rrfK >= 0.0 && NoDup(ids)
    ensures var hits := BaseHits(store, st, cfg, now, ids);
      && (forall h :: h in hits ==> h.id in ids && Eligible(store, st, h.id)
                                    && h == BaseHit(RowOf(store, st.bm25Hits, h.id).value, st, cfg, now))
      && (forall id :: id in ids && Eligible(store, st, id)
            ==> BaseHit(RowOf(store, st.bm25Hits, id).value, st, cfg, now) in hits)
      && DistinctHits(hits)
  {
    hide BaseHit;
    if ids != [] {
      var n := |ids| - 1;
      var id := ids[n];
      BaseHitsExact(store, st, cfg, now, ids[..n]);
      assert forall x :: x in ids <==> x in ids[..n] || x == id;
      if Eligible(store, st, id) {
        RowHasId(store, st.bm25Hits, id);
        BaseHitId(RowOf(store, st.bm25Hits, id).value, st, cfg, now);
      }
    }
  }

  // The scored list holds one hit for each eligible candidate and nothing else.
  lemma ScoredHitsExact(store: Store, st: Stages, cfg: Config, now: int, ids: seq<nat>)
    requires cfg.rrfK >= 0.0 && NoDup(ids)
    ensures var hits := ScoredHits(store, st, cfg, now, ids);
      && (forall h :: h in hits ==> h.id in ids && Eligible(store, st, h.id) && h == HitFor(store, st, cfg, now, h.id))
      && (forall id :: id in ids && Eligible(store, st, id) ==> HitFor(store, st, cfg, now, id) in hits)
      && DistinctHits(hits)
  {
    hide BaseHit;
    BaseHitsExact(store, st, cfg, now, ids);
    var base, hits := BaseHits(store, st, cfg, now, ids), ScoredHits(store, st, cfg, now, ids);
    forall h | h in hits
      ensures h.id in ids && Eligible(store, st, h.id) && h == HitFor(store, st, cfg, now, h.id)
    {
      var i :| 0 <= i < |hits| && hits[i] == h;
      assert base[i] in base;
    }
    forall id | id in ids && Eligible(store, st, id) ensures HitFor(store, st, cfg, now, id) in hits {
      var b := BaseHit(RowOf(store, st.bm25Hits, id).value, st, cfg, now);
      assert b in base;
      var i :| 0 <= i < |base| && base[i] == b;
      assert hits[i] == HitFor(store, st, cfg, now, id);
    }
  }

  // `top` is the k best: distinct eligible candidates with their fused scores, best first, and no
  // eligible candidate left out scores above any of them.
  ghost predicate KBest(store: Store, st: Stages, cfg: Config, now: int, top: seq<HybridHit>)
    requires cfg.rrfK >= 0.0
  {
    && Descending(top, Score)
    && |top| <= cfg.k
    && DistinctHits(top)
    && (forall h :: h in top ==> h.id in Candidates(st) && Eligible(store, st, h.id) && h == HitFor(store, st, cfg, now, h.id))
    && (forall id :: id in Candidates(st) && Eligible(store, st, id)
          ==> var h := HitFor(store, st, cfg, now, id);
              h in top || (|top| == cfg.k && forall t :: t in top ==> t.score >= h.score))
  }

  lemma RankingIsBest(store: Store, st: Stages, cfg: Config, now: int)
    requires cfg.rrfK >= 0.0
    ensures KBest(store, st, cfg, now, Take(Ranking(store, st, cfg, now), cfg.k))
  {
    hide HitFor, Eligible, Candidates, ScoredHits, SortDesc, DistinctHits, Take;
    var hits := ScoredHits(store, st, cfg, now, Candidates(st));
    CandidatesDistinct(st);
    ScoredHitsExact(store, st, cfg, now, Candidates(st));
    TakeIsBest(hits, Score, cfg.k);
    SortDistinctIds(hits);
    TakeDistinct(SortDesc(hits, Score), cfg.k);
    var top := Take(Ranking(store, st, cfg, now), cfg.k);
    forall id | id in Candidates(st) && Eligible(store, st, id)
      ensures var h := HitFor(store, st, cfg, now, id);
              h in top || (|top| == cfg.k && forall t :: t in top ==> t.score >= h.score)
    {
      var h := HitFor(store, st, cfg, now, id);
      assert h in hits;
      assert forall t <- top :: Score(t) == t.score;
    }
  }

  lemma TakeDistinct(hits: seq<HybridHit>, k: nat)
    requires DistinctHits(hits)
    ensures DistinctHits(Take(hits, k))
  {
  }

  lemma CandidatesDistinct(st: Stages)
    ensures NoDup(Candidates(st))
  {
    DedupMembers(Bm25Ids(st.bm25Hits) + st.vecIds);
  }

  lemma SortDistinctIds(hits: seq<HybridHit>)
    requires DistinctHits(hits)
    ensures DistinctHits(SortDesc(hits, Score))
  {
    var r := SortDesc(hits, Score);
    SortNoDup(hits, Score);
    SortMembers(hits, Score);
    forall i, j | 0 <= i < j < |r| ensures r[i].id != r[j].id {
      assert r[i] in hits && r[j] in hits && r[i] != r[j];
    }
  }

  // A superseded, unpinned summary is never returned.
  lemma NothingSuperseded(store: Store, st: Stages, cfg: Config, now: int, h: HybridHit)
    requires cfg.rrfK >= 0.0 && h in Take(Ranking(store, st, cfg, now), cfg.k)
    ensures h.id in store.superseded ==> h.id in store.pinned
    ensures h.id in Bm25Ids(st.bm25Hits) || h.id in st.vecIds
  {
    RankingIsBest(store, st, cfg, now);
    DedupMembers(Bm25Ids(st.bm25Hits) + st.vecIds);
  }

  lemma HitsIgnoreK(row: SearchHit, st: Stages, cfg: Config, now: int, h: HybridHit, m: nat)
    requires cfg.rrfK >= 0.0
    ensures BaseHit(row, st, cfg.(k := m), now) == BaseHit(row, st, cfg, now)
    ensures Boosted(h, cfg.(k := m)) == Boosted(h, cfg)
  {
    hide MapOf, Lookup, Rrf;
    var tool := if row.tool.Some? then row.tool else Lookup(st.vecTools, row.id);
    assert TauFor(tool, cfg.(k := m)) == TauFor(tool, cfg);
  }

  lemma {:induction false} BaseHitsIgnoreK(store: Store, st: Stages, cfg: Config, now: int, ids: seq<nat>, m: nat)
    requires cfg.rrfK >= 0.0
    ensures BaseHits(store, st, cfg.(k := m), now, ids) == BaseHits(store, st, cfg, now, ids)
  {
    hide BaseHit;
    if ids != [] {
      BaseHitsIgnoreK(store, st, cfg, now, ids[..|ids| - 1], m);
      var row := RowOf(store, st.bm25Hits, ids[|ids| - 1]);
      if row.Some? {
        HitsIgnoreK(row.value, st, cfg, now, BaseHit(row.value, st, cfg, now), m);
      }
    }
  }

  // How many hits are asked for does not change the ranking they are taken from, and it is best first: what a
  // merge over workspaces takes from each.
  lemma RankingIgnoresK(store: Store, st: Stages, cfg: Config, now: int, m: nat)
    requires cfg.rrfK >= 0.0
    ensures Ranking(store, st, cfg.(k := m), now) == Ranking(store, st, cfg, now)
    ensures Descending(Ranking(store, st, cfg, now), Score)
  {
    hide BaseHits, Candidates, Boosted;
    var ids := Candidates(st);
    BaseHitsIgnoreK(store, st, cfg, now, ids, m);
    forall h ensures Boosted(h, cfg.(k := m)) == Boosted(h, cfg) {
      HitsIgnoreK(SearchHit(0, 0, "", 0, None), st, cfg, now, h, m);
    }
    assert ScoredHits(store, st, cfg.(k := m), now, ids) == ScoredHits(store, st, cfg, now, ids);
    SortDescending(ScoredHits(store, st, cfg, now, ids), Score);
  }

  // ---- the code ----

  // The vector side: ids in rank order with their ranks, similarities and tools.
  method VectorStage(store: Store, pool: nat)
    returns (ids: seq<nat>, vecRank: map<nat, nat>, vecCos: map<nat, real>, vecTools: map<nat, string>)
    ensures var hits := NearestHits(store, pool);
      ids == Ids(hits) && vecRank == MapOf(Ranks(Ids(hits))) && vecCos == MapOf(Cosines(hits)) && vecTools == ToolsOf(store, Ids(hits))
  {
    hide MapOf, NearestHits, ToolsOf;
    var hits := NearestHits(store, pool);
    NothingYet();
    ids, vecRank, vecCos := [], map[], map[];
    var i := 0;
    while i < |hits|
      invariant 0 <= i <= |hits|
      invariant ids == Ids(hits)[..i]
      invariant vecRank == MapOf(Ranks(Ids(hits))[..i])
      invariant vecCos == MapOf(Cosines(hits)[..i])
    {
      var e := hits[i];
      MapOfNext(Ranks(Ids(hits)), i);
      MapOfNext(Cosines(hits), i);
      ids := ids + [e.id];
      vecRank := vecRank[e.id := i + 1];
      vecCos := vecCos[e.id := e.cosine];
      i := i + 1;
    }
    assert Ranks(Ids(hits))[..|hits|] == Ranks(Ids(hits));
    assert Cosines(hits)[..|hits|] == Cosines(hits);
    vecTools := ToolsOf(store, ids);
  }

  method RunRetrievalStages(store: Store, embed: bool, pool: nat) returns (st: Stages)
    ensures st == StagesOf(store, embed, pool)
  {
    var bm25Hits := Take(store.fts, pool);
    var ids: seq<nat>, vecRank: map<nat, nat>, vecCos: map<nat, real>, vecTools: map<nat, string> := [], map[], map[], map[];
    if embed {
      ids, vecRank, vecCos, vecTools := VectorStage(store, pool);
    }
    st := Stages(bm25Hits, ids, vecRank, vecCos, vecTools);
  }

  lemma MapOfNext<V>(pairs: seq<(nat, V)>, i: nat)
    requires i < |pairs|
    ensures MapOf(pairs[..i + 1]) == MapOf(pairs[..i])[pairs[i].0 := pairs[i].1]
  {
    assert pairs[..i + 1][..i] == pairs[..i];
  }

  lemma DedupNext(ids: seq<nat>, i: nat)
    requires i < |ids|
    ensures Dedup(ids[..i + 1]) == if ids[i] in Dedup(ids[..i]) then Dedup(ids[..i]) else Dedup(ids[..i]) + [ids[i]]
  {
    assert ids[..i + 1][..i] == ids[..i];
  }

  lemma RowOfNext(store: Store, hits: seq<SearchHit>, i: nat, id: nat)
    requires i < |hits|
    ensures RowOf(store, hits[..i + 1], id) == if id == hits[i].id then Some(hits[i]) else RowOf(store, hits[..i], id)
  {
    assert hits[..i + 1][..i] == hits[..i];
  }

  lemma NothingYet()
    ensures MapOf<nat>([]) == map[] && MapOf<real>([]) == map[] && Dedup([]) == []
  {
  }

  // The text side: ranks, rows and ids of the text matches.
  method TextSide(store: Store, bm25Hits: seq<SearchHit>)
    returns (bm25Rank: map<nat, nat>, rows: map<nat, SearchHit>, ids: seq<nat>)
    ensures bm25Rank == MapOf(Ranks(Bm25Ids(bm25Hits))) && ids == Dedup(Bm25Ids(bm25Hits))
    ensures forall id :: id in rows <==> id in Bm25Ids(bm25Hits)
    ensures forall id :: id in rows ==> RowOf(store, bm25Hits, id) == Some(rows[id])
  {
    bm25Rank, rows, ids := map[], map[], [];
    var i := 0;
    hide RowOf, StoredRow, MapOf, Dedup;
    NothingYet();
    while i < |bm25Hits|
      invariant 0 <= i <= |bm25Hits|
      invariant bm25Rank == MapOf(Ranks(Bm25Ids(bm25Hits))[..i])
      invariant ids == Dedup(Bm25Ids(bm25Hits)[..i])
      invariant forall id :: id in rows <==> id in Bm25Ids(bm25Hits)[..i]
      invariant forall id :: id in rows ==> RowOf(store, bm25Hits[..i], id) == Some(rows[id])
    {
      var h := bm25Hits[i];
      MapOfNext(Ranks(Bm25Ids(bm25Hits)), i);
      DedupNext(Bm25Ids(bm25Hits), i);
      assert Bm25Ids(bm25Hits)[..i + 1] == Bm25Ids(bm25Hits)[..i] + [h.id];
      bm25Rank := bm25Rank[h.id := i + 1];
      rows := rows[h.id := h];
      if h.id !in ids {
        ids := ids + [h.id];
      }
      forall id | id in rows ensures RowOf(store, bm25Hits[..i + 1], id) == Some(rows[id]) {
        RowOfNext(store, bm25Hits, i, id);
      }
      i := i + 1;
    }
    assert Ranks(Bm25Ids(bm25Hits))[..i] == Ranks(Bm25Ids(bm25Hits));
    assert Bm25Ids(bm25Hits)[..i] == Bm25Ids(bm25Hits);
    assert bm25Hits[..i] == bm25Hits;
  }

  method FuseAndRank(store: Store, st: Stages, cfg: Config, now: int) returns (hits: seq<HybridHit>)
    requires cfg.rrfK >= 0.0
    ensures hits == Take(Ranking(store, st, cfg, now), cfg.k)
  {
    hide MapOf, Ranks, RowOf, Dedup, ScoredHits, SortDesc;
    var bm25Rank, rows, ids := TextSide(store, st.bm25Hits);
    var i, all := |st.bm25Hits|, Bm25Ids(st.bm25Hits) + st.vecIds;
    assert all[..i] == Bm25Ids(st.bm25Hits);
    var j := 0;
    while j < |st.vecIds|
      invariant 0 <= j <= |st.vecIds|
      invariant ids == Dedup(all[..i + j])
    {
      DedupNext(all, i + j);
      if st.vecIds[j] !in ids {
        ids := ids + [st.vecIds[j]];
      }
      j := j + 1;
    }
    assert all[..i + j] == all;
    hits := ScoreAll(store, st, cfg, now, bm25Rank, rows, ids);
    hits := SortDesc(hits, Score);
    hits := Take(hits, cfg.k);
  }

  // The loop that renders and scores the candidates, then the boost loop.
  method ScoreAll(store: Store, st: Stages, cfg: Config, now: int, bm25Rank: map<nat, nat>, rows: map<nat, SearchHit>, ids: seq<nat>)
    returns (hits: seq<HybridHit>)
    requires cfg.rrfK >= 0.0
    requires bm25Rank == MapOf(Ranks(Bm25Ids(st.bm25Hits)))
    requires forall id :: id in rows <==> id in Bm25Ids(st.bm25Hits)
    requires forall id :: id in rows ==> RowOf(store, st.bm25Hits, id) == Some(rows[id])
    ensures hits == ScoredHits(store, st, cfg, now, ids)
  {
    hide RowOf, MapOf, Ranks, Bm25Ids, Rrf, Lookup, TauFor;
    hits := [];
    var i := 0;
    while i < |ids|
      invariant 0 <= i <= |ids|
      invariant hits == BaseHits(store, st, cfg, now, ids[..i])
    {
      var id := ids[i];
      assert ids[..i + 1][..i] == ids[..i];
      UnmatchedRow(store, st.bm25Hits, id);
      if !(id in store.superseded && id !in store.pinned) && (id in rows || id in store.summaries) {
        var row := if id in rows then rows[id]
          else SearchHit(id, store.summaries[id].eventId, store.summaries[id].text, store.summaries[id].ts, None);
        assert RowOf(store, st.bm25Hits, id) == Some(row);
        RowHasId(store, st.bm25Hits, id);
        var br := Lookup(bm25Rank, id);
        var vr := Lookup(st.vecRank, id);
        var rrf := Rrf(cfg.bm25Weight, cfg.rrfK, br) + Rrf(cfg.vectorWeight, cfg.rrfK, vr);
        var tool := if row.tool.Some? then row.tool else Lookup(st.vecTools, id);
        var recency := cfg.decay(now - row.ts, TauFor(tool, cfg));
        assert BaseHit(row, st, cfg, now).score == rrf * recency;
        hits := hits + [HybridHit(id, row.eventId, row.text, row.ts, rrf * recency, br, vr, Lookup(st.vecCos, id), recency, Named(tool))];
      }
      i := i + 1;
    }
    assert ids[..|ids|] == ids;
    hits := BoostAll(hits, cfg);
  }

  method BoostAll(base: seq<HybridHit>, cfg: Config) returns (hits: seq<HybridHit>)
    ensures |hits| == |base| && forall x :: 0 <= x < |hits| ==> hits[x] == Boosted(base[x], cfg)
  {
    hits := base;
    if cfg.boost.Some? {
      var i := 0;
      while i < |hits|
        invariant 0 <= i <= |hits| == |base|
        invariant forall x :: 0 <= x < i ==> hits[x] == Boosted(base[x], cfg)
        invariant forall x :: i <= x < |hits| ==> hits[x] == base[x]
      {
        hits := hits[i := hits[i].(score := hits[i].score * cfg.boost.value(hits[i]))];
        i := i + 1;
      }
    }
  }

  lemma {:induction false} UnmatchedRow(store: Store, bm25Hits: seq<SearchHit>, id: nat)
    ensures id !in Bm25Ids(bm25Hits) ==> RowOf(store, bm25Hits, id) == StoredRow(store, id)
    ensures id in Bm25Ids(bm25Hits) ==> RowOf(store, bm25Hits, id).Some?
  {
    if bm25Hits != [] {
      var n := |bm25Hits| - 1;
      UnmatchedRow(store, bm25Hits[..n], id);
      assert Bm25Ids(bm25Hits) == Bm25Ids(bm25Hits[..n]) + [bm25Hits[n].id];
    }
  }

  method HybridSearch(store: Store, embed: bool, cfg: Config, now: int) returns (hits: seq<HybridHit>)
    requires cfg.rrfK >= 0.0
    ensures hits == Take(Ranking(store, StagesOf(store, embed, cfg.candidatePool), cfg, now), cfg.k)
    ensures KBest(store, StagesOf(store, embed, cfg.candidatePool), cfg, now, hits)
  {
    var st := RunRetrievalStages(store, embed, cfg.candidatePool);
    hits := FuseAndRank(store, st, cfg, now);
    RankingIsBest(store, st, cfg, now);
  }

  datatype VectorHit = VectorHit(
    id: nat, eventId: nat, text: string, ts: int, tool: Option<string>, cosine: Option<real>, vecRank: nat)

  datatype Chunk =
    | Bm25(hits: seq<SearchHit>)
    | Vector(neighbours: seq<VectorHit>)
    | Final(ranked: seq<HybridHit>)

  // The neighbours that have a stored summary, with their places among all of them.
  function Shown(store: Store, st: Stages, vecIds: seq<nat>): seq<VectorHit> {
    if vecIds == [] then []
    else
      var n := |vecIds| - 1;
      var id := vecIds[n];
      Shown(store, st, vecIds[..n]) +
      if id !in store.summaries then []
      else
        var row := store.summaries[id];
        [VectorHit(id, row.eventId, row.text, row.ts, Named(Lookup(st.vecTools, id)), Lookup(st.vecCos, id), n + 1)]
  }

  // The streaming search emits its text matches, then its vector neighbours that have a stored
  // summary, then exactly what HybridSearch returns for the same store, time and options.
  method StreamingHybridSearch(store: Store, embed: bool, cfg: Config, now: int) returns (chunks: seq<Chunk>)
    requires cfg.rrfK >= 0.0
    ensures |chunks| == 3
    ensures chunks[0] == Bm25(Take(Take(store.fts, cfg.candidatePool), cfg.k))
    ensures var st := StagesOf(store, embed, cfg.candidatePool);
      chunks[1] == Vector(Shown(store, st, Take(st.vecIds, cfg.k)))
    ensures chunks[2] == Final(Take(Ranking(store, StagesOf(store, embed, cfg.candidatePool), cfg, now), cfg.k))
  {
    var bm25Hits := Take(store.fts, cfg.candidatePool);
    chunks := [Bm25(Take(bm25Hits, cfg.k))];
    var ids: seq<nat>, vecRank: map<nat, nat>, vecCos: map<nat, real>, vecTools: map<nat, string> := [], map[], map[], map[];
    if embed {
      ids, vecRank, vecCos, vecTools := VectorStage(store, cfg.candidatePool);
    }
    var st := Stages(bm25Hits, ids, vecRank, vecCos, vecTools);
    chunks := chunks + [Vector(Shown(store, st, Take(ids, cfg.k)))];
    var final := FuseAndRank(store, st, cfg, now);
    chunks := chunks + [Final(final)];
  }
}
