// What a caller can rely on in the fused ranking: which summaries are in it, what each one scores, and who comes
// before whom, in terms of the two ranked lists it is made from.
module RetrievalLaws {
  import opened Sequences
  import opened Sorting
  import opened Retrieval

  // Where an id stands in a list of distinct ids; None if it is not there.
  ghost predicate PlacedAt(ids: seq<nat>, id: nat, place: Option<nat>) {
    match place
    case None => id !in ids
    case Some(i) => i < |ids| && ids[i] == id
  }

  // One place is no worse than another, and any place is better than none.
  ghost predicate NoWorse(p: Option<nat>, q: Option<nat>) {
    q.None? || (p.Some? && p.value <= q.value)
  }

  // Each summary is matched once and has one embedding.
  ghost predicate DistinctIds(store: Store) {
    && NoDup(Bm25Ids(store.fts))
    && NoDup(Ids(store.vecIndex))
    && NoDup(Ids(store.embeddings))
  }

  // The two lists of a search, as ids: text matches, best first, and neighbours, nearest first.
  ghost function TextIds(store: Store, cfg: Config): seq<nat> {
    Bm25Ids(StagesOf(store, false, cfg.candidatePool).bm25Hits)
  }

  ghost function NearIds(store: Store, embed: bool, cfg: Config): seq<nat> {
    StagesOf(store, embed, cfg.candidatePool).vecIds
  }

  ghost function RankingOf(store: Store, embed: bool, cfg: Config, now: int): seq<HybridHit>
    requires cfg.rrfK >= 0.0
  {
    Ranking(store, StagesOf(store, embed, cfg.candidatePool), cfg, now)
  }

  // ---- the two lists ----

  // The text matches are the first of what the full-text index answers.
  lemma TextAreFirst(store: Store, cfg: Config)
    ensures var text := TextIds(store, cfg);
      && |text| <= cfg.candidatePool && |text| <= |store.fts|
      && (|text| < cfg.candidatePool ==> |text| == |store.fts|)
      && forall i :: 0 <= i < |text| ==> text[i] == store.fts[i].id
  {
  }

  // The neighbours are the first the vector index answers; without one, the embeddings most similar to the
  // query, most similar first; and none without an embedder.
  lemma NeighboursAreNearest(store: Store, cfg: Config)
    ensures NearIds(store, false, cfg) == []
    ensures var hits, pool := NearestHits(store, cfg.candidatePool), cfg.candidatePool;
      && NearIds(store, true, cfg) == Ids(hits)
      && |hits| == (var n := if store.vecEnabled then |store.vecIndex| else |store.embeddings|; if n < pool then n else pool)
      && (store.vecEnabled ==> hits <= store.vecIndex)
      && (!store.vecEnabled ==>
            && Descending(hits, Cosine)
            && (forall h <- hits :: h in store.embeddings)
            && (forall e <- store.embeddings :: e in hits || forall h <- hits :: h.cosine >= e.cosine))
  {
    hide SortDesc;
    SortDescending(store.embeddings, Cosine);
    SortMembers(store.embeddings, Cosine);
    var sorted, hits := SortDesc(store.embeddings, Cosine), NearestHits(store, cfg.candidatePool);
    if !store.vecEnabled {
      forall h | h in hits ensures h in store.embeddings {
        assert h in sorted;
      }
      forall e | e in store.embeddings && e !in hits ensures forall h <- hits :: h.cosine >= e.cosine {
        var i :| 0 <= i < |sorted| && sorted[i] == e;
        assert i >= |hits|;
      }
    }
  }

  lemma ListsDistinct(store: Store, embed: bool, cfg: Config)
    requires DistinctIds(store)
    ensures NoDup(TextIds(store, cfg)) && NoDup(NearIds(store, embed, cfg))
  {
    hide SortDesc;
    var sorted := SortDesc(store.embeddings, Cosine);
    SortedDistinct(store.embeddings);
    FirstDistinct(Bm25Ids(store.fts), TextIds(store, cfg));
    if embed {
      FirstDistinct(if store.vecEnabled then Ids(store.vecIndex) else Ids(sorted), NearIds(store, embed, cfg));
    }
  }

  lemma FirstDistinct(all: seq<nat>, ids: seq<nat>)
    requires NoDup(all) && ids <= all
    ensures NoDup(ids)
  {
  }

  lemma SortedDistinct(hits: seq<VecHit>)
    requires NoDup(Ids(hits))
    ensures NoDup(Ids(SortDesc(hits, Cosine)))
  {
    hide SortDesc;
    var sorted := SortDesc(hits, Cosine);
    forall i, j | 0 <= i < j < |hits| ensures hits[i] != hits[j] {
      assert Ids(hits)[i] != Ids(hits)[j];
    }
    SortMembers(hits, Cosine);
    SortNoDup(hits, Cosine);
    forall i, j | 0 <= i < j < |sorted| ensures sorted[i].id != sorted[j].id {
      assert sorted[i] in hits && sorted[j] in hits;
      SameHit(hits, sorted[i], sorted[j]);
    }
  }

  lemma SameHit(hits: seq<VecHit>, a: VecHit, b: VecHit)
    requires NoDup(Ids(hits)) && a in hits && b in hits
    ensures a.id == b.id ==> a == b
  {
    var i :| 0 <= i < |hits| && hits[i] == a;
    var j :| 0 <= j < |hits| && hits[j] == b;
    assert a.id == b.id ==> Ids(hits)[i] == Ids(hits)[j];
  }

  // ---- what a hit scores ----

  // What a place in a list earns: the list's weight over the rank constant plus the rank.
  ghost function Share(w: real, rrfK: real, place: Option<nat>): real
    requires rrfK >= 0.0
  {
    if place.Some? then w / (rrfK + (place.value + 1) as real) else 0.0
  }

  // Looking an id up finds the value paired with it at its place.
  lemma {:induction false} LookupAt<V>(pairs: seq<(nat, V)>, ids: seq<nat>, id: nat, place: Option<nat>)
    requires |pairs| == |ids| && forall k :: 0 <= k < |ids| ==> pairs[k].0 == ids[k]
    requires NoDup(ids) && PlacedAt(ids, id, place)
    ensures Lookup(MapOf(pairs), id) == if place.Some? then Some(pairs[place.value].1) else None
  {
    if ids != [] {
      var n := |ids| - 1;
      LookupAt(pairs[..n], ids[..n], id, if place == Some(n) then None else place);
    }
  }

  lemma RankIsPlace(ids: seq<nat>, id: nat, place: Option<nat>)
    requires NoDup(ids) && PlacedAt(ids, id, place)
    ensures Lookup(MapOf(Ranks(ids)), id) == if place.Some? then Some(place.value + 1) else None
  {
    hide MapOf, Lookup;
    LookupAt(Ranks(ids), ids, id, place);
  }

  lemma CosineIsPlace(hits: seq<VecHit>, id: nat, place: Option<nat>)
    requires NoDup(Ids(hits)) && PlacedAt(Ids(hits), id, place)
    ensures Lookup(MapOf(Cosines(hits)), id) == if place.Some? then Some(hits[place.value].cosine) else None
  {
    hide MapOf, Lookup;
    LookupAt(Cosines(hits), Ids(hits), id, place);
  }

  lemma RankedHit(store: Store, st: Stages, cfg: Config, now: int, h: HybridHit)
    requires cfg.rrfK >= 0.0 && h in Ranking(store, st, cfg, now)
    ensures h.id in Candidates(st) && Eligible(store, st, h.id) && h == HitFor(store, st, cfg, now, h.id)
  {
    hide HitFor, Eligible, Candidates, ScoredHits, SortDesc;
    CandidatesDistinct(st);
    ScoredHitsExact(store, st, cfg, now, Candidates(st));
    SortMembers(ScoredHits(store, st, cfg, now, Candidates(st)), Score);
  }

  // A hit standing at i among the text matches and at j among the neighbours scores the sum of what both places
  // earn, times the decay of its age by its tool's constant; and times what
  // the boost, if there is one, makes of the hit so scored.
  lemma FusedScore(store: Store, embed: bool, cfg: Config, now: int, h: HybridHit, i: Option<nat>, j: Option<nat>)
    requires cfg.rrfK >= 0.0 && DistinctIds(store)
    requires h in RankingOf(store, embed, cfg, now)
    requires PlacedAt(TextIds(store, cfg), h.id, i) && PlacedAt(NearIds(store, embed, cfg), h.id, j)
    ensures var fused := (Share(cfg.bm25Weight, cfg.rrfK, i) + Share(cfg.vectorWeight, cfg.rrfK, j)) * h.recency;
      h.score == if cfg.boost.None? then fused else fused * cfg.boost.value(h.(score := fused))
    ensures h.recency == cfg.decay(now - h.ts,
      if h.tool.Some? && h.tool.value in cfg.tauByTool then cfg.tauByTool[h.tool.value] else cfg.tau)
    ensures h.bm25Rank == (if i.Some? then Some(i.value + 1) else None)
    ensures h.vecRank == (if j.Some? then Some(j.value + 1) else None)
    ensures h.cosine == (if j.Some? then Some(NearestHits(store, cfg.candidatePool)[j.value].cosine) else None)
  {
    hide MapOf, Ranks, Cosines, RowOf, BaseHit, Share, Candidates, SortDesc, ScoredHits, NearestHits;
    var st := StagesOf(store, embed, cfg.candidatePool);
    ListsDistinct(store, embed, cfg);
    RankedHit(store, st, cfg, now, h);
    RowHasId(store, st.bm25Hits, h.id);
    var base := BaseHit(RowOf(store, st.bm25Hits, h.id).value, st, cfg, now);
    BaseScore(RowOf(store, st.bm25Hits, h.id).value, st, cfg, now, i, j);
    BaseCosine(RowOf(store, st.bm25Hits, h.id).value, store, embed, cfg, now, j);
    var fused := (Share(cfg.bm25Weight, cfg.rrfK, i) + Share(cfg.vectorWeight, cfg.rrfK, j)) * h.recency;
    assert base == h.(score := base.score);
    assert base.recency == h.recency;
    assert base.score == fused;
    assert h.score == Boosted(base, cfg).score;
  }

  lemma BaseCosine(row: SearchHit, store: Store, embed: bool, cfg: Config, now: int, j: Option<nat>)
    requires cfg.rrfK >= 0.0 && NoDup(NearIds(store, embed, cfg)) && PlacedAt(NearIds(store, embed, cfg), row.id, j)
    ensures BaseHit(row, StagesOf(store, embed, cfg.candidatePool), cfg, now).cosine ==
      if j.Some? then Some(NearestHits(store, cfg.candidatePool)[j.value].cosine) else None
  {
    hide MapOf, Cosines, Lookup, Ranks, Bm25Ids, NearestHits;
    var hits := if embed then NearestHits(store, cfg.candidatePool) else [];
    CosineIsPlace(hits, row.id, j);
  }

  lemma BaseScore(row: SearchHit, st: Stages, cfg: Config, now: int, i: Option<nat>, j: Option<nat>)
    requires cfg.rrfK >= 0.0 && st.vecRank == MapOf(Ranks(st.vecIds))
    requires NoDup(Bm25Ids(st.bm25Hits)) && NoDup(st.vecIds)
    requires PlacedAt(Bm25Ids(st.bm25Hits), row.id, i) && PlacedAt(st.vecIds, row.id, j)
    ensures var h := BaseHit(row, st, cfg, now);
      && h.score == (Share(cfg.bm25Weight, cfg.rrfK, i) + Share(cfg.vectorWeight, cfg.rrfK, j)) * h.recency
      && h.recency == cfg.decay(now - h.ts,
           if h.tool.Some? && h.tool.value in cfg.tauByTool then cfg.tauByTool[h.tool.value] else cfg.tau)
      && h.bm25Rank == (if i.Some? then Some(i.value + 1) else None)
      && h.vecRank == (if j.Some? then Some(j.value + 1) else None)
  {
    hide MapOf, Ranks, Bm25Ids, Lookup, PlacedAt;
    RankIsPlace(Bm25Ids(st.bm25Hits), row.id, i);
    RankIsPlace(st.vecIds, row.id, j);
  }

  // What a hit shows: its text match's columns if it has one, else its stored summary's and its event's tool.
  lemma HitShows(store: Store, embed: bool, cfg: Config, now: int, h: HybridHit, i: Option<nat>)
    requires cfg.rrfK >= 0.0 && DistinctIds(store)
    requires h in RankingOf(store, embed, cfg, now) && PlacedAt(TextIds(store, cfg), h.id, i)
    ensures i.Some? ==>
      var m := store.fts[i.value];
      && h.eventId == m.eventId && h.text == m.text && h.ts == m.ts
      && (m.tool.Some? ==> h.tool == if m.tool.value == "" then None else m.tool)
    ensures i.None? ==>
      && h.id in store.summaries
      && var s := store.summaries[h.id];
         h.eventId == s.eventId && h.text == s.text && h.ts == s.ts
    ensures i.None? || store.fts[i.value].tool.None? ==>
      h.tool == if embed && h.id in NearIds(store, embed, cfg) && h.id in store.tools && store.tools[h.id] != ""
                then Some(store.tools[h.id]) else None
  {
    hide MapOf, Ranks, RowOf, Candidates, SortDesc, ScoredHits, NearestHits;
    var st := StagesOf(store, embed, cfg.candidatePool);
    ListsDistinct(store, embed, cfg);
    RankedHit(store, st, cfg, now, h);
    MatchAt(store, st.bm25Hits, h.id, i);
  }

  lemma {:induction false} MatchAt(store: Store, hits: seq<SearchHit>, id: nat, i: Option<nat>)
    requires NoDup(Bm25Ids(hits)) && PlacedAt(Bm25Ids(hits), id, i)
    ensures RowOf(store, hits, id) == if i.Some? then Some(hits[i.value]) else StoredRow(store, id)
  {
    if hits != [] {
      var n := |hits| - 1;
      assert Bm25Ids(hits)[..n] == Bm25Ids(hits[..n]);
      if i != Some(n) {
        assert Bm25Ids(hits)[n] == hits[n].id;
        MatchAt(store, hits[..n], id, i);
      }
    }
  }

  // ---- who is found, and in what order ----

  // The ranking holds one hit for each summary that is in either list, is not superseded unless pinned, and can be
  // shown, and it is ordered by score.
  lemma RankingExactly(store: Store, embed: bool, cfg: Config, now: int, id: nat)
    requires cfg.rrfK >= 0.0
    ensures (exists h :: h in RankingOf(store, embed, cfg, now) && h.id == id) <==>
      && (id in TextIds(store, cfg) || id in NearIds(store, embed, cfg))
      && (id in store.superseded ==> id in store.pinned)
      && (id in TextIds(store, cfg) || id in store.summaries)
    ensures Descending(RankingOf(store, embed, cfg, now), Score)
    ensures DistinctHits(RankingOf(store, embed, cfg, now))
  {
    hide ScoredHits, SortDesc, RowOf, BaseHit, NearestHits;
    var st := StagesOf(store, embed, cfg.candidatePool);
    var ranking := RankingOf(store, embed, cfg, now);
    Members(store, st, cfg, now);
    DedupMembers(Bm25Ids(st.bm25Hits) + st.vecIds);
    UnmatchedRow(store, st.bm25Hits, id);
    assert id in Candidates(st) <==> id in TextIds(store, cfg) || id in NearIds(store, embed, cfg);
    if id in Candidates(st) && Eligible(store, st, id) {
      assert HitFor(store, st, cfg, now, id) in ranking;
      RowHasId(store, st.bm25Hits, id);
      BaseHitId(RowOf(store, st.bm25Hits, id).value, st, cfg, now);
    }
  }

  lemma Members(store: Store, st: Stages, cfg: Config, now: int)
    requires cfg.rrfK >= 0.0
    ensures var ranking := Ranking(store, st, cfg, now);
      && (forall h :: h in ranking ==> h.id in Candidates(st) && Eligible(store, st, h.id))
      && (forall id :: id in Candidates(st) && Eligible(store, st, id) ==> HitFor(store, st, cfg, now, id) in ranking)
      && DistinctHits(ranking) && Descending(ranking, Score)
  {
    hide HitFor, Eligible, Candidates, ScoredHits, SortDesc;
    var hits := ScoredHits(store, st, cfg, now, Candidates(st));
    CandidatesDistinct(st);
    ScoredHitsExact(store, st, cfg, now, Candidates(st));
    SortMembers(hits, Score);
    SortDescending(hits, Score);
    SortDistinctIds(hits);
  }

  lemma Smaller(w: real, a: real, b: real)
    requires w > 0.0 && 0.0 < a < b
    ensures w / a > w / b > 0.0
  {
    assert w / a - w / b == (w * (b - a)) / (a * b);
  }

  lemma ShareFalls(w: real, rrfK: real, p: Option<nat>, q: Option<nat>)
    requires w > 0.0 && rrfK >= 0.0 && NoWorse(p, q)
    ensures Share(w, rrfK, p) >= Share(w, rrfK, q)
    ensures p != q ==> Share(w, rrfK, p) > Share(w, rrfK, q)
  {
    if p.Some? {
      Smaller(w, rrfK + (p.value + 1) as real, rrfK + (p.value + 2) as real);
      if q.Some? && p != q {
        Smaller(w, rrfK + (p.value + 1) as real, rrfK + (q.value + 1) as real);
      }
    }
  }

  // Of two hits of the same positive recency, the one that stands no worse in both lists comes first.
  lemma FusionIsMonotone(store: Store, embed: bool, cfg: Config, now: int, x: nat, y: nat,
                         i: Option<nat>, j: Option<nat>, i': Option<nat>, j': Option<nat>)
    requires cfg.rrfK >= 0.0 && cfg.boost.None? && DistinctIds(store) && cfg.bm25Weight > 0.0 && cfg.vectorWeight > 0.0
    requires var r := RankingOf(store, embed, cfg, now);
      && x < |r| && y < |r| && x != y && r[x].recency == r[y].recency > 0.0
      && PlacedAt(TextIds(store, cfg), r[x].id, i) && PlacedAt(NearIds(store, embed, cfg), r[x].id, j)
      && PlacedAt(TextIds(store, cfg), r[y].id, i') && PlacedAt(NearIds(store, embed, cfg), r[y].id, j')
    requires NoWorse(i, i') && NoWorse(j, j')
    ensures x < y
  {
    hide RankingOf, TextIds, NearIds, Share, PlacedAt, NoWorse, DistinctIds;
    var r := RankingOf(store, embed, cfg, now);
    FusedScore(store, embed, cfg, now, r[x], i, j);
    FusedScore(store, embed, cfg, now, r[y], i', j');
    ShareFalls(cfg.bm25Weight, cfg.rrfK, i, i');
    ShareFalls(cfg.vectorWeight, cfg.rrfK, j, j');
    RankingExactly(store, embed, cfg, now, r[x].id);
    OwnPlace(TextIds(store, cfg), NearIds(store, embed, cfg), r[x].id, r[y].id, i, j, i', j');
    HigherScore(r[x], r[y], Share(cfg.bm25Weight, cfg.rrfK, i), Share(cfg.vectorWeight, cfg.rrfK, j),
                Share(cfg.bm25Weight, cfg.rrfK, i'), Share(cfg.vectorWeight, cfg.rrfK, j'));
  }

  lemma OwnPlace(text: seq<nat>, near: seq<nat>, a: nat, b: nat,
                 i: Option<nat>, j: Option<nat>, i': Option<nat>, j': Option<nat>)
    requires PlacedAt(text, a, i) && PlacedAt(near, a, j) && PlacedAt(text, b, i') && PlacedAt(near, b, j')
    requires a != b && (a in text || a in near)
    ensures i != i' || j != j'
  {
  }

  lemma HigherScore(h: HybridHit, g: HybridHit, a: real, b: real, c: real, d: real)
    requires h.score == (a + b) * h.recency && g.score == (c + d) * g.recency && h.recency == g.recency > 0.0
    requires a >= c && b >= d && (a > c || b > d)
    ensures Score(h) > Score(g)
  {
    assert h.score - g.score == (a + b - (c + d)) * h.recency;
  }

  // ---- the streamed neighbours ----

  // A shown neighbour has its rank among all of them, its summary's columns, its tool and its similarity.
  ghost predicate Shows(store: Store, st: Stages, ids: seq<nat>, h: VectorHit) {
    && h.tool == (if h.id in st.vecTools && st.vecTools[h.id] != "" then Some(st.vecTools[h.id]) else None)
    && h.cosine == (if h.id in st.vecCos then Some(st.vecCos[h.id]) else None)
    && 1 <= h.vecRank <= |ids| && ids[h.vecRank - 1] == h.id && h.id in store.summaries
    && var s := store.summaries[h.id];
       h.eventId == s.eventId && h.text == s.text && h.ts == s.ts
  }

  lemma {:induction false} ShownRows(store: Store, st: Stages, ids: seq<nat>)
    ensures forall h <- Shown(store, st, ids) :: Shows(store, st, ids, h)
  {
    if ids != [] {
      var n := |ids| - 1;
      ShownRows(store, st, ids[..n]);
      forall h | h in Shown(store, st, ids[..n]) ensures Shows(store, st, ids, h) {
        assert Shows(store, st, ids[..n], h);
      }
    }
  }

  lemma {:induction false} ShownRising(store: Store, st: Stages, ids: seq<nat>)
    ensures forall p, q :: 0 <= p < q < |Shown(store, st, ids)| ==> Shown(store, st, ids)[p].vecRank < Shown(store, st, ids)[q].vecRank
  {
    if ids != [] {
      var n := |ids| - 1;
      var before := Shown(store, st, ids[..n]);
      ShownRising(store, st, ids[..n]);
      ShownRows(store, st, ids[..n]);
      forall p | 0 <= p < |before| ensures before[p].vecRank <= n {
        assert Shows(store, st, ids[..n], before[p]);
      }
    }
  }

  lemma {:induction false} ShownAll(store: Store, st: Stages, ids: seq<nat>, i: nat)
    requires i < |ids| && ids[i] in store.summaries
    ensures exists h :: h in Shown(store, st, ids) && h.vecRank == i + 1
  {
    var n := |ids| - 1;
    if i < n {
      ShownAll(store, st, ids[..n], i);
      var h :| h in Shown(store, st, ids[..n]) && h.vecRank == i + 1;
      assert h in Shown(store, st, ids);
    } else {
      var shown := Shown(store, st, ids);
      assert shown[|shown| - 1].vecRank == i + 1;
    }
  }

  // Exactly the neighbours that have a stored summary are shown, nearest first.
  lemma ShownExactly(store: Store, st: Stages, ids: seq<nat>)
    ensures var shown := Shown(store, st, ids);
      && (forall p, q :: 0 <= p < q < |shown| ==> shown[p].vecRank < shown[q].vecRank)
      && (forall h <- shown :: Shows(store, st, ids, h))
      && (forall i :: 0 <= i < |ids| && ids[i] in store.summaries ==> exists h :: h in shown && h.vecRank == i + 1)
  {
    ShownRows(store, st, ids);
    ShownRising(store, st, ids);
    forall i | 0 <= i < |ids| && ids[i] in store.summaries ensures exists h :: h in Shown(store, st, ids) && h.vecRank == i + 1 {
      ShownAll(store, st, ids, i);
    }
  }
}
