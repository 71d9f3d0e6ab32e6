// The sleep-time consolidator: scan the embeddings of live, unpinned summaries in timestamp order and
// mark each summary that a later one nearly duplicates.
module Consolidator {
  import opened Sequences
  import opened Sorting
  import opened Supersedes

  datatype Embedding = Embedding(summaryId: nat, vec: seq<real>, ts: int)

  // Vectors are normalised, so this dot product over the common length is their cosine.
  function Cosine(a: seq<real>, b: seq<real>): real {
    if a == [] || b == [] then 0.0 else a[0] * b[0] + Cosine(a[1..], b[1..])
  }

  lemma {:induction false} CosineSymmetric(a: seq<real>, b: seq<real>)
    ensures Cosine(a, b) == Cosine(b, a)
  {
    if a != [] && b != [] {
      CosineSymmetric(a[1..], b[1..]);
    }
  }

  // One more coordinate on both sides adds its product, and coordinates that only one vector has add nothing.
  lemma {:induction false} CosineIsDot(a: seq<real>, b: seq<real>, x: real, y: real)
    ensures Cosine([], b) == 0.0
    ensures |a| == |b| ==> Cosine(a + [x], b + [y]) == Cosine(a, b) + x * y
    ensures |a| <= |b| ==> Cosine(a, b + [y]) == Cosine(a, b)
  {
    if a != [] && b != [] {
      CosineIsDot(a[1..], b[1..], x, y);
      assert (a + [x])[1..] == a[1..] + [x] && (b + [y])[1..] == b[1..] + [y];
    } else {
      assert [x][1..] == [] && [y][1..] == [];
      assert [] + [x] == [x] && [] + [y] == [y];
    }
  }

  class Database {
    var store: Store
    var embeddings: seq<Embedding>
    var pinned: set<nat>

    // Embeddings are keyed by summary and cascade with it.
    ghost predicate Valid()
      reads this
    {
      && Forest(store)
      && Distinct(embeddings)
      && (forall e :: e in embeddings ==> e.summaryId in store.summaries)
    }

    constructor (summaries: set<nat>, embeddings: seq<Embedding>, pinned: set<nat>)
      requires Distinct(embeddings)
      requires forall e :: e in embeddings ==> e.summaryId in summaries
      ensures Valid() && store == Store(summaries, {})
    {
      ForestStart(summaries);
      this.store, this.embeddings, this.pinned := Store(summaries, {}), embeddings, pinned;
    }
  }

  datatype RunState = Idle | Running | Stopped

  // ---- what a scan of `live` promises ----

  ghost predicate Similar(a: Embedding, b: Embedding, threshold: real) {
    Cosine(a.vec, b.vec) >= threshold
  }

  // Every mark was made by a later, similar embedding.
  ghost predicate Justified(live: seq<Embedding>, threshold: real, marked: set<nat>) {
    forall id :: id in marked ==> exists i, j :: 0 <= j < i < |live| && live[j].summaryId == id && Similar(live[i], live[j], threshold)
  }

  // Among the first n, no two unmarked embeddings are similar.
  ghost predicate Clean(live: seq<Embedding>, threshold: real, marked: set<nat>, n: nat) {
    forall i, j :: 0 <= j < i < n <= |live| && live[j].summaryId !in marked && live[i].summaryId !in marked
      ==> !Similar(live[i], live[j], threshold)
  }

  // No two unmarked embeddings are similar, whichever is compared with the other.
  ghost predicate NoSimilarPair(live: seq<Embedding>, threshold: real, marked: set<nat>) {
    forall a, b :: a in live && b in live && a.summaryId !in marked && b.summaryId !in marked && Similar(a, b, threshold)
      ==> a.summaryId == b.summaryId
  }

  lemma CleanBothWays(live: seq<Embedding>, threshold: real, marked: set<nat>)
    requires Clean(live, threshold, marked, |live|)
    ensures NoSimilarPair(live, threshold, marked)
  {
    forall a, b | a in live && b in live && a.summaryId !in marked && b.summaryId !in marked && Similar(a, b, threshold)
      ensures a.summaryId == b.summaryId
    {
      CosineSymmetric(a.vec, b.vec);
      var i :| 0 <= i < |live| && live[i] == a;
      var j :| 0 <= j < |live| && live[j] == b;
      assert Similar(b, a, threshold);
    }
  }

  ghost predicate Distinct(live: seq<Embedding>) {
    forall i, j :: 0 <= i < j < |live| ==> live[i].summaryId != live[j].summaryId
  }

  // What the scan keeps about the store: it is a forest, unmarked members of `live` are still live,
  // and the marked ones are superseded.
  ghost predicate Scanned(st0: Store, st: Store, live: seq<Embedding>, marked: set<nat>) {
    && Forest(st)
    && st.summaries == st0.summaries
    && st0.links <= st.links
    && (forall e :: e in live ==> e.summaryId in st.summaries)
    && (forall e :: e in live && e.summaryId !in marked ==> !Superseded(st, e.summaryId))
    && (forall l :: l in st.links - st0.links ==> l.older in marked)
    && (forall id :: id in marked ==> exists l :: l in st.links - st0.links && l.older == id)
  }

  lemma MarkOne(st0: Store, st: Store, live: seq<Embedding>, marked: set<nat>, i: nat, j: nat)
    requires Scanned(st0, st, live, marked) && Distinct(live)
    requires j < i < |live| && live[i].summaryId !in marked && live[j].summaryId !in marked
    ensures RecordSupersedes(st, live[i].summaryId, live[j].summaryId).Some?
    ensures Scanned(st0, RecordSupersedes(st, live[i].summaryId, live[j].summaryId).value, live, marked + {live[j].summaryId})
  {
    var newer, older := live[i].summaryId, live[j].summaryId;
    assert live[i] in live && live[j] in live;
    LinkKeepsForest(st, newer, older);
    var st' := RecordSupersedes(st, newer, older).value;
    var link := Link(newer, older);
    assert !Superseded(st, older);
    assert link.older == older && link !in st.links;
    forall e | e in live && e.summaryId !in marked + {older} ensures !Superseded(st', e.summaryId) {
      assert !Superseded(st, e.summaryId);
    }
    forall id | id in marked + {older} ensures exists l :: l in st'.links - st0.links && l.older == id {
      if id == older {
        assert link in st'.links - st0.links;
      } else {
        var l :| l in st.links - st0.links && l.older == id;
        assert l in st'.links - st0.links;
      }
    }
  }

  // Those of some embeddings that are neither superseded nor pinned, oldest first.
  function Sifted(embeddings: seq<Embedding>, dropped: set<nat>, pinned: set<nat>): seq<Embedding> {
    SortDesc(Filter(embeddings, (e: Embedding) => e.summaryId !in dropped && e.summaryId !in pinned), Age)
  }

  function Age(e: Embedding): real {
    -(e.ts as real)
  }

  lemma SiftedFacts(embeddings: seq<Embedding>, dropped: set<nat>, pinned: set<nat>)
    requires Distinct(embeddings)
    ensures var live := Sifted(embeddings, dropped, pinned);
      && Distinct(live) && Descending(live, Age)
      && (forall e :: e in live <==> e in embeddings && e.summaryId !in dropped && e.summaryId !in pinned)
  {
    var keep := (e: Embedding) => e.summaryId !in dropped && e.summaryId !in pinned;
    var chosen := Filter(embeddings, keep);
    FilterMembers(embeddings, keep);
    FilterNoDup(embeddings, keep);
    SortDescending(chosen, Age);
    SortMembers(chosen, Age);
    SortNoDup(chosen, Age);
    var live := Sifted(embeddings, dropped, pinned);
    forall i, j | 0 <= i < j < |live| ensures live[i].summaryId != live[j].summaryId {
      assert live[i] in embeddings && live[j] in embeddings && live[i] != live[j];
    }
  }

  function OlderIds(store: Store): set<nat> {
    set l | l in store.links :: l.older
  }

  // The embeddings a tick compares.
  function LiveOf(store: Store, embeddings: seq<Embedding>, pinned: set<nat>): seq<Embedding> {
    Sifted(embeddings, OlderIds(store), pinned)
  }

  lemma LiveFacts(store: Store, embeddings: seq<Embedding>, pinned: set<nat>)
    requires Forest(store) && Distinct(embeddings)
    requires forall e :: e in embeddings ==> e.summaryId in store.summaries
    ensures var live := LiveOf(store, embeddings, pinned);
      && Distinct(live) && Scanned(store, store, live, {})
      && (forall e :: e in live <==> e in embeddings && !Superseded(store, e.summaryId) && e.summaryId !in pinned)
      && Descending(live, Age)
  {
    hide Sifted, Forest;
    assert forall id :: id in OlderIds(store) <==> Superseded(store, id);
    SiftedFacts(embeddings, OlderIds(store), pinned);
  }

  // Marks come from the part of `live` scanned so far, so the next newer summary is unmarked.
  ghost predicate MarkedBefore(live: seq<Embedding>, marked: set<nat>, n: nat) {
    n <= |live| && forall id :: id in marked ==> exists k :: 0 <= k < n && live[k].summaryId == id
  }

  lemma NextUnmarked(live: seq<Embedding>, marked: set<nat>, i: nat)
    requires Distinct(live) && i < |live| && MarkedBefore(live, marked, i)
    ensures live[i].summaryId !in marked
  {
  }

  lemma MarkedMore(live: seq<Embedding>, marked: set<nat>, i: nat, j: nat)
    requires j < i <= |live| && MarkedBefore(live, marked, i)
    ensures MarkedBefore(live, marked + {live[j].summaryId}, i)
  {
  }

  lemma MarkedLater(live: seq<Embedding>, marked: set<nat>, i: nat)
    requires i < |live| && MarkedBefore(live, marked, i)
    ensures MarkedBefore(live, marked, i + 1)
  {
  }

  // The current newer summary has been compared with every unmarked one before j.
  ghost predicate ComparedTo(live: seq<Embedding>, threshold: real, marked: set<nat>, i: nat, j: nat) {
    i < |live| && forall k :: 0 <= k < j && k < i && live[k].summaryId !in marked ==> !Similar(live[i], live[k], threshold)
  }

  lemma CleanGrows(live: seq<Embedding>, threshold: real, marked: set<nat>, i: nat)
    requires i < |live| && Clean(live, threshold, marked, i) && ComparedTo(live, threshold, marked, i, i)
    ensures Clean(live, threshold, marked, i + 1)
  {
  }

  lemma JustifiedMore(live: seq<Embedding>, threshold: real, marked: set<nat>, i: nat, j: nat)
    requires Justified(live, threshold, marked) && j < i < |live| && Similar(live[i], live[j], threshold)
    ensures Justified(live, threshold, marked + {live[j].summaryId})
  {
  }

  // The scan: newer summaries before i are done, and the one at i has been compared with those before j.
  ghost predicate ScanAt(st0: Store, st: Store, live: seq<Embedding>, threshold: real, marked: set<nat>, i: nat, j: nat) {
    && Distinct(live)
    && Scanned(st0, st, live, marked) && Justified(live, threshold, marked)
    && MarkedBefore(live, marked, i) && Clean(live, threshold, marked, i)
    && (i < |live| ==> ComparedTo(live, threshold, marked, i, j))
  }

  lemma ScanBegins(store: Store, embeddings: seq<Embedding>, pinned: set<nat>, threshold: real)
    requires Forest(store) && Distinct(embeddings)
    requires forall e :: e in embeddings ==> e.summaryId in store.summaries
    ensures ScanAt(store, store, LiveOf(store, embeddings, pinned), threshold, {}, 0, 0)
  {
    hide Forest, LiveOf, Scanned, Descending;
    LiveFacts(store, embeddings, pinned);
  }

  lemma PairPassed(st0: Store, st: Store, live: seq<Embedding>, threshold: real, marked: set<nat>, i: nat, j: nat)
    requires ScanAt(st0, st, live, threshold, marked, i, j) && j < i < |live|
    requires live[j].summaryId in marked || Cosine(live[i].vec, live[j].vec) < threshold
    ensures ScanAt(st0, st, live, threshold, marked, i, j + 1)
  {
    hide Scanned, Justified, MarkedBefore, Clean, ComparedTo, Distinct, Cosine;
    ComparedMore(live, threshold, marked, marked, i, j);
  }

  lemma PairMarked(st0: Store, st: Store, live: seq<Embedding>, threshold: real, marked: set<nat>, i: nat, j: nat)
    requires ScanAt(st0, st, live, threshold, marked, i, j) && j < i < |live|
    requires live[j].summaryId !in marked && Cosine(live[i].vec, live[j].vec) >= threshold
    ensures var r := RecordSupersedes(st, live[i].summaryId, live[j].summaryId);
      r.Some? && ScanAt(st0, r.value, live, threshold, marked + {live[j].summaryId}, i, j + 1)
  {
    hide Scanned, Justified, MarkedBefore, Clean, ComparedTo, Distinct, Cosine, RecordSupersedes;
    NextUnmarked(live, marked, i);
    MarkOne(st0, st, live, marked, i, j);
    JustifiedMore(live, threshold, marked, i, j);
    MarkedMore(live, marked, i, j);
    CleanShrinks(live, threshold, marked, marked + {live[j].summaryId}, i);
    ComparedMore(live, threshold, marked, marked + {live[j].summaryId}, i, j);
  }

  lemma NewerDone(st0: Store, st: Store, live: seq<Embedding>, threshold: real, marked: set<nat>, i: nat)
    requires ScanAt(st0, st, live, threshold, marked, i, i) && i < |live|
    ensures ScanAt(st0, st, live, threshold, marked, i + 1, 0)
  {
    hide Scanned, Justified, MarkedBefore, Clean, ComparedTo, Distinct;
    CleanGrows(live, threshold, marked, i);
    MarkedLater(live, marked, i);
    if i + 1 < |live| {
      ComparedStart(live, threshold, marked, i + 1);
    }
  }

  lemma ScanEnds(st0: Store, st: Store, live: seq<Embedding>, threshold: real, marked: set<nat>, i: nat, j: nat)
    requires ScanAt(st0, st, live, threshold, marked, i, j)
    ensures Forest(st) && st.summaries == st0.summaries
    ensures Scanned(st0, st, live, marked) && Justified(live, threshold, marked)
    ensures i == |live| ==> NoSimilarPair(live, threshold, marked)
  {
    if i == |live| {
      CleanBothWays(live, threshold, marked);
    }
  }

  // The number of pairs among n embeddings.
  function Pairs(n: nat): nat {
    if n == 0 then 0 else Pairs(n - 1) + n - 1
  }

  lemma NoPairs()
    ensures Pairs(0) == 0
  {
  }

  lemma PairsStep(i: nat, n: nat)
    requires i < n
    ensures Pairs(i + 1) == Pairs(i) + i <= Pairs(n)
  {
    PairsMonotone(i + 1, n);
  }

  lemma {:induction false} PairsMonotone(m: nat, n: nat)
    requires m <= n
    ensures Pairs(m) <= Pairs(n)
  {
    if m < n {
      PairsMonotone(m, n - 1);
    }
  }

  class Worker {
    const db: Database
    const interval: int
    const threshold: real
    const minDelta: int
    const pairLimit: int
    var state: RunState
    var lastTotal: nat
    var timer: Option<int>

    constructor (db: Database, interval: int, threshold: real, minDelta: int, pairLimit: int)
      ensures this.db == db && this.interval == interval && this.threshold == threshold
      ensures this.minDelta == minDelta && this.pairLimit == pairLimit
      ensures state == Idle && lastTotal == 0 && timer == None
    {
      this.db, this.interval, this.threshold, this.minDelta, this.pairLimit := db, interval, threshold, minDelta, pairLimit;
      state, lastTotal, timer := Idle, 0, None;
    }

    method Start()
      modifies this
      ensures lastTotal == old(lastTotal)
      ensures old(state) == Idle ==> state == Running && timer == Some(interval)
      ensures old(state) != Idle ==> state == old(state) && timer == old(timer)
    {
      if state != Idle {
        return;
      }
      state := Running;
      timer := Some(interval);
    }

    method Stop()
      modifies this
      ensures state == Stopped && timer == None && lastTotal == old(lastTotal)
    {
      state, timer := Stopped, None;
    }

    // One tick with no other writer in between. The ghost results are the marks made, the number of
    // similarities computed, and whether the pair limit ended the scan.
    method Tick() returns (pairsMarked: nat, scanned: nat, ghost marked: set<nat>, ghost computed: nat, ghost exhausted: bool)
      requires db.Valid()
      modifies this`lastTotal, this`timer, db`store
      ensures db.Valid()
      ensures state == Running ==> timer == Some(interval)
      ensures state == Running && |db.embeddings| - old(lastTotal) >= minDelta ==>
        && lastTotal == |db.embeddings|
        && var live := LiveOf(old(db.store), db.embeddings, db.pinned);
           && scanned == |live| && pairsMarked == |marked|
           && Scanned(old(db.store), db.store, live, marked)
           && Justified(live, threshold, marked)
           && (!exhausted ==> NoSimilarPair(live, threshold, marked))
           && computed <= (if pairLimit > 0 then pairLimit else 0)
           && (exhausted ==> computed == (if pairLimit > 0 then pairLimit else 0) && pairLimit < Pairs(|live|))
      ensures state != Running ==> timer == old(timer)
      ensures state != Running || |db.embeddings| - old(lastTotal) < minDelta ==>
        pairsMarked == 0 && db.store == old(db.store) && lastTotal == old(lastTotal)
    {
      hide Forest, Scanned, Justified, NoSimilarPair, Distinct, ScanAt, LiveOf, Cosine, RecordSupersedes, Pairs;
      pairsMarked, scanned, marked, computed, exhausted := 0, 0, {}, 0, false;
      if state != Running {
        return;
      }
      scanned := |db.embeddings|;
      if |db.embeddings| - lastTotal < minDelta {
        timer := Some(interval);
        return;
      }
      lastTotal := |db.embeddings|;
      ghost var st0 := db.store;
      var live := LiveOf(db.store, db.embeddings, db.pinned);
      ScanBegins(st0, db.embeddings, db.pinned, threshold);
      NoPairs();
      var comparisons := 0;
      var newlySuperseded: set<nat> := {};
      var i := 0;
      label outer:
      while i < |live|
        invariant 0 <= i <= |live| && comparisons == computed && (comparisons == 0 || comparisons <= pairLimit)
        invariant !exhausted && comparisons <= Pairs(i)
        invariant pairsMarked == |newlySuperseded| && marked == newlySuperseded
        invariant ScanAt(st0, db.store, live, threshold, marked, i, 0)
        modifies db`store
      {
        var newer := live[i];
        var j := 0;
        while j < i
          invariant 0 <= j <= i && comparisons == computed && (comparisons == 0 || comparisons <= pairLimit)
          invariant !exhausted && comparisons <= Pairs(i) + j
          invariant pairsMarked == |newlySuperseded| && marked == newlySuperseded
          invariant ScanAt(st0, db.store, live, threshold, marked, i, j)
          modifies db`store
        {
          var older := live[j];
          if older.summaryId in newlySuperseded {
            PairPassed(st0, db.store, live, threshold, marked, i, j);
            j := j + 1;
            continue;
          }
          comparisons := comparisons + 1;
          if comparisons > pairLimit {
            exhausted := true;
            PairsStep(i, |live|);
            ScanEnds(st0, db.store, live, threshold, marked, i, j);
            break outer;
          }
          var sim := Cosine(newer.vec, older.vec);
          computed := computed + 1;
          if sim >= threshold {
            PairMarked(st0, db.store, live, threshold, marked, i, j);
            db.store := RecordSupersedes(db.store, newer.summaryId, older.summaryId).value;
            newlySuperseded := newlySuperseded + {older.summaryId};
            marked := newlySuperseded;
            pairsMarked := pairsMarked + 1;
          } else {
            PairPassed(st0, db.store, live, threshold, marked, i, j);
          }
          j := j + 1;
        }
        PairsStep(i, |live|);
        NewerDone(st0, db.store, live, threshold, marked, i);
        i := i + 1;
      }
      if !exhausted {
        ScanEnds(st0, db.store, live, threshold, marked, i, 0);
      }
      timer := Some(interval);
      scanned := |live|;
    }
  }

  lemma SimilarIs(a: Embedding, b: Embedding, threshold: real)
    ensures Similar(a, b, threshold) <==> Cosine(a.vec, b.vec) >= threshold
  {
  }

  lemma ComparedStart(live: seq<Embedding>, threshold: real, marked: set<nat>, i: nat)
    requires i < |live|
    ensures ComparedTo(live, threshold, marked, i, 0)
  {
  }

  lemma ComparedMore(live: seq<Embedding>, threshold: real, marked: set<nat>, marked': set<nat>, i: nat, j: nat)
    requires ComparedTo(live, threshold, marked, i, j) && j < i && marked <= marked'
    requires live[j].summaryId in marked' || !Similar(live[i], live[j], threshold)
    ensures ComparedTo(live, threshold, marked', i, j + 1)
  {
  }

  lemma CleanShrinks(live: seq<Embedding>, threshold: real, marked: set<nat>, marked': set<nat>, n: nat)
    requires Clean(live, threshold, marked, n) && marked <= marked'
    ensures Clean(live, threshold, marked', n)
  {
  }
}
