// What a tick leaves behind, step by step and over whole runs: its marks are stored, every link comes from a pair of
// similar summaries, and every tick ends.
module ConsolidatorMarks {
  import opened Sequences
  import opened Sorting
  import opened Supersedes
  import opened Consolidator
  import opened ConsolidatorRuns

  // ---- marks are stored ----

  // A mark is a stored link from a later, similar summary, unless one of the two has been taken.
  ghost predicate MarkStands(c: Config, live: seq<Embedding>, store: Store, taken: set<nat>, id: nat) {
    exists i, j :: 0 <= j < i < |live| && live[j].summaryId == id && Similar(live[i], live[j], c.threshold)
      && (Link(live[i].summaryId, id) in store.links || live[i].summaryId in taken || id in taken)
  }

  ghost predicate MarksInv(c: Config, s: State, taken: set<nat>) {
    s.phase.Scanning? ==> forall id <- s.phase.marked :: MarkStands(c, s.phase.live, s.store, taken, id)
  }

  // Links go only with one of their summaries.
  lemma LinksStay(s: State, gone: set<nat>, l: Link)
    requires Forest(s.store) && l in s.store.links
    ensures l in DeleteSummaries(s.store, gone).links || l.newer in gone * s.store.summaries || l.older in gone * s.store.summaries
  {
  }

  lemma LinkAfter(c: Config, s: State, a: Action, taken: set<nat>, l: Link)
    requires StoreInv(s) && Enabled(c, s, a) && !a.ReadAll?
    requires l in s.store.links || l.newer in taken || l.older in taken
    ensures var t := Apply(c, s, a); var now := TakenSince(s, taken, a);
      l in t.store.links || l.newer in now || l.older in now
  {
    hide Forest, Cosine, Sifted;
    if l in s.store.links && a.Remove? {
      LinksStay(s, a.gone, l);
    } else if l in s.store.links && a.Prune? {
      LinksStay(s, OlderIds(s.store), l);
    }
  }

  lemma MarksKept(c: Config, s: State, taken: set<nat>, a: Action)
    requires Inv(c, s) && MarksInv(c, s, taken) && Enabled(c, s, a)
    ensures MarksInv(c, Apply(c, s, a), TakenSince(s, taken, a))
  {
    hide StoreInv, OpenInv, Cosine, Sifted, Similar, MarkStands;
    var t, now := Apply(c, s, a), TakenSince(s, taken, a);
    if t.phase.Scanning? && s.phase.Scanning? {
      forall id | id in t.phase.marked ensures MarkStands(c, t.phase.live, t.store, now, id) {
        if id in s.phase.marked {
          OldMark(c, s, taken, a, id);
        } else {
          NewMark(c, s, taken, a, id);
        }
      }
    }
  }

  lemma OldMark(c: Config, s: State, taken: set<nat>, a: Action, id: nat)
    requires StoreInv(s) && s.phase.Scanning? && Enabled(c, s, a) && !a.ReadAll? && Apply(c, s, a).phase.Scanning?
    requires MarkStands(c, s.phase.live, s.store, taken, id)
    ensures Apply(c, s, a).phase.live == s.phase.live
    ensures MarkStands(c, s.phase.live, Apply(c, s, a).store, TakenSince(s, taken, a), id)
  {
    hide StoreInv, Cosine, Sifted, Similar, TakenSince;
    var live := s.phase.live;
    var i, j :| 0 <= j < i < |live| && live[j].summaryId == id && Similar(live[i], live[j], c.threshold)
      && (Link(live[i].summaryId, id) in s.store.links || live[i].summaryId in taken || id in taken);
    LinkAfter(c, s, a, taken, Link(live[i].summaryId, id));
  }

  lemma NewMark(c: Config, s: State, taken: set<nat>, a: Action, id: nat)
    requires s.phase.Scanning? && Enabled(c, s, a) && Apply(c, s, a).phase.Scanning?
    requires id in Apply(c, s, a).phase.marked && id !in s.phase.marked
    ensures MarkStands(c, s.phase.live, Apply(c, s, a).store, TakenSince(s, taken, a), id)
  {
    hide Cosine, Sifted;
    var live, i, j := s.phase.live, s.phase.i, s.phase.j;
    assert Link(live[i].summaryId, id) in Apply(c, s, a).store.links && live[j].summaryId == id;
    assert Similar(live[i], live[j], c.threshold);
  }

  // The summaries deleted in a run since its last tick read its rows.
  ghost function TakenIn(c: Config, s: State, taken: set<nat>, run: seq<Action>): set<nat>
    decreases |run|
  {
    if run == [] || !Enabled(c, s, run[0]) then taken
    else TakenIn(c, Apply(c, s, run[0]), TakenSince(s, taken, run[0]), run[1..])
  }

  lemma {:induction false} RunKeepsMarks(c: Config, s: State, taken: set<nat>, run: seq<Action>, t: State)
    requires Inv(c, s) && MarksInv(c, s, taken) && Run(c, s, run, t)
    ensures MarksInv(c, t, TakenIn(c, s, taken, run))
    decreases |run|
  {
    hide Inv, MarksInv, Enabled, Apply, TakenSince;
    if run != [] {
      Kept(c, s, run[0]);
      MarksKept(c, s, taken, run[0]);
      RunKeepsMarks(c, Apply(c, s, run[0]), TakenSince(s, taken, run[0]), run[1..], t);
    }
  }

  // At any moment of a tick, whatever others do, each of its marks is stored as a link from a later similar summary,
  // unless one of the two was deleted since the tick read the rows.
  lemma MarksAreStored(c: Config, s: State, run: seq<Action>, t: State, id: nat)
    requires Init(s) && Run(c, s, run, t) && t.phase.Scanning? && id in t.phase.marked
    ensures MarkStands(c, t.phase.live, t.store, TakenIn(c, s, {}, run), id)
  {
    hide MarkStands;
    InitInv(c, s);
    RunKeepsMarks(c, s, {}, run, t);
  }

  // ---- where links come from ----

  // Some tick read both embeddings, and they were similar.
  ghost predicate ReadSimilar(c: Config, past: seq<Action>, l: Link) {
    exists all, a: Embedding, b: Embedding :: ReadAll(all) in past && a in all && b in all
      && a.summaryId == l.newer && b.summaryId == l.older && a.ts >= b.ts && Similar(a, b, c.threshold)
  }

  ghost predicate Held(past: seq<Action>, p: Phase) {
    match p
    case HasAll(all) => ReadAll(all) in past
    case HasDropped(all, _) => ReadAll(all) in past
    case Scanning(live, _, _, _, _) => exists all :: ReadAll(all) in past && forall e <- live :: e in all
    case _ => true
  }

  ghost predicate LinksInv(c: Config, past: seq<Action>, s: State) {
    && Held(past, s.phase)
    && forall l <- s.store.links :: ReadSimilar(c, past, l)
  }

  lemma HeldKept(c: Config, past: seq<Action>, s: State, a: Action)
    requires Inv(c, s) && Held(past, s.phase) && Enabled(c, s, a)
    ensures Held(past + [a], Apply(c, s, a).phase)
  {
    hide StoreInv, Cosine, Sifted, ScanInv;
    if s.phase.Scanning? {
      var all :| ReadAll(all) in past && forall e <- s.phase.live :: e in all;
      assert ReadAll(all) in past + [a];
    } else if a.ReadPinned? {
      SiftedFacts(s.phase.all, s.phase.dropped, a.pinned);
    }
  }

  lemma ReadSimilarStays(c: Config, past: seq<Action>, a: Action, l: Link)
    requires ReadSimilar(c, past, l)
    ensures ReadSimilar(c, past + [a], l)
  {
    hide Similar;
    var all, x: Embedding, y: Embedding :| ReadAll(all) in past && x in all && y in all
      && x.summaryId == l.newer && y.summaryId == l.older && x.ts >= y.ts && Similar(x, y, c.threshold);
    assert ReadAll(all) in past + [a];
  }

  // Only a comparison adds a link, that of its pair.
  lemma NewLink(c: Config, s: State, a: Action, l: Link)
    requires Enabled(c, s, a) && l in Apply(c, s, a).store.links && l !in s.store.links
    ensures a.Compare?
    ensures var p := s.phase; l == Link(p.live[p.i].summaryId, p.live[p.j].summaryId) && Similar(p.live[p.i], p.live[p.j], c.threshold)
  {
    hide Cosine, Sifted;
  }

  lemma PairWasRead(c: Config, past: seq<Action>, s: State)
    requires ScanInv(c, s.phase) && Held(past, s.phase) && AtPair(s)
    requires var p := s.phase; Similar(p.live[p.i], p.live[p.j], c.threshold)
    ensures var p := s.phase; ReadSimilar(c, past, Link(p.live[p.i].summaryId, p.live[p.j].summaryId))
  {
    hide Similar, Clean, Justified, MarkedBefore, ComparedTo, Distinct;
    var p := s.phase;
    var a, b := p.live[p.i], p.live[p.j];
    assert Age(b) >= Age(a);
    assert a in p.live && b in p.live;
  }

  lemma LinksKept(c: Config, past: seq<Action>, s: State, a: Action)
    requires Inv(c, s) && LinksInv(c, past, s) && Enabled(c, s, a)
    ensures LinksInv(c, past + [a], Apply(c, s, a))
  {
    hide StoreInv, OpenInv, ScanInv, Held, ReadSimilar, Similar, Apply, Enabled;
    HeldKept(c, past, s, a);
    forall l | l in Apply(c, s, a).store.links ensures ReadSimilar(c, past + [a], l) {
      if l !in s.store.links {
        NewLink(c, s, a, l);
        ComparesPair(c, s);
        PairWasRead(c, past, s);
      }
      ReadSimilarStays(c, past, a, l);
    }
  }

  lemma ComparesPair(c: Config, s: State)
    ensures Enabled(c, s, Compare) ==> AtPair(s)
  {
  }

  // ---- what the counters count ----

  // How many embeddings the last reading of them found.
  ghost function LastRead(past: seq<Action>): nat {
    if past == [] then 0
    else if past[|past| - 1].ReadAll? then |past[|past| - 1].all|
    else LastRead(past[..|past| - 1])
  }

  // How many the last scan since the daemon started began with.
  ghost function LastScanned(past: seq<Action>): nat {
    if past == [] || past[|past| - 1].Restart? then 0
    else if past[|past| - 1].ReadDropped? then LastRead(past[..|past| - 1])
    else LastScanned(past[..|past| - 1])
  }

  // How many similarities were computed since the last scan began.
  ghost function Comparisons(past: seq<Action>): nat {
    if past == [] || past[|past| - 1].ReadPinned? then 0
    else Comparisons(past[..|past| - 1]) + if past[|past| - 1].Compare? then 1 else 0
  }

  ghost predicate CountersInv(past: seq<Action>, s: State) {
    && (s.phase.HasAll? || s.phase.HasDropped? ==> |s.phase.all| == LastRead(past))
    && s.lastTotal == LastScanned(past)
    && (s.phase.Scanning? ==> s.phase.computed == Comparisons(past))
  }

  lemma CountersKept(c: Config, past: seq<Action>, s: State, a: Action)
    requires CountersInv(past, s) && Enabled(c, s, a)
    ensures CountersInv(past + [a], Apply(c, s, a))
  {
    hide Cosine, Sifted, RecordSupersedes, Distinct;
    assert (past + [a])[..|past|] == past;
  }

  lemma {:induction false} RunTells(c: Config, past: seq<Action>, s: State, run: seq<Action>, t: State)
    requires Inv(c, s) && LinksInv(c, past, s) && CountersInv(past, s) && Run(c, s, run, t)
    ensures LinksInv(c, past + run, t) && CountersInv(past + run, t)
    decreases |run|
  {
    hide Inv, LinksInv, CountersInv, Enabled, Apply;
    if run == [] {
      assert past + run == past;
    } else {
      Kept(c, s, run[0]);
      LinksKept(c, past, s, run[0]);
      CountersKept(c, past, s, run[0]);
      RunTells(c, past + [run[0]], Apply(c, s, run[0]), run[1..], t);
      assert past + [run[0]] + run[1..] == past + run;
    }
  }

  // In every state a run reaches, each link joins two summaries that a tick has read and found similar, the newer one
  // not older.
  lemma LinksAreSimilar(c: Config, s: State, run: seq<Action>, t: State)
    requires Init(s) && Run(c, s, run, t)
    ensures forall l <- t.store.links :: ReadSimilar(c, run, l)
  {
    hide ReadSimilar, Inv, Run, CountersInv;
    InitInv(c, s);
    InitCounts(s);
    RunTells(c, [], s, run, t);
    assert [] + run == run;
  }

  lemma InitCounts(s: State)
    requires Init(s)
    ensures CountersInv([], s)
  {
  }

  // A tick goes on to scan exactly when at least minDelta embeddings were added since the last scan of this daemon; and
  // a scan computes at most pairLimit similarities.
  lemma TicksCount(c: Config, s: State, run: seq<Action>, t: State)
    requires Init(s) && Run(c, s, run, t)
    ensures t.phase.HasAll? ==>
      && (Enabled(c, t, ReadDropped) <==> LastRead(run) - LastScanned(run) >= c.minDelta)
      && (Enabled(c, t, SkipTick) <==> LastRead(run) - LastScanned(run) < c.minDelta)
    ensures t.phase.Scanning? ==>
      && Comparisons(run) <= (if c.pairLimit > 0 then c.pairLimit else 0)
      && (Enabled(c, t, Compare) ==> Comparisons(run) < c.pairLimit)
  {
    hide LinksInv, StoreInv, OpenInv, Run;
    InitInv(c, s);
    InitCounts(s);
    InitLinks(c, s);
    RunTells(c, [], s, run, t);
    RunKeeps(c, s, run, t);
    assert [] + run == run;
  }

  lemma InitLinks(c: Config, s: State)
    requires Init(s)
    ensures LinksInv(c, [], s)
  {
  }

  // ---- what others do ----

  // Inserts, deletions, prunes and restarts can come between any two steps of a tick.
  lemma OthersAnytime(c: Config, s: State, gone: set<nat>)
    ensures Enabled(c, s, AddSummary) && Apply(c, s, AddSummary).store.summaries == s.store.summaries + {s.nextId}
    ensures Enabled(c, s, Remove(gone)) && Enabled(c, s, Prune) && Enabled(c, s, Restart)
    ensures forall id :: id in Apply(c, s, Remove(gone)).store.summaries <==> id in s.store.summaries && id !in gone
    ensures forall id :: id in Apply(c, s, Prune).store.summaries <==>
      id in s.store.summaries && forall l <- s.store.links :: l.older != id
    ensures forall l :: l in Apply(c, s, Remove(gone)).store.links <==> l in s.store.links && l.newer !in gone && l.older !in gone
    ensures Apply(c, s, Restart) == s.(lastTotal := 0, phase := Resting)
  {
  }

  // ---- every tick ends ----

  predicate TickStep(a: Action) {
    a.SkipTick? || a.ReadDropped? || a.ReadPinned? || a.SkipMarked? || a.Compare? || a.NextNewer? || a.EndTick?
  }

  // The pairs a scan of n embeddings has before it, and its outer steps.
  ghost function Ahead(n: nat, i: nat, j: nat): nat
    requires j <= i <= n
  {
    (n - i) * (n + 1) + (i - j)
  }

  // How many steps a tick has left at most.
  ghost function StepsLeft(c: Config, p: Phase): nat
    requires ScanInv(c, p)
  {
    match p
    case HasAll(all) => Ahead(|all|, 0, 0) + 3
    case HasDropped(all, _) => Ahead(|all|, 0, 0) + 2
    case Scanning(live, i, j, _, _) => Ahead(|live|, i, j) + 1
    case _ => 0
  }

  lemma AheadFalls(n: nat, i: nat, j: nat)
    requires j <= i <= n
    ensures j < i ==> Ahead(n, i, j + 1) == Ahead(n, i, j) - 1
    ensures i < n ==> Ahead(n, i + 1, 0) < Ahead(n, i, i)
  {
    assert (n - i) * (n + 1) == (n - i - 1) * (n + 1) + (n + 1);
  }

  lemma {:induction false} AheadOfFewer(m: nat, n: nat)
    requires m <= n
    ensures Ahead(m, 0, 0) <= Ahead(n, 0, 0)
  {
    assert n * (n + 1) - m * (m + 1) == (n - m) * (n + m + 1);
  }

  lemma SiftedIsFewer(all: seq<Embedding>, dropped: set<nat>, pinned: set<nat>)
    ensures |Sifted(all, dropped, pinned)| <= |all|
  {
  }

  // Each step of a tick leaves it fewer.
  lemma TickStepsDown(c: Config, s: State, a: Action)
    requires Inv(c, s) && Enabled(c, s, a) && TickStep(a)
    ensures ScanInv(c, Apply(c, s, a).phase)
    ensures StepsLeft(c, Apply(c, s, a).phase) < StepsLeft(c, s.phase)
  {
    hide Ahead, Cosine, Sifted, RecordSupersedes, Clean, Justified, MarkedBefore, ComparedTo, Distinct, Descending, Similar,
      StoreInv, OpenInv;
    ScanKept(c, s, a);
    if s.phase.Scanning? {
      AheadFalls(|s.phase.live|, s.phase.i, s.phase.j);
    } else if a.ReadPinned? {
      SiftedIsFewer(s.phase.all, s.phase.dropped, a.pinned);
      AheadOfFewer(|Sifted(s.phase.all, s.phase.dropped, a.pinned)|, |s.phase.all|);
    }
  }

  // And a tick under way can always take one.
  lemma TickGoesOn(c: Config, s: State) returns (a: Action)
    requires Inv(c, s) && !s.phase.Resting? && !s.phase.Dead?
    ensures TickStep(a) && Enabled(c, s, a)
  {
    hide StoreInv, OpenInv, Clean, Justified, MarkedBefore, ComparedTo, Distinct, Descending;
    match s.phase
    case HasAll(all) => a := if |all| - s.lastTotal < c.minDelta then SkipTick else ReadDropped;
    case HasDropped(_, _) => a := ReadPinned({});
    case Scanning(live, i, j, _, computed) =>
      a := if i == |live| then EndTick
           else if j == i then NextNewer
           else if !AtOpenPair(s) then SkipMarked
           else if computed < Budget(c) then Compare
           else EndTick;
  }

  // Left to itself, a tick comes to rest, or dies, after a bounded number of steps.
  lemma {:induction false} TickEnds(c: Config, s: State) returns (run: seq<Action>, t: State)
    requires Inv(c, s)
    ensures Run(c, s, run, t) && (t.phase.Resting? || t.phase.Dead?) && |run| <= StepsLeft(c, s.phase)
    ensures forall a <- run :: TickStep(a)
    decreases StepsLeft(c, s.phase)
  {
    hide Inv, Enabled, Apply, StepsLeft;
    run, t := [], s;
    if !s.phase.Resting? && !s.phase.Dead? {
      var a := TickGoesOn(c, s);
      Kept(c, s, a);
      TickStepsDown(c, s, a);
      var more;
      more, t := TickEnds(c, Apply(c, s, a));
      run := [a] + more;
      assert run[1..] == more;
    }
  }
}
