// Consolidator ticks at statement granularity, interleaved with new summaries, prunes and sweeps. The
// reads at the start of a tick are separate statements, each mark is one insert, and rows may be
// deleted between any two of them. The daemon may be restarted anywhere, also in the middle of a tick.
module ConsolidatorRuns {
  import opened Sequences
  import opened Sorting
  import opened Supersedes
  import opened Consolidator

  datatype Config = Config(threshold: real, minDelta: int, pairLimit: int)

  datatype Phase =
    | Resting
    | HasAll(all: seq<Embedding>)                          // allEmbeddings has returned
    | HasDropped(all: seq<Embedding>, dropped: set<nat>)   // supersededIds has returned
    | Scanning(live: seq<Embedding>, i: nat, j: nat, marked: set<nat>, computed: nat)
    | Dead                                                 // a mark failed; the tick threw and no other is scheduled

  // Summary ids are assigned in order and never again.
  datatype State = State(store: Store, nextId: nat, lastTotal: nat, phase: Phase)

  datatype Action =
    | ReadAll(all: seq<Embedding>)
    | SkipTick
    | ReadDropped
    | ReadPinned(pinned: set<nat>)
    | SkipMarked
    | Compare
    | NextNewer
    | EndTick
    | AddSummary
    | Remove(gone: set<nat>)
    | Prune
    | Restart

  function Budget(c: Config): nat {
    if c.pairLimit > 0 then c.pairLimit else 0
  }

  predicate AtPair(s: State) {
    s.phase.Scanning? && s.phase.j < s.phase.i < |s.phase.live|
  }

  predicate AtOpenPair(s: State) {
    AtPair(s) && s.phase.live[s.phase.j].summaryId !in s.phase.marked
  }

  ghost predicate Enabled(c: Config, s: State, a: Action) {
    match a
    case ReadAll(all) =>
      // one row a stored summary that has an embedding
      s.phase.Resting? && Distinct(all) && forall e <- all :: e.summaryId in s.store.summaries
    case SkipTick => s.phase.HasAll? && |s.phase.all| - s.lastTotal < c.minDelta
    case ReadDropped => s.phase.HasAll? && |s.phase.all| - s.lastTotal >= c.minDelta
    case ReadPinned(_) => s.phase.HasDropped?
    case SkipMarked => AtPair(s) && !AtOpenPair(s)
    case Compare => AtOpenPair(s) && s.phase.computed < Budget(c)
    case NextNewer => s.phase.Scanning? && s.phase.j == s.phase.i < |s.phase.live|
    case EndTick => s.phase.Scanning? && (s.phase.i == |s.phase.live| || (AtOpenPair(s) && s.phase.computed >= Budget(c)))
    case AddSummary => true
    case Remove(_) => true
    case Prune => true
    case Restart => true
  }

  // Comparing the pair the scan is at, and marking the older one if it is similar.
  function Compared(c: Config, s: State): State
    requires AtPair(s)
  {
    var p := s.phase;
    var newer, older := p.live[p.i], p.live[p.j];
    var next := p.(j := p.j + 1, computed := p.computed + 1);
    if Cosine(newer.vec, older.vec) < c.threshold then s.(phase := next)
    else
      match RecordSupersedes(s.store, newer.summaryId, older.summaryId)
      case Some(store') => s.(store := store', phase := next.(marked := p.marked + {older.summaryId}))
      case None => s.(phase := Dead)
  }

  ghost function Apply(c: Config, s: State, a: Action): State
    requires Enabled(c, s, a)
  {
    match a
    case ReadAll(all) => s.(phase := HasAll(all))
    case SkipTick => s.(phase := Resting)
    case ReadDropped => s.(lastTotal := |s.phase.all|, phase := HasDropped(s.phase.all, OlderIds(s.store)))
    case ReadPinned(pinned) => s.(phase := Scanning(Sifted(s.phase.all, s.phase.dropped, pinned), 0, 0, {}, 0))
    case SkipMarked => s.(phase := s.phase.(j := s.phase.j + 1))
    case Compare => Compared(c, s)
    case NextNewer => s.(phase := s.phase.(i := s.phase.i + 1, j := 0))
    case EndTick => s.(phase := Resting)
    case AddSummary => s.(store := s.store.(summaries := s.store.summaries + {s.nextId}), nextId := s.nextId + 1)
    case Remove(gone) => s.(store := DeleteSummaries(s.store, gone))
    case Prune => s.(store := PruneSuperseded(s.store))
    case Restart => s.(lastTotal := 0, phase := Resting)
  }

  // ---- the invariant ----

  // The summaries the tick under way may still mark or mark by.
  ghost predicate Open(p: Phase, id: nat) {
    match p
    case HasAll(all) => exists e :: e in all && e.summaryId == id
    case HasDropped(all, dropped) => id !in dropped && exists e :: e in all && e.summaryId == id
    case Scanning(live, _, _, marked, _) => id !in marked && exists e :: e in live && e.summaryId == id
    case _ => false
  }

  // What the scan has established about the embeddings it holds, whatever happens to the rows.
  ghost predicate ScanInv(c: Config, p: Phase) {
    p.Scanning? ==>
      && Distinct(p.live) && Descending(p.live, Age)
      && p.i <= |p.live| && p.j <= p.i
      && MarkedBefore(p.live, p.marked, p.i) && Justified(p.live, c.threshold, p.marked)
      && Clean(p.live, c.threshold, p.marked, p.i)
      && (p.i < |p.live| ==> ComparedTo(p.live, c.threshold, p.marked, p.i, p.j))
      && p.computed <= Budget(c)
  }

  // An open summary is not superseded, once the tick has read which are, so a mark always joins two
  // unsuperseded summaries.
  ghost predicate OpenInv(s: State) {
    && (forall id: nat :: Open(s.phase, id) ==> id < s.nextId)
    && (!s.phase.HasAll? ==> forall id: nat :: Open(s.phase, id) ==> !Superseded(s.store, id))
    && (s.phase.HasAll? ==> Distinct(s.phase.all))
    && (s.phase.HasDropped? ==> Distinct(s.phase.all))
  }

  ghost predicate StoreInv(s: State) {
    Forest(s.store) && forall id <- s.store.summaries :: id < s.nextId
  }

  ghost predicate Inv(c: Config, s: State) {
    StoreInv(s) && OpenInv(s) && ScanInv(c, s.phase)
  }

  // Both summaries of the pair the scan is at are open.
  lemma PairIsOpen(c: Config, s: State)
    requires ScanInv(c, s.phase) && AtOpenPair(s)
    ensures var p := s.phase;
      Open(p, p.live[p.i].summaryId) && Open(p, p.live[p.j].summaryId) && p.live[p.i].summaryId != p.live[p.j].summaryId
  {
    NextUnmarked(s.phase.live, s.phase.marked, s.phase.i);
  }

  lemma StoreKept(c: Config, s: State, a: Action)
    requires Inv(c, s) && Enabled(c, s, a)
    ensures StoreInv(Apply(c, s, a))
  {
    hide Forest, Sifted, Cosine;
    match a
    case Compare =>
      var newer, older := s.phase.live[s.phase.i].summaryId, s.phase.live[s.phase.j].summaryId;
      PairIsOpen(c, s);
      if newer in s.store.summaries && older in s.store.summaries {
        LinkKeepsForest(s.store, newer, older);
      }
    case AddSummary => InsertKeepsForest(s.store, s.nextId);
    case Remove(gone) => DeleteKeepsForest(s.store, gone);
    case Prune => DeleteKeepsForest(s.store, OlderIds(s.store));
    case _ =>
  }

  lemma ScanKept(c: Config, s: State, a: Action)
    requires Inv(c, s) && Enabled(c, s, a)
    ensures ScanInv(c, Apply(c, s, a).phase)
  {
    hide Forest, Sifted, Cosine, RecordSupersedes, Clean, Justified, MarkedBefore, ComparedTo, Distinct, Descending, Similar;
    var p := s.phase;
    match a
    case ReadPinned(pinned) => ScanStarts(c, p.all, p.dropped, pinned);
    case SkipMarked => ComparedMore(p.live, c.threshold, p.marked, p.marked, p.i, p.j);
    case Compare => PairKept(c, s);
    case NextNewer =>
      CleanGrows(p.live, c.threshold, p.marked, p.i);
      MarkedLater(p.live, p.marked, p.i);
      if p.i + 1 < |p.live| {
        ComparedStart(p.live, c.threshold, p.marked, p.i + 1);
      }
    case _ =>
  }

  lemma ScanStarts(c: Config, all: seq<Embedding>, dropped: set<nat>, pinned: set<nat>)
    requires Distinct(all)
    ensures ScanInv(c, Scanning(Sifted(all, dropped, pinned), 0, 0, {}, 0))
  {
    SiftedFacts(all, dropped, pinned);
  }

  lemma PairKept(c: Config, s: State)
    requires ScanInv(c, s.phase) && AtOpenPair(s) && s.phase.computed < Budget(c)
    ensures ScanInv(c, Compared(c, s).phase)
  {
    hide Clean, Justified, MarkedBefore, ComparedTo, Distinct, Descending, Similar, Cosine, RecordSupersedes;
    var p := s.phase;
    var newer, older := p.live[p.i], p.live[p.j];
    SimilarIs(newer, older, c.threshold);
    if Similar(newer, older, c.threshold) {
      var marked' := p.marked + {older.summaryId};
      JustifiedMore(p.live, c.threshold, p.marked, p.i, p.j);
      MarkedMore(p.live, p.marked, p.i, p.j);
      CleanShrinks(p.live, c.threshold, p.marked, marked', p.i);
      ComparedMore(p.live, c.threshold, p.marked, marked', p.i, p.j);
    } else {
      ComparedMore(p.live, c.threshold, p.marked, p.marked, p.i, p.j);
    }
  }

  // An action opens no summary but by reading the rows.
  lemma OpenShrinks(c: Config, s: State, a: Action, id: nat)
    requires Inv(c, s) && Enabled(c, s, a) && !a.ReadAll? && Open(Apply(c, s, a).phase, id)
    ensures Open(s.phase, id)
    ensures a.ReadDropped? ==> !Superseded(s.store, id)
    ensures a.Compare? ==> id != s.phase.live[s.phase.j].summaryId || Apply(c, s, a).store == s.store
  {
    hide Forest, Cosine, Descending, Sifted;
    if a.ReadPinned? {
      SiftedFacts(s.phase.all, s.phase.dropped, a.pinned);
    }
  }

  lemma OpenKept(c: Config, s: State, a: Action)
    requires Inv(c, s) && Enabled(c, s, a)
    ensures OpenInv(Apply(c, s, a))
  {
    hide Forest, ScanInv, Cosine, Sifted;
    var t := Apply(c, s, a);
    forall id: nat | Open(t.phase, id) ensures id < t.nextId && (!t.phase.HasAll? ==> !Superseded(t.store, id)) {
      if a.ReadAll? {
        OpenIsStored(s, a.all, id);
      } else {
        OpenShrinks(c, s, a, id);
        if !t.phase.HasAll? {
          LinksAfter(c, s, a, id);
        }
      }
    }
  }

  lemma OpenIsStored(s: State, all: seq<Embedding>, id: nat)
    requires forall e <- all :: e.summaryId in s.store.summaries
    requires Open(HasAll(all), id)
    ensures id in s.store.summaries
  {
  }

  // Only a mark supersedes a summary, the older one of its pair.
  lemma LinksAfter(c: Config, s: State, a: Action, id: nat)
    requires Enabled(c, s, a) && !Superseded(s.store, id)
    requires a.Compare? ==> id != s.phase.live[s.phase.j].summaryId || Apply(c, s, a).store == s.store
    ensures !Superseded(Apply(c, s, a).store, id)
  {
    hide Cosine;
  }

  lemma Kept(c: Config, s: State, a: Action)
    requires Inv(c, s) && Enabled(c, s, a)
    ensures Inv(c, Apply(c, s, a))
  {
    hide StoreInv, OpenInv, ScanInv, Enabled, Apply;
    StoreKept(c, s, a);
    OpenKept(c, s, a);
    ScanKept(c, s, a);
  }

  // ---- runs ----

  ghost predicate Run(c: Config, s: State, run: seq<Action>, t: State)
    decreases |run|
  {
    if run == [] then s == t
    else Enabled(c, s, run[0]) && Run(c, Apply(c, s, run[0]), run[1..], t)
  }

  lemma {:induction false} RunKeeps(c: Config, s: State, run: seq<Action>, t: State)
    requires Inv(c, s) && Run(c, s, run, t)
    ensures Inv(c, t)
    decreases |run|
  {
    if run != [] {
      Kept(c, s, run[0]);
      RunKeeps(c, Apply(c, s, run[0]), run[1..], t);
    }
  }

  // Before the first tick: any summaries, and no links.
  ghost predicate Init(s: State) {
    s.store.links == {} && (forall id <- s.store.summaries :: id < s.nextId) && s.lastTotal == 0 && s.phase.Resting?
  }

  lemma InitInv(c: Config, s: State)
    requires Init(s)
    ensures Inv(c, s)
  {
    ForestStart(s.store.summaries);
  }

  // In every state a run reaches from a store without links: the links form a forest, and following
  // them from any stored summary ends at a stored one that is not superseded.
  lemma EveryRunKeepsTheForest(c: Config, s: State, run: seq<Action>, t: State)
    requires Init(s) && Run(c, s, run, t)
    ensures Forest(t.store)
    ensures forall id :: id in t.store.summaries ==> exists chain :: LeadsLive(t.store, id, chain)
    ensures forall chain :: Climbs(t.store, chain) && |chain| > 1 ==> chain[0] != chain[|chain| - 1]
  {
    InitInv(c, s);
    RunKeeps(c, s, run, t);
    forall id | id in t.store.summaries ensures exists chain :: LeadsLive(t.store, id, chain) {
      var chain := LeadsToLive(t.store, id);
    }
    forall chain | Climbs(t.store, chain) && |chain| > 1 ensures chain[0] != chain[|chain| - 1] {
      NoCycle(t.store, chain);
    }
  }

  // However rows come and go, when a tick ends every mark has a later similar embedding, at most pairLimit
  // similarities were computed, and unless all of them were, no two unmarked embeddings are similar.
  lemma EveryTickMarksDuplicates(c: Config, s: State, run: seq<Action>, t: State)
    requires Init(s) && Run(c, s, run, t) && Enabled(c, t, EndTick)
    ensures var p := t.phase;
      && Descending(p.live, Age)
      && Justified(p.live, c.threshold, p.marked)
      && p.computed <= (if c.pairLimit > 0 then c.pairLimit else 0)
      && (p.computed < c.pairLimit || p.i == |p.live| ==> NoSimilarPair(p.live, c.threshold, p.marked))
  {
    InitInv(c, s);
    RunKeeps(c, s, run, t);
    if t.phase.i == |t.phase.live| {
      CleanBothWays(t.phase.live, c.threshold, t.phase.marked);
    }
  }

  // ---- when a tick dies ----

  // The stored summaries an action deletes.
  ghost function Taken(s: State, a: Action): set<nat> {
    if a.Remove? then a.gone * s.store.summaries
    else if a.Prune? then OlderIds(s.store) * s.store.summaries
    else {}
  }

  // The summaries deleted since the last tick read its rows.
  ghost function TakenSince(s: State, taken: set<nat>, a: Action): set<nat> {
    if a.ReadAll? then {} else taken + Taken(s, a)
  }

  // A mark of a pair of which a summary has been taken.
  ghost predicate Fatal(c: Config, s: State, taken: set<nat>, a: Action) {
    a.Compare? && AtPair(s)
    && var newer, older := s.phase.live[s.phase.i], s.phase.live[s.phase.j];
       Similar(newer, older, c.threshold) && (newer.summaryId in taken || older.summaryId in taken)
  }

  // Some step after the last restart marks a pair of which a summary was deleted since the step's tick read its rows.
  ghost predicate MarksTaken(c: Config, s: State, taken: set<nat>, run: seq<Action>)
    decreases |run|
  {
    run != [] && Enabled(c, s, run[0])
    && ((Fatal(c, s, taken, run[0]) && Restart !in run[1..])
        || MarksTaken(c, Apply(c, s, run[0]), TakenSince(s, taken, run[0]), run[1..]))
  }

  // The open summaries that are gone are those taken.
  ghost predicate Tracks(s: State, taken: set<nat>) {
    forall id: nat :: Open(s.phase, id) ==> (id in s.store.summaries <==> id !in taken)
  }

  lemma TracksKept(c: Config, s: State, taken: set<nat>, a: Action)
    requires Inv(c, s) && Tracks(s, taken) && Enabled(c, s, a)
    ensures Tracks(Apply(c, s, a), TakenSince(s, taken, a))
  {
    hide Forest, ScanInv, Cosine, Sifted, Open, Superseded;
    var t := Apply(c, s, a);
    forall id: nat | Open(t.phase, id) ensures id in t.store.summaries <==> id !in TakenSince(s, taken, a) {
      if a.ReadAll? {
        OpenIsStored(s, a.all, id);
      } else {
        OpenShrinks(c, s, a, id);
      }
    }
  }

  lemma DiesOnlyMarkingTaken(c: Config, s: State, taken: set<nat>, a: Action)
    requires Inv(c, s) && Tracks(s, taken) && Enabled(c, s, a)
    ensures Apply(c, s, a).phase.Dead? <==> (s.phase.Dead? && !a.Restart?) || Fatal(c, s, taken, a)
  {
    hide Forest, ScanInv, Cosine, Sifted, Open, OpenInv;
    if a.Compare? {
      PairIsOpen(c, s);
      SimilarIs(s.phase.live[s.phase.i], s.phase.live[s.phase.j], c.threshold);
    }
  }

  lemma {:induction false} RunDies(c: Config, s: State, taken: set<nat>, run: seq<Action>, t: State)
    requires Inv(c, s) && Tracks(s, taken) && Run(c, s, run, t)
    ensures t.phase.Dead? <==> (s.phase.Dead? && Restart !in run) || MarksTaken(c, s, taken, run)
    decreases |run|
  {
    hide Inv, Tracks, Enabled, Apply, Fatal;
    if run != [] {
      var a := run[0];
      Kept(c, s, a);
      TracksKept(c, s, taken, a);
      DiesOnlyMarkingTaken(c, s, taken, a);
      RunDies(c, Apply(c, s, a), TakenSince(s, taken, a), run[1..], t);
    }
  }

  // The consolidator is dead after a run exactly when, since the last restart, some tick marked a pair of which
  // a summary had been deleted since that tick read its rows.
  lemma TickDies(c: Config, s: State, run: seq<Action>, t: State)
    requires Init(s) && Run(c, s, run, t)
    ensures t.phase.Dead? <==> MarksTaken(c, s, {}, run)
  {
    InitInv(c, s);
    RunDies(c, s, {}, run, t);
  }

  // ---- which deletions are harmless ----

  // A superseded prune takes no open summary once the tick knows which are superseded.
  lemma PruneTakesNothingOpen(c: Config, s: State, id: nat)
    requires Inv(c, s) && !s.phase.HasAll? && Open(s.phase, id)
    ensures id !in Taken(s, Prune)
  {
    hide ScanInv, Forest, Open;
  }

  // Summaries are removed only between ticks, and superseded ones not between a tick's first two reads.
  ghost predicate Harmless(s: State, a: Action) {
    && (a.Remove? ==> s.phase.Resting?)
    && (a.Prune? ==> !s.phase.HasAll?)
  }

  ghost predicate HarmlessRun(c: Config, s: State, run: seq<Action>)
    decreases |run|
  {
    run == [] || (Enabled(c, s, run[0]) && Harmless(s, run[0]) && HarmlessRun(c, Apply(c, s, run[0]), run[1..]))
  }

  ghost predicate OpenStored(s: State) {
    !s.phase.Dead? && forall id: nat :: Open(s.phase, id) ==> id in s.store.summaries
  }

  lemma HarmlessKeeps(c: Config, s: State, a: Action)
    requires Inv(c, s) && OpenStored(s) && Enabled(c, s, a) && Harmless(s, a)
    ensures OpenStored(Apply(c, s, a))
  {
    hide Inv, Enabled, Apply, Fatal;
    assert Tracks(s, {});
    TracksKept(c, s, {}, a);
    DiesOnlyMarkingTaken(c, s, {}, a);
    NothingFatal(c, s, a);
    forall id: nat | Open(Apply(c, s, a).phase, id) ensures id !in TakenSince(s, {}, a) {
      if !a.ReadAll? {
        OpenShrinks(c, s, a, id);
        if a.Prune? {
          PruneTakesNothingOpen(c, s, id);
        }
      }
    }
  }

  lemma NothingFatal(c: Config, s: State, a: Action)
    ensures !Fatal(c, s, {}, a)
  {
  }

  // So such deletions never kill a tick.
  lemma {:induction false} HarmlessRunSurvives(c: Config, s: State, run: seq<Action>, t: State)
    requires Inv(c, s) && OpenStored(s) && Run(c, s, run, t) && HarmlessRun(c, s, run)
    ensures !t.phase.Dead?
    decreases |run|
  {
    hide Inv, Enabled, Apply, Harmless;
    if run != [] {
      Kept(c, s, run[0]);
      HarmlessKeeps(c, s, run[0]);
      HarmlessRunSurvives(c, Apply(c, s, run[0]), run[1..], t);
    }
  }

  // ---- a prune that kills ----

  lemma {:induction false} RunThen(c: Config, s: State, run: seq<Action>, t: State, a: Action)
    requires Run(c, s, run, t) && Enabled(c, t, a)
    ensures Run(c, s, run + [a], Apply(c, t, a))
    decreases |run|
  {
    hide Enabled, Apply;
    if run == [] {
      assert [] + [a] == [a] && [a][1..] == [];
    } else {
      assert (run + [a])[1..] == run[1..] + [a];
      RunThen(c, Apply(c, s, run[0]), run[1..], t, a);
    }
  }

  const OLD := Embedding(0, [1.0], 0)
  const NEW := Embedding(1, [1.0], 1)
  const EAGER := Config(0.95, 0, 5000)

  lemma BothSifted()
    ensures Sifted([OLD, NEW], {}, {}) == [OLD, NEW]
    ensures Cosine(NEW.vec, OLD.vec) == 1.0
  {
    NothingSifted([OLD, NEW]);
    assert [OLD, NEW][1..] == [NEW] && [NEW][1..] == [];
    assert SortDesc([NEW], Age) == Insert(NEW, [], Age) == [NEW];
  }

  lemma NothingSifted(all: seq<Embedding>)
    ensures Sifted(all, {}, {}) == SortDesc(all, Age)
  {
    var dropped, pinned: set<nat> := {}, {};
    FilterAll(all, (e: Embedding) => e.summaryId !in dropped && e.summaryId !in pinned);
    assert Sifted(all, dropped, pinned) == SortDesc(all, Age);
  }

  // A tick over the two embeddings, with a step put in after its first read, up to its comparison.
  lemma UpToCompare(s0: State, run: seq<Action>, s: State, between: Action) returns (more: seq<Action>, t: State)
    requires Run(EAGER, s0, run, s) && s.phase.Resting? && s.lastTotal <= 2 && {0, 1} <= s.store.summaries
    requires between == AddSummary || between == Prune
    requires var u := Apply(EAGER, s.(phase := HasAll([OLD, NEW])), between); OlderIds(u.store) == {}
    ensures Run(EAGER, s0, more, t) && Enabled(EAGER, t, Compare)
    ensures var u := Apply(EAGER, s.(phase := HasAll([OLD, NEW])), between);
      t == State(u.store, u.nextId, 2, Scanning([OLD, NEW], 1, 0, {}, 0))
    ensures more == run + [ReadAll([OLD, NEW]), between, ReadDropped, ReadPinned({}), NextNewer]
  {
    hide Run;
    BothSifted();
    var s1 := s.(phase := HasAll([OLD, NEW]));
    RunThen(EAGER, s0, run, s, ReadAll([OLD, NEW]));
    var s2 := Apply(EAGER, s1, between);
    RunThen(EAGER, s0, run + [ReadAll([OLD, NEW])], s1, between);
    var run2 := run + [ReadAll([OLD, NEW])] + [between];
    var s3 := s2.(lastTotal := 2, phase := HasDropped([OLD, NEW], {}));
    RunThen(EAGER, s0, run2, s2, ReadDropped);
    var s4 := s3.(phase := Scanning([OLD, NEW], 0, 0, {}, 0));
    RunThen(EAGER, s0, run2 + [ReadDropped], s3, ReadPinned({}));
    t := s3.(phase := Scanning([OLD, NEW], 1, 0, {}, 0));
    RunThen(EAGER, s0, run2 + [ReadDropped] + [ReadPinned({})], s4, NextNewer);
    more := run2 + [ReadDropped] + [ReadPinned({})] + [NextNewer];
    assert more == run + [ReadAll([OLD, NEW]), between, ReadDropped, ReadPinned({}), NextNewer];
  }

  // Two near-duplicates: the first tick marks the older one; in the second a prune between the first two reads
  // deletes it together with its link, so the tick takes it for live, marks it again, and dies.
  lemma PruneBetweenReadsKills() returns (s: State, run: seq<Action>, t: State)
    ensures Init(s) && Run(EAGER, s, run, t) && t.phase.Dead?
    ensures forall a <- run :: !a.Remove?
  {
    hide Run;
    BothSifted();
    s := State(Store({0, 1}, {}), 2, 0, Resting);
    NoSteps(EAGER, s);
    assert OlderIds(Store({0, 1, 2}, {})) == {};
    var run1, s1 := UpToCompare(s, [], s, AddSummary);
    RunThen(EAGER, s, run1, s1, Compare);
    var s2 := Apply(EAGER, s1, Compare);
    assert s2.store == Store({0, 1, 2}, {Link(1, 0)});
    RunThen(EAGER, s, run1 + [Compare], s2, NextNewer);
    var s3 := Apply(EAGER, s2, NextNewer);
    RunThen(EAGER, s, run1 + [Compare] + [NextNewer], s3, EndTick);
    var s4 := Apply(EAGER, s3, EndTick);
    assert OlderIds(PruneSuperseded(s4.store)) == {};
    var run2, s5 := UpToCompare(s, run1 + [Compare] + [NextNewer] + [EndTick], s4, Prune);
    assert 0 in OlderIds(s4.store);
    RunThen(EAGER, s, run2, s5, Compare);
    run, t := run2 + [Compare], Apply(EAGER, s5, Compare);
  }

  lemma NoSteps(c: Config, s: State)
    ensures Run(c, s, [], s)
  {
  }
}
