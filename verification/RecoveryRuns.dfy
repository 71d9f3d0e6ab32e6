// Every run of captures, deletions, crashes and boots, one statement or append a step.
module RecoveryRuns {
  import opened Sequences
  import opened Ndjson
  import opened Wal
  import opened Recovery

  // A capture awaits its session insert, then appends to the log, then awaits its event insert.
  datatype CaptureStep = ToEnsure | ToLog | ToRecord

  datatype Flight = Flight(capture: Capture, step: CaptureStep)

  // The boot loop's place in its body.
  datatype BootStep = ToSession | ToCheck | ToInsert

  datatype Phase =
    | Down
    | Booting(docs: seq<Json>, at: nat, step: BootStep)
    | Up(flights: seq<Flight>)

  // The last three fields are history: entries appended since the log was last cut, entries whose append
  // ever finished, and keys of rows that a prune or a sweep removed and that were not appended or stored since.
  datatype State = State(file: string, torn: Torn, sessions: map<string, int>, events: seq<Row>, phase: Phase,
                         logged: seq<Entry>, finished: seq<Entry>, deleted: set<Key>)

  datatype Action =
    | Arrive(capture: Capture)
    | Advance(i: nat)
    | Crash
    | CrashInAppend(i: nat, k: nat)
    | StartBoot
    | StepBoot
    | CutLog
    | Delete(keys: set<Key>)

  function Init(): State {
    State("", Whole, map[], [], Down, [], [], {})
  }

  predicate Enabled(hash: Hash, s: State, a: Action) {
    match a
    case Arrive(_) => s.phase.Up?
    case Advance(i) => s.phase.Up? && i < |s.phase.flights|
    case Crash => true
    case CrashInAppend(i, k) =>
      && s.phase.Up? && i < |s.phase.flights| && s.phase.flights[i].step == ToLog
      && k < |Line(EntryOf(hash, s.phase.flights[i].capture))|
    case StartBoot => s.phase.Down?
    case StepBoot => s.phase.Booting? && s.phase.at < |s.phase.docs|
    case CutLog => s.phase.Booting? && s.phase.at == |s.phase.docs|
    case Delete(_) => s.phase.Up?
  }

  function Remaining(events: seq<Row>, keys: set<Key>): seq<Row> {
    Filter(events, (r: Row) => KeyOf(r) !in keys)
  }

  function Removed(events: seq<Row>, keys: set<Key>): set<Key> {
    set r | r in events && KeyOf(r) in keys :: KeyOf(r)
  }

  function Advanced(hash: Hash, s: State, i: nat): State
    requires s.phase.Up? && i < |s.phase.flights|
  {
    var fs := s.phase.flights;
    var c := fs[i].capture;
    match fs[i].step
    case ToEnsure =>
      s.(sessions := EnsureSession(s.sessions, c.sessionId, c.ts), phase := Up(fs[i := Flight(c, ToLog)]))
    case ToLog =>
      var e := EntryOf(hash, c);
      s.(file := s.file + Line(e), logged := s.logged + [e], finished := s.finished + [e],
         deleted := s.deleted - {EntryKey(e)}, phase := Up(fs[i := Flight(c, ToRecord)]))
    case ToRecord =>
      var row := RowOf(hash, c);
      s.(events := InsertOrIgnore(s.events, row), deleted := s.deleted - {KeyOf(row)}, phase := Up(fs[..i] + fs[i + 1..]))
  }

  function BootStepped(hash: Hash, s: State): State
    requires s.phase.Booting? && s.phase.at < |s.phase.docs|
  {
    var p := s.phase;
    var next := Booting(p.docs, p.at + 1, ToSession);
    match AsEntry(p.docs[p.at])
    case None => s.(phase := next)
    case Some(e) =>
      match p.step
      case ToSession => s.(sessions := EnsureSession(s.sessions, e.sessionId, e.ts), phase := p.(step := ToCheck))
      case ToCheck => if HasKey(s.events, EntryKey(e)) then s.(phase := next) else s.(phase := p.(step := ToInsert))
      case ToInsert =>
        var row := RowOf(hash, Recovered(e));
        s.(events := InsertOrIgnore(s.events, row), deleted := s.deleted - {KeyOf(row)}, phase := next)
  }

  function Apply(hash: Hash, s: State, a: Action): State
    requires Enabled(hash, s, a)
  {
    match a
    case Arrive(c) => s.(phase := Up(s.phase.flights + [Flight(c, ToEnsure)]))
    case Advance(i) => Advanced(hash, s, i)
    case Crash => s.(phase := Down)
    case CrashInAppend(i, k) =>
      var e := EntryOf(hash, s.phase.flights[i].capture);
      s.(file := s.file + Line(e)[..k], torn := Cut(e, k), phase := Down)
    case StartBoot => s.(phase := Booting(Replay(s.file), 0, ToSession))
    case StepBoot => BootStepped(hash, s)
    case CutLog => s.(file := "", torn := Whole, logged := [], phase := Up([]))
    case Delete(keys) => s.(events := Remaining(s.events, keys), deleted := s.deleted + Removed(s.events, keys))
  }

  // ---- the invariant ----

  // The file is the entries appended since it was last cut, and at most one torn line after them.
  ghost predicate LogInv(hash: Hash, s: State) {
    && ValidTorn(s.torn)
    && s.file == Lines(s.logged) + TornText(s.torn)
    && (forall e <- Surviving(s.logged, s.torn) :: Honest(hash, e))
    && (s.phase.Up? ==> s.torn.Whole?)
  }

  ghost predicate TableInv(hash: Hash, s: State) {
    && UniqueKeys(s.events)
    && (forall r <- s.events :: r.inputHash == hash(r.payloadJson))
  }

  ghost predicate FoldedUpTo(events: seq<Row>, docs: seq<Json>, n: nat)
    requires n <= |docs|
  {
    forall i :: 0 <= i < n && AsEntry(docs[i]).Some? ==> HasKey(events, EntryKey(AsEntry(docs[i]).value))
  }

  ghost predicate BootInv(hash: Hash, s: State) {
    s.phase.Booting? ==>
      && s.phase.docs == Replay(s.file)
      && s.phase.at <= |s.phase.docs|
      && FoldedUpTo(s.events, s.phase.docs, s.phase.at)
  }

  ghost predicate InLog(s: State, k: Key) {
    exists e :: e in s.logged && EntryKey(e) == k
  }

  // No finished append is lost: its key is in the log or stored, or a deletion took its row since. No stored key
  // counts as deleted.
  ghost predicate HistoryInv(s: State) {
    && (forall e <- s.finished :: InLog(s, EntryKey(e)) || EntryKey(e) in s.deleted || HasKey(s.events, EntryKey(e)))
    && (forall k <- s.deleted :: !HasKey(s.events, k))
  }

  ghost predicate SessionsInv(s: State) {
    && (forall r <- s.events :: r.sessionId in s.sessions)
    && (s.phase.Up? ==> forall f <- s.phase.flights :: f.step != ToEnsure ==> f.capture.sessionId in s.sessions)
    && (s.phase.Booting? && s.phase.at < |s.phase.docs| && s.phase.step != ToSession ==>
          var e := AsEntry(s.phase.docs[s.phase.at]); e.Some? ==> e.value.sessionId in s.sessions)
  }

  ghost predicate Inv(hash: Hash, s: State) {
    LogInv(hash, s) && TableInv(hash, s) && BootInv(hash, s) && HistoryInv(s) && SessionsInv(s)
  }

  lemma LogKept(hash: Hash, s: State, a: Action)
    requires LogInv(hash, s) && Enabled(hash, s, a)
    ensures LogInv(hash, Apply(hash, s, a))
  {
    hide LogInv, Line, Lines, InsertOrIgnore, Remaining, AsEntry, Replay, HasKey, Write;
    var t := Apply(hash, s, a);
    if a.Advance? && s.phase.flights[a.i].step == ToLog {
      LogGrows(hash, s, EntryOf(hash, s.phase.flights[a.i].capture), t);
    } else if a.CrashInAppend? {
      LogTears(hash, s, EntryOf(hash, s.phase.flights[a.i].capture), a.k, t);
    } else if a.CutLog? {
      EmptyLog(hash, t);
    } else {
      SameLog(hash, s, t);
    }
  }

  lemma LogGrows(hash: Hash, s: State, e: Entry, t: State)
    requires LogInv(hash, s) && s.phase.Up? && Honest(hash, e)
    requires t.file == s.file + Line(e) && t.logged == s.logged + [e] && t.torn == s.torn
    ensures LogInv(hash, t)
  {
    hide Line;
    LinesAppend(s.logged, e);
  }

  lemma LogTears(hash: Hash, s: State, e: Entry, k: nat, t: State)
    requires LogInv(hash, s) && s.phase.Up? && Honest(hash, e) && k < |Line(e)|
    requires t.file == s.file + Line(e)[..k] && t.logged == s.logged && t.torn == Cut(e, k) && !t.phase.Up?
    ensures LogInv(hash, t)
  {
    hide Line;
  }

  lemma EmptyLog(hash: Hash, t: State)
    requires t.file == "" && t.logged == [] && t.torn == Whole
    ensures LogInv(hash, t)
  {
  }

  lemma SameLog(hash: Hash, s: State, t: State)
    requires LogInv(hash, s) && t.file == s.file && t.logged == s.logged && t.torn == s.torn
    requires t.phase.Up? ==> s.phase.Up?
    ensures LogInv(hash, t)
  {
  }

  lemma TableKept(hash: Hash, s: State, a: Action)
    requires TableInv(hash, s) && Enabled(hash, s, a)
    ensures TableInv(hash, Apply(hash, s, a))
  {
    hide Line, Replay, Lines, AsEntry, HasKey, UniqueKeys, Remaining;
    if a.Advance? && s.phase.flights[a.i].step == ToRecord {
      InsertKeeps(s.events, RowOf(hash, s.phase.flights[a.i].capture));
    } else if a.StepBoot? && AsEntry(s.phase.docs[s.phase.at]).Some? {
      InsertKeeps(s.events, RowOf(hash, Recovered(AsEntry(s.phase.docs[s.phase.at]).value)));
    } else if a.Delete? {
      RemainingKeeps(s.events, a.keys);
    }
  }

  lemma {:induction false} RemainingKeeps(events: seq<Row>, keys: set<Key>)
    requires UniqueKeys(events)
    ensures UniqueKeys(Remaining(events, keys))
    ensures forall r :: r in Remaining(events, keys) <==> r in events && KeyOf(r) !in keys
  {
    FilterMembers(events, (r: Row) => KeyOf(r) !in keys);
    if events != [] {
      RemainingKeeps(events[1..], keys);
    }
  }

  // A boot step never removes a row, and ends an entry's turn with its key present.
  lemma BootKept(hash: Hash, s: State, a: Action)
    requires LogInv(hash, s) && TableInv(hash, s) && BootInv(hash, s) && Enabled(hash, s, a)
    ensures BootInv(hash, Apply(hash, s, a))
  {
    hide LogInv, TableInv, FoldedUpTo, Line, Replay, InsertOrIgnore, HasKey;
    if a.StepBoot? {
      TurnKept(hash, s);
    } else if a.StartBoot? {
      NothingFolded(s.events, Replay(s.file));
    }
  }

  lemma NothingFolded(events: seq<Row>, docs: seq<Json>)
    ensures FoldedUpTo(events, docs, 0)
  {
  }

  // A boot step loses no key, and leaves a document behind only with its key present.
  lemma StepStores(hash: Hash, s: State)
    requires TableInv(hash, s) && s.phase.Booting? && s.phase.at < |s.phase.docs|
    requires AsEntry(s.phase.docs[s.phase.at]).Some?
    requires Honest(hash, AsEntry(s.phase.docs[s.phase.at]).value)
    ensures var t, at := BootStepped(hash, s), s.phase.at;
      && t.phase.Booting? && t.phase.docs == s.phase.docs && at <= t.phase.at <= at + 1
      && (forall k :: HasKey(s.events, k) ==> HasKey(t.events, k))
      && (t.phase.at == at + 1 ==> HasKey(t.events, EntryKey(AsEntry(s.phase.docs[at]).value)))
  {
    hide InsertOrIgnore, HasKey, UniqueKeys, AsEntry, Honest, RowOf, KeyOf, EntryKey, EnsureSession;
    var e := AsEntry(s.phase.docs[s.phase.at]).value;
    RecoveredKey(hash, e);
    InsertKeeps(s.events, RowOf(hash, Recovered(e)));
  }

  lemma TurnKept(hash: Hash, s: State)
    requires LogInv(hash, s) && TableInv(hash, s) && BootInv(hash, s) && s.phase.Booting? && s.phase.at < |s.phase.docs|
    ensures var t := BootStepped(hash, s);
      t.phase.Booting? && t.phase.docs == s.phase.docs && t.phase.at <= |t.phase.docs|
      && FoldedUpTo(t.events, t.phase.docs, t.phase.at)
  {
    hide LogInv, TableInv, Replay, HasKey, AsEntry, Honest, FoldedUpTo, BootStepped;
    var docs, at, t := s.phase.docs, s.phase.at, BootStepped(hash, s);
    DocumentsAreHonest(hash, s);
    assert docs[at] in docs;
    StepStores(hash, s);
    FoldGrows(s.events, t.events, docs, at);
    assert t.phase.at == at || t.phase.at == at + 1;
  }

  lemma FoldGrows(events: seq<Row>, after: seq<Row>, docs: seq<Json>, n: nat)
    requires n < |docs| && FoldedUpTo(events, docs, n)
    requires forall k :: HasKey(events, k) ==> HasKey(after, k)
    ensures FoldedUpTo(after, docs, n)
    ensures AsEntry(docs[n]).Some? && HasKey(after, EntryKey(AsEntry(docs[n]).value)) ==> FoldedUpTo(after, docs, n + 1)
  {
  }

  lemma DocumentsAreHonest(hash: Hash, s: State)
    requires LogInv(hash, s)
    ensures Replay(s.file) == Documents(Surviving(s.logged, s.torn))
    ensures forall d :: d in Replay(s.file) ==> AsEntry(d).Some? && Honest(hash, AsEntry(d).value)
  {
    hide Line, Lines, Replay, TornText, AsEntry, Document;
    ReplayGivesBack(s.logged, s.torn);
    var es := Surviving(s.logged, s.torn);
    forall d | d in Documents(es) ensures AsEntry(d).Some? && Honest(hash, AsEntry(d).value) {
      var i :| 0 <= i < |es| && Documents(es)[i] == d;
      DocumentIsEntry(es[i]);
    }
  }

  lemma HistoryKept(hash: Hash, s: State, a: Action)
    requires Inv(hash, s) && Enabled(hash, s, a)
    ensures HistoryInv(Apply(hash, s, a))
  {
    hide LogInv, TableInv, BootInv, SessionsInv, Enabled, Apply, HasKey, InLog;
    var t := Apply(hash, s, a);
    forall e | e in t.finished
      ensures InLog(t, EntryKey(e)) || EntryKey(e) in t.deleted || HasKey(t.events, EntryKey(e))
    {
      FinishedAfter(hash, s, a, e);
      if e in s.finished {
        if a.CutLog? {
          CutKeeps(hash, s, e);
        }
        KeyAfter(hash, s, a, EntryKey(e));
      }
    }
    forall k | k in t.deleted ensures !HasKey(t.events, k) {
      KeyAfter(hash, s, a, k);
    }
  }

  lemma FinishedAfter(hash: Hash, s: State, a: Action, e: Entry)
    requires Enabled(hash, s, a) && e in Apply(hash, s, a).finished
    ensures e in s.finished || InLog(Apply(hash, s, a), EntryKey(e))
  {
    hide Line, Replay, HasKey, AsEntry, RowOf;
  }

  // What an action does to a key: it stays in the log unless the log is cut, it comes into the table only to be
  // no longer deleted, and it leaves the table only to be deleted.
  lemma KeyAfter(hash: Hash, s: State, a: Action, k: Key)
    requires TableInv(hash, s) && Enabled(hash, s, a)
    ensures var t := Apply(hash, s, a);
      && (InLog(s, k) && !a.CutLog? ==> InLog(t, k))
      && (HasKey(s.events, k) ==> HasKey(t.events, k) || k in t.deleted)
      && (k in s.deleted ==> k in t.deleted || HasKey(t.events, k) || InLog(t, k))
      && (k in t.deleted ==> !HasKey(t.events, k) || (k in s.deleted && HasKey(s.events, k)))
  {
    hide UniqueKeys, Line, Replay, AsEntry, RowOf, HasKey, InsertOrIgnore, Remaining;
    if a.Delete? {
      DeletionTakes(s.events, a.keys, k);
    } else if a.Advance? && s.phase.flights[a.i].step == ToRecord {
      InsertKeeps(s.events, RowOf(hash, s.phase.flights[a.i].capture));
    } else if a.StepBoot? && AsEntry(s.phase.docs[s.phase.at]).Some? {
      InsertKeeps(s.events, RowOf(hash, Recovered(AsEntry(s.phase.docs[s.phase.at]).value)));
    }
  }

  lemma DeletionTakes(events: seq<Row>, keys: set<Key>, k: Key)
    requires UniqueKeys(events)
    ensures HasKey(events, k) && k !in keys ==> HasKey(Remaining(events, keys), k)
    ensures HasKey(Remaining(events, keys), k) ==> HasKey(events, k) && k !in keys
    ensures k in Removed(events, keys) <==> HasKey(events, k) && k in keys
  {
    RemainingKeeps(events, keys);
  }

  lemma CutKeeps(hash: Hash, s: State, e: Entry)
    requires Inv(hash, s) && Enabled(hash, s, CutLog) && e in s.finished
    ensures EntryKey(e) in s.deleted || HasKey(s.events, EntryKey(e))
  {
    if InLog(s, EntryKey(e)) {
      var x :| x in s.logged && EntryKey(x) == EntryKey(e);
      LoggedIsStored(hash, s, x);
    }
  }

  // When the boot loop has ended, every entry of the log has its row.
  lemma LoggedIsStored(hash: Hash, s: State, e: Entry)
    requires LogInv(hash, s) && BootInv(hash, s) && s.phase.Booting? && s.phase.at == |s.phase.docs| && e in s.logged
    ensures HasKey(s.events, EntryKey(e))
  {
    hide LogInv, Line, Replay, HasKey;
    DocumentsAreHonest(hash, s);
    var i :| 0 <= i < |s.logged| && s.logged[i] == e;
    assert Surviving(s.logged, s.torn)[i] == e;
    assert s.phase.docs[i] == Document(e);
    DocumentIsEntry(e);
  }

  lemma SessionsKept(hash: Hash, s: State, a: Action)
    requires SessionsInv(s) && TableInv(hash, s) && Enabled(hash, s, a)
    ensures SessionsInv(Apply(hash, s, a))
  {
    hide UniqueKeys, Remaining, Replay, Line, AsEntry, HasKey, Write, HashInput;
    if a.Delete? {
      RemainingKeeps(s.events, a.keys);
    }
  }

  lemma StepKeeps(hash: Hash, s: State, a: Action)
    requires Inv(hash, s) && Enabled(hash, s, a)
    ensures Inv(hash, Apply(hash, s, a))
  {
    hide LogInv, TableInv, BootInv, HistoryInv, SessionsInv, Enabled, Apply;
    LogKept(hash, s, a);
    TableKept(hash, s, a);
    BootKept(hash, s, a);
    HistoryKept(hash, s, a);
    SessionsKept(hash, s, a);
  }

  // The boot steps one document takes when nothing interrupts them.
  function Turn(hash: Hash, s: State): State
    requires s.phase.Booting? && s.phase.at < |s.phase.docs| && s.phase.step == ToSession
  {
    var once := BootStepped(hash, s);
    if once.phase.step == ToSession then once
    else
      var twice := BootStepped(hash, once);
      if twice.phase.step == ToSession then twice else BootStepped(hash, twice)
  }

  // Those steps are the boot loop's body.
  lemma TurnReplaysOne(hash: Hash, s: State)
    requires s.phase.Booting? && s.phase.at < |s.phase.docs| && s.phase.step == ToSession
    ensures var doc, t := s.phase.docs[s.phase.at], Turn(hash, s);
      && t.events == ReplayOne(hash, s.events, doc)
      && t.sessions == (if AsEntry(doc).Some? then EnsureSession(s.sessions, AsEntry(doc).value.sessionId, AsEntry(doc).value.ts)
                        else s.sessions)
      && t.phase == Booting(s.phase.docs, s.phase.at + 1, ToSession)
      && t.file == s.file && t.logged == s.logged
  {
    hide AsEntry, HasKey, InsertOrIgnore, RowOf, EnsureSession;
  }

  // A crash can come at any moment, also with a log line partly written; it leaves the disk as it is.
  lemma CrashAnywhere(hash: Hash, s: State)
    ensures Enabled(hash, s, Crash) && Apply(hash, s, Crash) == s.(phase := Down)
  {
  }

  lemma CrashInAnyAppend(hash: Hash, s: State, i: nat, k: nat)
    requires s.phase.Up? && i < |s.phase.flights| && s.phase.flights[i].step == ToLog
    requires k < |Line(EntryOf(hash, s.phase.flights[i].capture))|
    ensures var e := EntryOf(hash, s.phase.flights[i].capture);
      && Enabled(hash, s, CrashInAppend(i, k))
      && Apply(hash, s, CrashInAppend(i, k)) == s.(file := s.file + Line(e)[..k], torn := Cut(e, k), phase := Down)
  {
    hide Line, EntryOf;
  }

  // A boot reads the log as it is.
  lemma BootReadsTheLog(hash: Hash, s: State)
    ensures s.phase.Down? ==>
      Enabled(hash, s, StartBoot) && Apply(hash, s, StartBoot) == s.(phase := Booting(Replay(s.file), 0, ToSession))
  {
    hide Replay;
  }

  // Left to itself, a boot comes to the end of the log and cuts it.
  lemma {:induction false} BootEnds(hash: Hash, s: State) returns (steps: seq<Action>, t: State)
    requires s.phase.Booting? && s.phase.at <= |s.phase.docs|
    ensures Run(hash, s, steps, t) && t.phase == Up([]) && t.file == "" && t.torn == Whole
    ensures forall a <- steps :: a == StepBoot || a == CutLog
    decreases (if s.phase.Booting? then |s.phase.docs| - s.phase.at else 0), s.phase.Booting? && s.phase.step.ToSession?,
      s.phase.Booting? && s.phase.step.ToCheck?
  {
    hide AsEntry, HasKey, InsertOrIgnore, RowOf, EnsureSession, Replay;
    if s.phase.at == |s.phase.docs| {
      t := Apply(hash, s, CutLog);
      steps := [CutLog];
      assert steps[1..] == [] && Run(hash, t, [], t);
    } else {
      var u := Apply(hash, s, StepBoot);
      var more;
      more, t := BootEnds(hash, u);
      steps := [StepBoot] + more;
      assert steps[1..] == more;
    }
  }

  // ---- runs ----

  ghost predicate Run(hash: Hash, s: State, actions: seq<Action>, t: State)
    decreases |actions|
  {
    if actions == [] then s == t
    else Enabled(hash, s, actions[0]) && Run(hash, Apply(hash, s, actions[0]), actions[1..], t)
  }

  lemma {:induction false} RunKeeps(hash: Hash, s: State, actions: seq<Action>, t: State)
    requires Inv(hash, s) && Run(hash, s, actions, t)
    ensures Inv(hash, t)
    decreases |actions|
  {
    if actions != [] {
      StepKeeps(hash, s, actions[0]);
      RunKeeps(hash, Apply(hash, s, actions[0]), actions[1..], t);
    }
  }

  lemma InitInv(hash: Hash)
    ensures Inv(hash, Init())
  {
  }

  lemma {:induction false} DeletedOnlyByDelete(hash: Hash, s: State, actions: seq<Action>, t: State)
    requires Run(hash, s, actions, t) && forall a <- actions :: !a.Delete?
    ensures t.deleted <= s.deleted
    decreases |actions|
  {
    if actions != [] {
      DeletedOnlyByDelete(hash, Apply(hash, s, actions[0]), actions[1..], t);
    }
  }

  // Whatever happened before, when a boot ends every entry then in the log has exactly one row, of the same
  // payload if the hash is injective, and the log is empty.
  lemma BootRestoresTheLog(hash: Hash, actions: seq<Action>, s: State, e: Entry)
    requires Run(hash, Init(), actions, s) && Enabled(hash, s, CutLog) && e in s.logged
    ensures var t := Apply(hash, s, CutLog); t.file == "" && ExactlyOnce(t.events, EntryKey(e))
    ensures Injective(hash) ==>
      forall r :: r in s.events && KeyOf(r) == EntryKey(e) ==> r.payloadJson == Write(e.payload)
  {
    InitInv(hash);
    RunKeeps(hash, Init(), actions, s);
    LoggedIsStored(hash, s, e);
    UniqueMeansOnce(s.events, EntryKey(e));
    LoggedIsHonest(hash, s, e);
  }

  lemma LoggedIsHonest(hash: Hash, s: State, e: Entry)
    requires LogInv(hash, s) && e in s.logged
    ensures Honest(hash, e)
  {
  }

  // Whatever happened before, when a boot ends every capture whose append ever finished has exactly one row,
  // unless a prune or a sweep removed its row after it was last appended; with no deletions, without exception.
  lemma NoFinishedCaptureIsLost(hash: Hash, actions: seq<Action>, s: State, e: Entry)
    requires Run(hash, Init(), actions, s) && Enabled(hash, s, CutLog) && e in s.finished
    ensures ExactlyOnce(Apply(hash, s, CutLog).events, EntryKey(e)) <==> EntryKey(e) !in s.deleted
    ensures (forall a <- actions :: !a.Delete?) ==> ExactlyOnce(Apply(hash, s, CutLog).events, EntryKey(e))
  {
    InitInv(hash);
    RunKeeps(hash, Init(), actions, s);
    CutKeeps(hash, s, e);
    if HasKey(s.events, EntryKey(e)) {
      UniqueMeansOnce(s.events, EntryKey(e));
    }
    if ExactlyOnce(s.events, EntryKey(e)) {
      OnceHas(s.events, EntryKey(e));
    }
    if forall a <- actions :: !a.Delete? {
      DeletedOnlyByDelete(hash, Init(), actions, s);
    }
  }
}
