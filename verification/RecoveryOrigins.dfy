// Where the rows come from: in every run of captures, crashes, deletions and boots, whatever is stored or logged is
// what some capture brought.
module RecoveryOrigins {
  import opened Sequences
  import opened Ndjson
  import opened Wal
  import opened Recovery
  import opened RecoveryRuns

  // A row carries the capture's columns; its token estimate and expiry are the capture's too, or lost.
  ghost predicate RowTells(hash: Hash, r: Row, c: Capture) {
    && r.ts == c.ts && r.sessionId == c.sessionId && r.tool == c.tool
    && r.payloadJson == Write(c.payload) && r.inputHash == hash(Write(c.payload))
    && ((r.tokensEst == 0 && r.expiresAt.None?)
        || (r.tokensEst == c.tokensEst
            && r.expiresAt == if c.ttlMs.Some? && c.ttlMs.value > 0 then Some(c.ts + c.ttlMs.value) else None))
  }

  ghost predicate EntryTells(hash: Hash, e: Entry, c: Capture) {
    && e.ts == c.ts && e.sessionId == c.sessionId && e.tool == c.tool
    && e.payload == c.payload && e.inputHash == hash(Write(c.payload))
  }

  ghost predicate RowKnown(hash: Hash, past: seq<Action>, r: Row) {
    exists c :: Arrive(c) in past && RowTells(hash, r, c)
  }

  ghost predicate EntryKnown(hash: Hash, past: seq<Action>, e: Entry) {
    exists c :: Arrive(c) in past && EntryTells(hash, e, c)
  }

  // Some capture of the session came at that time.
  ghost predicate SessionKnown(past: seq<Action>, id: string, ts: int) {
    exists c :: Arrive(c) in past && c.sessionId == id && c.ts == ts
  }

  ghost predicate FlightsKnown(past: seq<Action>, s: State) {
    s.phase.Up? ==> forall f <- s.phase.flights :: Arrive(f.capture) in past
  }

  ghost predicate EntriesKnown(hash: Hash, past: seq<Action>, s: State) {
    forall e <- Surviving(s.logged, s.torn) :: EntryKnown(hash, past, e)
  }

  ghost predicate RowsKnown(hash: Hash, past: seq<Action>, s: State) {
    forall r <- s.events :: RowKnown(hash, past, r)
  }

  ghost predicate SessionsKnown(past: seq<Action>, s: State) {
    forall id <- s.sessions :: SessionKnown(past, id, s.sessions[id])
  }

  ghost predicate Known(hash: Hash, past: seq<Action>, s: State) {
    FlightsKnown(past, s) && EntriesKnown(hash, past, s) && RowsKnown(hash, past, s) && SessionsKnown(past, s)
  }

  lemma KnownStays(hash: Hash, past: seq<Action>, a: Action)
    ensures forall r :: RowKnown(hash, past, r) ==> RowKnown(hash, past + [a], r)
    ensures forall e :: EntryKnown(hash, past, e) ==> EntryKnown(hash, past + [a], e)
    ensures forall id, ts :: SessionKnown(past, id, ts) ==> SessionKnown(past + [a], id, ts)
  {
    hide RowTells, EntryTells;
    forall r | RowKnown(hash, past, r) ensures RowKnown(hash, past + [a], r) {
      var c :| Arrive(c) in past && RowTells(hash, r, c);
      assert Arrive(c) in past + [a];
    }
    forall e | EntryKnown(hash, past, e) ensures EntryKnown(hash, past + [a], e) {
      var c :| Arrive(c) in past && EntryTells(hash, e, c);
      assert Arrive(c) in past + [a];
    }
    forall id, ts | SessionKnown(past, id, ts) ensures SessionKnown(past + [a], id, ts) {
      var c :| Arrive(c) in past && c.sessionId == id && c.ts == ts;
      assert Arrive(c) in past + [a];
    }
  }

  lemma FlightsKept(hash: Hash, past: seq<Action>, s: State, a: Action)
    requires FlightsKnown(past, s) && Enabled(hash, s, a)
    ensures FlightsKnown(past + [a], Apply(hash, s, a))
  {
    hide Line, Replay, RowOf, InsertOrIgnore, HasKey, AsEntry, Remaining, Removed, EntryOf;
  }

  // The entry and the row a capture writes tell of it.
  lemma CaptureTells(hash: Hash, c: Capture)
    ensures EntryTells(hash, EntryOf(hash, c), c) && RowTells(hash, RowOf(hash, c), c)
  {
  }

  lemma EntriesKept(hash: Hash, past: seq<Action>, s: State, a: Action)
    requires LogInv(hash, s) && FlightsKnown(past, s) && EntriesKnown(hash, past, s) && Enabled(hash, s, a)
    ensures EntriesKnown(hash, past + [a], Apply(hash, s, a))
  {
    hide Line, Lines, Replay, RowOf, InsertOrIgnore, HasKey, AsEntry, Remaining, Removed, EntryOf, Honest, EntryTells, TornText,
      EntryKnown, RowKnown, SessionKnown;
    KnownStays(hash, past, a);
    if (a.Advance? || a.CrashInAppend?) && s.phase.flights[a.i].step == ToLog {
      var c := s.phase.flights[a.i].capture;
      FlightEntry(hash, past, s, a.i);
      assert EntryKnown(hash, past + [a], EntryOf(hash, c));
    }
  }

  lemma FlightEntry(hash: Hash, past: seq<Action>, s: State, i: nat)
    requires FlightsKnown(past, s) && s.phase.Up? && i < |s.phase.flights|
    ensures var c := s.phase.flights[i].capture;
      EntryKnown(hash, past, EntryOf(hash, c)) && RowKnown(hash, past, RowOf(hash, c)) && SessionKnown(past, c.sessionId, c.ts)
  {
    hide EntryTells, RowTells, EntryOf, RowOf;
    CaptureTells(hash, s.phase.flights[i].capture);
  }

  // An entry read at boot is one that was logged.
  lemma BootEntry(hash: Hash, past: seq<Action>, s: State)
    requires LogInv(hash, s) && BootInv(hash, s) && EntriesKnown(hash, past, s)
    requires s.phase.Booting? && s.phase.at < |s.phase.docs| && AsEntry(s.phase.docs[s.phase.at]).Some?
    ensures var e := AsEntry(s.phase.docs[s.phase.at]).value;
      EntryKnown(hash, past, e) && RowKnown(hash, past, RowOf(hash, Recovered(e))) && SessionKnown(past, e.sessionId, e.ts)
  {
    hide LogInv, Replay, FoldedUpTo, Document, EntryTells, RowTells, Recovered, RowOf;
    var es := Surviving(s.logged, s.torn);
    DocumentsAreHonest(hash, s);
    assert s.phase.docs[s.phase.at] == Document(es[s.phase.at]);
    DocumentIsEntry(es[s.phase.at]);
    assert es[s.phase.at] in es;
    EntryGivesRow(hash, past, es[s.phase.at]);
  }

  lemma EntryGivesRow(hash: Hash, past: seq<Action>, e: Entry)
    requires EntryKnown(hash, past, e)
    ensures RowKnown(hash, past, RowOf(hash, Recovered(e))) && SessionKnown(past, e.sessionId, e.ts)
  {
    hide Write;
    var c :| Arrive(c) in past && EntryTells(hash, e, c);
    assert RowTells(hash, RowOf(hash, Recovered(e)), c);
  }

  lemma RowsKept(hash: Hash, past: seq<Action>, s: State, a: Action)
    requires LogInv(hash, s) && TableInv(hash, s) && BootInv(hash, s) && Enabled(hash, s, a)
    requires FlightsKnown(past, s) && EntriesKnown(hash, past, s) && RowsKnown(hash, past, s)
    ensures RowsKnown(hash, past + [a], Apply(hash, s, a))
  {
    hide Line, Replay, RowOf, HasKey, AsEntry, Remaining, Removed, EntryOf, LogInv, UniqueKeys, FoldedUpTo, EntriesKnown,
      FlightsKnown, Recovered, EntryKnown, RowKnown, SessionKnown;
    KnownStays(hash, past, a);
    if a.Advance? {
      FlightEntry(hash, past, s, a.i);
    } else if a.StepBoot? && AsEntry(s.phase.docs[s.phase.at]).Some? {
      BootEntry(hash, past, s);
    } else if a.Delete? {
      RemainingKeeps(s.events, a.keys);
    }
  }

  lemma SessionRowsKept(hash: Hash, past: seq<Action>, s: State, a: Action)
    requires LogInv(hash, s) && BootInv(hash, s) && Enabled(hash, s, a)
    requires FlightsKnown(past, s) && EntriesKnown(hash, past, s) && SessionsKnown(past, s)
    ensures SessionsKnown(past + [a], Apply(hash, s, a))
  {
    hide Line, Replay, RowOf, HasKey, AsEntry, Remaining, Removed, EntryOf, LogInv, UniqueKeys, FoldedUpTo, EntriesKnown,
      FlightsKnown, Recovered, InsertOrIgnore, EntryKnown, RowKnown, SessionKnown;
    KnownStays(hash, past, a);
    if a.Advance? {
      FlightEntry(hash, past, s, a.i);
    } else if a.StepBoot? && AsEntry(s.phase.docs[s.phase.at]).Some? {
      BootEntry(hash, past, s);
    }
  }

  lemma {:induction false} RunKnows(hash: Hash, past: seq<Action>, s: State, actions: seq<Action>, t: State)
    requires Inv(hash, s) && Known(hash, past, s) && Run(hash, s, actions, t)
    ensures Known(hash, past + actions, t)
    decreases |actions|
  {
    hide FlightsKnown, EntriesKnown, RowsKnown, SessionsKnown, Enabled, Apply, LogInv, TableInv, BootInv, HistoryInv, SessionsInv;
    if actions == [] {
      assert past + actions == past;
    } else {
      var a := actions[0];
      StepKeeps(hash, s, a);
      FlightsKept(hash, past, s, a);
      EntriesKept(hash, past, s, a);
      RowsKept(hash, past, s, a);
      SessionRowsKept(hash, past, s, a);
      RunKnows(hash, past + [a], Apply(hash, s, a), actions[1..], t);
      assert past + [a] + actions[1..] == past + actions;
    }
  }

  // After any run every row tells of a capture that came, whether it was stored by the capture or by a later boot, and
  // every session began with one.
  lemma EveryRowWasCaptured(hash: Hash, actions: seq<Action>, s: State)
    requires Run(hash, Init(), actions, s)
    ensures forall r <- s.events :: exists c :: Arrive(c) in actions && RowTells(hash, r, c)
    ensures forall id <- s.sessions :: exists c :: Arrive(c) in actions && c.sessionId == id && c.ts == s.sessions[id]
  {
    InitInv(hash);
    RunKnows(hash, [], Init(), actions, s);
    assert [] + actions == actions;
    forall r | r in s.events ensures exists c :: Arrive(c) in actions && RowTells(hash, r, c) {
      assert RowKnown(hash, actions, r);
    }
    forall id | id in s.sessions ensures exists c :: Arrive(c) in actions && c.sessionId == id && c.ts == s.sessions[id] {
      assert SessionKnown(actions, id, s.sessions[id]);
    }
  }

  // So when a boot ends, the one row of a logged entry's key has the time, tool and payload of a capture of that key.
  lemma BootRestoresRows(hash: Hash, actions: seq<Action>, s: State, e: Entry)
    requires Run(hash, Init(), actions, s) && Enabled(hash, s, CutLog) && e in s.logged
    ensures exists r, c ::
      && r in Apply(hash, s, CutLog).events && Arrive(c) in actions && RowTells(hash, r, c)
      && c.sessionId == e.sessionId && hash(Write(c.payload)) == e.inputHash
  {
    hide RowTells, Inv, HasKey;
    InitInv(hash);
    RunKeeps(hash, Init(), actions, s);
    EveryRowWasCaptured(hash, actions, s);
    StoredRow(hash, s, e);
    var r :| r in s.events && KeyOf(r) == EntryKey(e);
    var c :| Arrive(c) in actions && RowTells(hash, r, c);
    TellsKey(hash, r, c);
  }

  lemma StoredRow(hash: Hash, s: State, e: Entry)
    requires Inv(hash, s) && Enabled(hash, s, CutLog) && e in s.logged
    ensures exists r :: r in s.events && KeyOf(r) == EntryKey(e)
  {
    hide LogInv, TableInv, BootInv, HistoryInv, SessionsInv;
    LoggedIsStored(hash, s, e);
  }

  lemma TellsKey(hash: Hash, r: Row, c: Capture)
    requires RowTells(hash, r, c)
    ensures r.sessionId == c.sessionId && r.inputHash == hash(Write(c.payload))
  {
  }

  // ---- a capture's own steps ----

  // Nothing interrupts them: session, log line, row.
  function Captures(hash: Hash, s: State, i: nat): State
    requires s.phase.Up? && i < |s.phase.flights| && s.phase.flights[i].step == ToEnsure
  {
    Advanced(hash, Advanced(hash, Advanced(hash, s, i), i), i)
  }

  // They do what the capture request does: the session is there, the line is in the log, the row is in the table,
  // and the flight is over.
  lemma FlightCaptures(hash: Hash, s: State, c: Capture)
    requires s.phase.Up?
    ensures var t := Apply(hash, s, Arrive(c)); var n := |s.phase.flights|;
      && t == s.(phase := t.phase) && t.phase.Up? && |t.phase.flights| == n + 1 && t.phase.flights[n] == Flight(c, ToEnsure)
      && var u := Captures(hash, t, n);
         && u.phase == s.phase
         && u.file == s.file + Line(EntryOf(hash, c))
         && u.logged == s.logged + [EntryOf(hash, c)] && u.finished == s.finished + [EntryOf(hash, c)]
         && u.events == InsertOrIgnore(s.events, RowOf(hash, c))
         && u.sessions == EnsureSession(s.sessions, c.sessionId, c.ts)
  {
    hide Line, InsertOrIgnore, EnsureSession, RowOf, EntryOf;
    var t, n := Apply(hash, s, Arrive(c)), |s.phase.flights|;
    var u1 := Advanced(hash, t, n);
    var u2 := Advanced(hash, u1, n);
    var u3 := Advanced(hash, u2, n);
    assert u3.phase.flights == s.phase.flights;
  }

  // ---- a finished append survives ----

  ghost predicate Safe(s: State, k: Key) {
    InLog(s, k) || HasKey(s.events, k)
  }

  ghost predicate Spares(actions: seq<Action>, k: Key) {
    forall a <- actions :: a.Delete? ==> k !in a.keys
  }

  lemma SafeKept(hash: Hash, s: State, a: Action, k: Key)
    requires Inv(hash, s) && Safe(s, k) && Enabled(hash, s, a) && (a.Delete? ==> k !in a.keys)
    ensures Safe(Apply(hash, s, a), k)
  {
    hide LogInv, TableInv, BootInv, HistoryInv, SessionsInv, HasKey, InLog, Enabled;
    if a.Delete? {
      SparedStays(hash, s, a.keys, k);
    } else if a.CutLog? {
      if InLog(s, k) {
        LoggedSurvives(hash, s, k);
      }
    } else {
      OthersKeep(hash, s, a, k);
    }
  }

  lemma SparedStays(hash: Hash, s: State, keys: set<Key>, k: Key)
    requires TableInv(hash, s) && Safe(s, k) && Enabled(hash, s, Delete(keys)) && k !in keys
    ensures Safe(Apply(hash, s, Delete(keys)), k)
  {
    hide HasKey, UniqueKeys, Remaining;
    DeletionTakes(s.events, keys, k);
  }

  lemma LoggedSurvives(hash: Hash, s: State, k: Key)
    requires LogInv(hash, s) && BootInv(hash, s) && Enabled(hash, s, CutLog) && InLog(s, k)
    ensures HasKey(s.events, k)
  {
    hide LogInv, BootInv, HasKey;
    var e :| e in s.logged && EntryKey(e) == k;
    LoggedIsStored(hash, s, e);
  }

  lemma OthersKeep(hash: Hash, s: State, a: Action, k: Key)
    requires TableInv(hash, s) && HistoryInv(s) && Safe(s, k) && Enabled(hash, s, a) && !a.Delete? && !a.CutLog?
    ensures Safe(Apply(hash, s, a), k)
  {
    hide HasKey, InLog, Enabled, Apply, UniqueKeys;
    KeyAfter(hash, s, a, k);
    if HasKey(s.events, k) {
      StaysOut(hash, s, a, k);
    }
  }

  lemma StaysOut(hash: Hash, s: State, a: Action, k: Key)
    requires Enabled(hash, s, a) && !a.Delete? && k !in s.deleted
    ensures k !in Apply(hash, s, a).deleted
  {
    hide Line, Replay, RowOf, InsertOrIgnore, HasKey, AsEntry, Remaining, Removed, EntryOf;
  }

  lemma {:induction false} RunKeepsSafe(hash: Hash, s: State, actions: seq<Action>, t: State, k: Key)
    requires Inv(hash, s) && Safe(s, k) && Spares(actions, k) && Run(hash, s, actions, t)
    ensures Inv(hash, t) && Safe(t, k)
    decreases |actions|
  {
    hide Inv, Safe, Enabled, Apply;
    if actions != [] {
      StepKeeps(hash, s, actions[0]);
      SafeKept(hash, s, actions[0], k);
      RunKeepsSafe(hash, Apply(hash, s, actions[0]), actions[1..], t, k);
    }
  }

  // Once a capture's append has finished, whatever happens after it, the end of any later boot finds exactly one row of
  // its key, provided no deletion after the append names that key.
  lemma FinishedAppendSurvives(hash: Hash, before: seq<Action>, s: State, i: nat, after: seq<Action>, t: State)
    requires Run(hash, Init(), before, s) && s.phase.Up? && i < |s.phase.flights| && s.phase.flights[i].step == ToLog
    requires Run(hash, Apply(hash, s, Advance(i)), after, t) && Enabled(hash, t, CutLog)
    requires Spares(after, EntryKey(EntryOf(hash, s.phase.flights[i].capture)))
    ensures ExactlyOnce(Apply(hash, t, CutLog).events, EntryKey(EntryOf(hash, s.phase.flights[i].capture)))
  {
    hide Inv, Safe, Spares, Run, HasKey, ExactlyOnce, UniqueKeys, Apply, EntryOf, EntryKey;
    var e, u := EntryOf(hash, s.phase.flights[i].capture), Apply(hash, s, Advance(i));
    InitInv(hash);
    RunKeeps(hash, Init(), before, s);
    StepKeeps(hash, s, Advance(i));
    AppendIsSafe(hash, s, i);
    RunKeepsSafe(hash, u, after, t, EntryKey(e));
    StoredAtCut(hash, t, EntryKey(e));
  }

  lemma AppendIsSafe(hash: Hash, s: State, i: nat)
    requires s.phase.Up? && i < |s.phase.flights| && s.phase.flights[i].step == ToLog
    ensures Safe(Apply(hash, s, Advance(i)), EntryKey(EntryOf(hash, s.phase.flights[i].capture)))
  {
    hide Line, HasKey, EntryOf, EntryKey;
    var e, u := EntryOf(hash, s.phase.flights[i].capture), Apply(hash, s, Advance(i));
    assert e in u.logged;
  }

  lemma StoredAtCut(hash: Hash, t: State, k: Key)
    requires Inv(hash, t) && Safe(t, k) && Enabled(hash, t, CutLog)
    ensures ExactlyOnce(Apply(hash, t, CutLog).events, k)
  {
    hide LogInv, BootInv, HistoryInv, SessionsInv, HasKey, UniqueKeys, ExactlyOnce;
    if InLog(t, k) {
      LoggedSurvives(hash, t, k);
    }
    UniqueMeansOnce(t.events, k);
  }
}
