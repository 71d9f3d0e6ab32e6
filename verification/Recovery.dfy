// Event rows, the unique index on (session, input hash), and the boot loop that folds the log into them.
module Recovery {
  import opened Sequences
  import opened Ndjson
  import opened Wal

  // A row of the events table, but for its id and the columns a drain writes.
  datatype Row = Row(ts: int, sessionId: string, tool: string, inputHash: string, payloadJson: string,
                     tokensEst: int, expiresAt: Option<int>)

  datatype Key = Key(sessionId: string, inputHash: string)

  datatype Capture = Capture(ts: int, sessionId: string, tool: string, payload: Json, tokensEst: int, ttlMs: Option<int>)

  // SHA-256 is a parameter.
  type Hash = string -> string

  ghost predicate Injective(hash: Hash) {
    forall x, y :: hash(x) == hash(y) ==> x == y
  }

  function HashInput(hash: Hash, payload: Json): string {
    hash(Write(payload))
  }

  function EntryOf(hash: Hash, c: Capture): Entry {
    Entry(c.ts, c.sessionId, c.tool, HashInput(hash, c.payload), c.payload)
  }

  // What the boot loop records for an entry: no token estimate and no time to live.
  function Recovered(e: Entry): Capture {
    Capture(e.ts, e.sessionId, e.tool, e.payload, 0, None)
  }

  function RowOf(hash: Hash, c: Capture): Row {
    Row(c.ts, c.sessionId, c.tool, HashInput(hash, c.payload), Write(c.payload), c.tokensEst,
        if c.ttlMs.Some? && c.ttlMs.value > 0 then Some(c.ts + c.ttlMs.value) else None)
  }

  function KeyOf(r: Row): Key {
    Key(r.sessionId, r.inputHash)
  }

  function EntryKey(e: Entry): Key {
    Key(e.sessionId, e.inputHash)
  }

  predicate Honest(hash: Hash, e: Entry) {
    e.inputHash == HashInput(hash, e.payload)
  }

  lemma RecoveredKey(hash: Hash, e: Entry)
    requires Honest(hash, e)
    ensures KeyOf(RowOf(hash, Recovered(e))) == EntryKey(e)
  {
  }

  predicate AllHonest(hash: Hash, docs: seq<Json>) {
    forall d <- docs :: AsEntry(d).Some? ==> Honest(hash, AsEntry(d).value)
  }

  predicate HasKey(events: seq<Row>, k: Key) {
    exists r :: r in events && KeyOf(r) == k
  }

  predicate UniqueKeys(events: seq<Row>) {
    forall i, j :: 0 <= i < j < |events| ==> KeyOf(events[i]) != KeyOf(events[j])
  }

  ghost predicate ExactlyOnce(events: seq<Row>, k: Key) {
    exists i :: 0 <= i < |events| && KeyOf(events[i]) == k
      && forall j :: 0 <= j < |events| && KeyOf(events[j]) == k ==> j == i
  }

  lemma UniqueMeansOnce(events: seq<Row>, k: Key)
    requires UniqueKeys(events) && HasKey(events, k)
    ensures ExactlyOnce(events, k)
  {
  }

  // INSERT OR IGNORE under the unique index.
  function InsertOrIgnore(events: seq<Row>, r: Row): seq<Row> {
    if HasKey(events, KeyOf(r)) then events else events + [r]
  }

  lemma InsertKeeps(events: seq<Row>, r: Row)
    requires UniqueKeys(events)
    ensures var after := InsertOrIgnore(events, r);
      UniqueKeys(after) && events <= after && HasKey(after, KeyOf(r))
    ensures forall k :: HasKey(InsertOrIgnore(events, r), k) <==> HasKey(events, k) || k == KeyOf(r)
  {
  }

  // ---- what a replay does to the events table ----

  function ReplayOne(hash: Hash, events: seq<Row>, doc: Json): seq<Row> {
    match AsEntry(doc)
    case None => events
    case Some(e) =>
      if HasKey(events, EntryKey(e)) then events else InsertOrIgnore(events, RowOf(hash, Recovered(e)))
  }

  function ReplayEvents(hash: Hash, events: seq<Row>, docs: seq<Json>): seq<Row> {
    if docs == [] then events
    else ReplayOne(hash, ReplayEvents(hash, events, docs[..|docs| - 1]), docs[|docs| - 1])
  }

  lemma {:induction false} ReplayRestores(hash: Hash, events: seq<Row>, docs: seq<Json>)
    requires UniqueKeys(events)
    ensures var after := ReplayEvents(hash, events, docs); UniqueKeys(after) && events <= after
    ensures forall e :: Document(e) in docs && Honest(hash, e) ==>
      ExactlyOnce(ReplayEvents(hash, events, docs), EntryKey(e))
  {
    hide AsEntry, Document, HasKey, UniqueKeys, ExactlyOnce, Honest, EntryKey, ReplayOne;
    var after := ReplayEvents(hash, events, docs);
    if docs != [] {
      var n := |docs| - 1;
      var before := ReplayEvents(hash, events, docs[..n]);
      ReplayRestores(hash, events, docs[..n]);
      ReplayOneKeeps(hash, before, docs[n]);
      forall e | Document(e) in docs && Honest(hash, e) ensures ExactlyOnce(after, EntryKey(e)) {
        DocumentIsEntry(e);
        if docs[n] != Document(e) {
          assert docs == docs[..n] + [docs[n]];
          OnceHas(before, EntryKey(e));
        }
        UniqueMeansOnce(after, EntryKey(e));
      }
    }
  }

  // A row that a replay adds is that of the entry at i, and no earlier entry of the log has its key; what the log does
  // not hold, the token estimate and the time to live, is lost.
  ghost predicate RestoredFrom(hash: Hash, docs: seq<Json>, i: nat, r: Row) {
    && i < |docs| && AsEntry(docs[i]).Some?
    && (forall j :: 0 <= j < i && AsEntry(docs[j]).Some? && Honest(hash, AsEntry(docs[j]).value) ==>
          EntryKey(AsEntry(docs[j]).value) != KeyOf(r))
    && var e := AsEntry(docs[i]).value;
       && r.ts == e.ts && r.sessionId == e.sessionId && r.tool == e.tool
       && r.payloadJson == Write(e.payload) && r.inputHash == hash(Write(e.payload))
       && r.tokensEst == 0 && r.expiresAt.None?
  }

  ghost predicate Restored(hash: Hash, docs: seq<Json>, r: Row) {
    exists i: nat :: RestoredFrom(hash, docs, i, r)
  }

  lemma {:induction false} ReplayAddsFirst(hash: Hash, events: seq<Row>, docs: seq<Json>)
    requires UniqueKeys(events)
    ensures events <= ReplayEvents(hash, events, docs)
    ensures forall k :: |events| <= k < |ReplayEvents(hash, events, docs)| ==>
      Restored(hash, docs, ReplayEvents(hash, events, docs)[k])
  {
    hide Restored, ReplayOne, UniqueKeys;
    if docs != [] {
      var n := |docs| - 1;
      var before, after := ReplayEvents(hash, events, docs[..n]), ReplayEvents(hash, events, docs);
      ReplayRestores(hash, events, docs[..n]);
      ReplayAddsFirst(hash, events, docs[..n]);
      ReplayOneAdds(hash, before, docs[n]);
      forall k | |events| <= k < |after| ensures Restored(hash, docs, after[k]) {
        if k < |before| {
          RestoredStays(hash, docs, before[k]);
        } else {
          LastIsFirst(hash, events, docs);
        }
      }
    }
  }

  lemma ReplayOneAdds(hash: Hash, events: seq<Row>, doc: Json)
    ensures var after := ReplayOne(hash, events, doc); events <= after && |after| <= |events| + 1
  {
  }

  lemma RestoredStays(hash: Hash, docs: seq<Json>, r: Row)
    requires docs != [] && Restored(hash, docs[..|docs| - 1], r)
    ensures Restored(hash, docs, r)
  {
    hide AsEntry, Honest;
    var i: nat :| RestoredFrom(hash, docs[..|docs| - 1], i, r);
    assert RestoredFrom(hash, docs, i, r);
  }

  // What the last document adds has a key no earlier one has, since that one would be stored.
  lemma LastIsFirst(hash: Hash, events: seq<Row>, docs: seq<Json>)
    requires UniqueKeys(events) && docs != []
    requires |ReplayEvents(hash, events, docs)| > |ReplayEvents(hash, events, docs[..|docs| - 1])|
    ensures var before, after := ReplayEvents(hash, events, docs[..|docs| - 1]), ReplayEvents(hash, events, docs);
      Restored(hash, docs, after[|before|])
  {
    hide AsEntry;
    var n := |docs| - 1;
    var before, after := ReplayEvents(hash, events, docs[..n]), ReplayEvents(hash, events, docs);
    var r := after[|before|];
    assert !HasKey(before, KeyOf(r));
    forall j | 0 <= j < n && AsEntry(docs[j]).Some? && Honest(hash, AsEntry(docs[j]).value)
      ensures EntryKey(AsEntry(docs[j]).value) != KeyOf(r)
    {
      ReplayStores(hash, events, docs[..n], j);
    }
    assert RestoredFrom(hash, docs, n, r);
  }

  lemma {:induction false} ReplayStores(hash: Hash, events: seq<Row>, docs: seq<Json>, j: nat)
    requires UniqueKeys(events) && j < |docs| && AsEntry(docs[j]).Some? && Honest(hash, AsEntry(docs[j]).value)
    ensures HasKey(ReplayEvents(hash, events, docs), EntryKey(AsEntry(docs[j]).value))
  {
    hide AsEntry, HasKey, ReplayOne, UniqueKeys, Honest, EntryKey, ExactlyOnce;
    var n := |docs| - 1;
    ReplayUnique(hash, events, docs[..n]);
    ReplayOneKeeps(hash, ReplayEvents(hash, events, docs[..n]), docs[n]);
    if j < n {
      ReplayStores(hash, events, docs[..n], j);
    }
  }

  lemma ReplayStoresAll(hash: Hash, events: seq<Row>, docs: seq<Json>)
    requires UniqueKeys(events)
    ensures forall d <- docs :: AsEntry(d).Some? && Honest(hash, AsEntry(d).value) ==>
      ExactlyOnce(ReplayEvents(hash, events, docs), EntryKey(AsEntry(d).value))
  {
    hide AsEntry, HasKey, UniqueKeys, Honest, EntryKey, ExactlyOnce;
    ReplayUnique(hash, events, docs);
    forall d <- docs | AsEntry(d).Some? && Honest(hash, AsEntry(d).value)
      ensures ExactlyOnce(ReplayEvents(hash, events, docs), EntryKey(AsEntry(d).value))
    {
      var j :| 0 <= j < |docs| && docs[j] == d;
      ReplayStores(hash, events, docs, j);
      UniqueMeansOnce(ReplayEvents(hash, events, docs), EntryKey(AsEntry(d).value));
    }
  }

  lemma ReplayUnique(hash: Hash, events: seq<Row>, docs: seq<Json>)
    requires UniqueKeys(events)
    ensures UniqueKeys(ReplayEvents(hash, events, docs))
  {
    ReplayRestores(hash, events, docs);
  }

  lemma OnceHas(events: seq<Row>, k: Key)
    requires ExactlyOnce(events, k)
    ensures HasKey(events, k)
  {
  }

  lemma ReplayOneKeeps(hash: Hash, events: seq<Row>, doc: Json)
    requires UniqueKeys(events)
    ensures var after := ReplayOne(hash, events, doc); UniqueKeys(after) && events <= after
    ensures forall k :: HasKey(events, k) ==> HasKey(ReplayOne(hash, events, doc), k)
    ensures AsEntry(doc).Some? && Honest(hash, AsEntry(doc).value)
      ==> HasKey(ReplayOne(hash, events, doc), EntryKey(AsEntry(doc).value))
  {
  }

  // ---- replaying again, after any crash, changes nothing ----

  // Nothing in this list of documents would be inserted.
  ghost predicate Folded(hash: Hash, events: seq<Row>, docs: seq<Json>) {
    forall d :: d in docs ==> ReplayOne(hash, events, d) == events
  }

  lemma {:induction false} FoldedStays(hash: Hash, events: seq<Row>, docs: seq<Json>)
    requires Folded(hash, events, docs)
    ensures ReplayEvents(hash, events, docs) == events
  {
    if docs != [] {
      FoldedStays(hash, events, docs[..|docs| - 1]);
    }
  }

  lemma {:induction false} ReplayFolds(hash: Hash, events: seq<Row>, docs: seq<Json>)
    requires UniqueKeys(events)
    ensures Folded(hash, ReplayEvents(hash, events, docs), docs)
  {
    if docs != [] {
      var n := |docs| - 1;
      var before, after := ReplayEvents(hash, events, docs[..n]), ReplayEvents(hash, events, docs);
      ReplayFolds(hash, events, docs[..n]);
      ReplayRestores(hash, events, docs[..n]);
      ReplayOneKeeps(hash, before, docs[n]);
      if AsEntry(docs[n]).Some? {
        InsertKeeps(before, RowOf(hash, Recovered(AsEntry(docs[n]).value)));
      }
      forall d | d in docs ensures ReplayOne(hash, after, d) == after {
        assert docs == docs[..n] + [docs[n]];
        if d in docs[..n] {
          assert ReplayOne(hash, before, d) == before;
          FoldedGrows(hash, before, after, d);
        }
      }
    }
  }

  lemma FoldedGrows(hash: Hash, before: seq<Row>, after: seq<Row>, doc: Json)
    requires ReplayOne(hash, before, doc) == before && before <= after
    ensures ReplayOne(hash, after, doc) == after
  {
  }

  // Replaying a log a second time changes nothing.
  lemma ReplayIsIdempotent(hash: Hash, events: seq<Row>, docs: seq<Json>)
    requires UniqueKeys(events)
    ensures var once := ReplayEvents(hash, events, docs); ReplayEvents(hash, once, docs) == once
  {
    ReplayFolds(hash, events, docs);
    FoldedStays(hash, ReplayEvents(hash, events, docs), docs);
  }

  lemma {:induction false} ReplaySplits(hash: Hash, events: seq<Row>, docs: seq<Json>, more: seq<Json>)
    ensures ReplayEvents(hash, events, docs + more) == ReplayEvents(hash, ReplayEvents(hash, events, docs), more)
  {
    if more == [] {
      assert docs + more == docs;
    } else {
      var n := |more| - 1;
      assert (docs + more)[..|docs| + n] == docs + more[..n];
      ReplaySplits(hash, events, docs, more[..n]);
    }
  }

  // A boot that crashed after k documents and then ran again ends where an undisturbed one does.
  lemma CrashedReplayCatchesUp(hash: Hash, events: seq<Row>, docs: seq<Json>, k: nat)
    requires UniqueKeys(events) && k <= |docs|
    ensures ReplayEvents(hash, ReplayEvents(hash, events, docs[..k]), docs) == ReplayEvents(hash, events, docs)
  {
    var part := ReplayEvents(hash, events, docs[..k]);
    ReplayRestores(hash, events, docs[..k]);
    ReplayFolds(hash, events, docs[..k]);
    FoldedStays(hash, part, docs[..k]);
    assert docs[..k] + docs[k..] == docs;
    ReplaySplits(hash, part, docs[..k], docs[k..]);
    ReplaySplits(hash, events, docs[..k], docs[k..]);
  }

  // Under an injective hash the row an entry finds is a row of that very payload.
  lemma SameHashSamePayload(hash: Hash, p: Json, q: Json)
    requires Injective(hash) && HashInput(hash, p) == HashInput(hash, q)
    ensures p == q
  {
    ParseWrite(p);
    ParseWrite(q);
  }

  // ---- the daemon's own code ----

  function EnsureSession(sessions: map<string, int>, id: string, ts: int): map<string, int> {
    if id in sessions then sessions else sessions[id := ts]
  }

  function ReplaySessions(sessions: map<string, int>, docs: seq<Json>): map<string, int> {
    if docs == [] then sessions
    else
      var before := ReplaySessions(sessions, docs[..|docs| - 1]);
      match AsEntry(docs[|docs| - 1])
      case None => before
      case Some(e) => EnsureSession(before, e.sessionId, e.ts)
  }

  class Database {
    const hash: Hash
    var sessions: map<string, int>
    var events: seq<Row>

    constructor (hash: Hash)
      ensures this.hash == hash && sessions == map[] && events == []
    {
      this.hash, sessions, events := hash, map[], [];
    }

    method AddSession(id: string, ts: int)
      modifies this
      ensures sessions == EnsureSession(old(sessions), id, ts) && events == old(events)
    {
      if id !in sessions {
        sessions := sessions[id := ts];
      }
    }

    method HasEvent(sessionId: string, inputHash: string) returns (found: bool)
      ensures found == HasKey(events, Key(sessionId, inputHash))
    {
      found := false;
      for i := 0 to |events|
        invariant found == HasKey(events[..i], Key(sessionId, inputHash))
      {
        assert events[..i + 1] == events[..i] + [events[i]];
        if KeyOf(events[i]) == Key(sessionId, inputHash) {
          assert events[i] in events[..i + 1];
          found := true;
        } else {
          assert forall r :: r in events[..i + 1] <==> r in events[..i] || r == events[i];
        }
      }
      assert events[..|events|] == events;
    }

    method RecordEvent(c: Capture)
      modifies this
      ensures events == InsertOrIgnore(old(events), RowOf(hash, c)) && sessions == old(sessions)
    {
      var row := RowOf(hash, c);
      if !HasKey(events, KeyOf(row)) {
        events := events + [row];
      }
    }
  }

  lemma HonestAt(hash: Hash, docs: seq<Json>, i: nat)
    requires AllHonest(hash, docs) && i < |docs| && AsEntry(docs[i]).Some?
    ensures Honest(hash, AsEntry(docs[i]).value)
  {
    assert docs[i] in docs;
  }

  // What a capture leaves in the events table: its row at the end, unless the session has one of the same input.
  ghost predicate Captured(hash: Hash, events: seq<Row>, c: Capture, after: seq<Row>) {
    if exists r <- events :: r.sessionId == c.sessionId && r.inputHash == hash(Write(c.payload)) then after == events
    else after == events + [
      Row(c.ts, c.sessionId, c.tool, hash(Write(c.payload)), Write(c.payload), c.tokensEst,
          if c.ttlMs.Some? && c.ttlMs.value > 0 then Some(c.ts + c.ttlMs.value) else None)]
  }

  lemma CaptureInserts(hash: Hash, events: seq<Row>, c: Capture)
    ensures Captured(hash, events, c, InsertOrIgnore(events, RowOf(hash, c)))
  {
  }

  // The capture case: the log first, then the row.
  method CaptureEvent(db: Database, wal: WAL, c: Capture)
    modifies db, wal
    ensures wal.text == old(wal.text) + Line(EntryOf(db.hash, c))
    ensures db.events == InsertOrIgnore(old(db.events), RowOf(db.hash, c))
    ensures db.sessions == EnsureSession(old(db.sessions), c.sessionId, c.ts)
    ensures Captured(db.hash, old(db.events), c, db.events)
    ensures forall id :: id in db.sessions <==> id in old(db.sessions) || id == c.sessionId
    ensures forall id <- old(db.sessions) :: db.sessions[id] == old(db.sessions)[id]
    ensures c.sessionId !in old(db.sessions) ==> db.sessions[c.sessionId] == c.ts
  {
    hide Captured, InsertOrIgnore, RowOf, Line, EntryOf;
    db.AddSession(c.sessionId, c.ts);
    wal.Append(EntryOf(db.hash, c));
    CaptureInserts(db.hash, db.events, c);
    db.RecordEvent(c);
  }

  // Boot: fold the log into the store, then cut it.
  method Boot(db: Database, wal: WAL) returns (found: nat, replayed: nat)
    requires UniqueKeys(db.events)
    modifies db, wal
    ensures db.events == ReplayEvents(db.hash, old(db.events), Replay(old(wal.text)))
    ensures db.sessions == ReplaySessions(old(db.sessions), Replay(old(wal.text)))
    ensures wal.text == "" && found == |Replay(old(wal.text))|
    ensures |db.events| - |old(db.events)| <= replayed <= found
    ensures AllHonest(db.hash, Replay(old(wal.text))) ==> replayed == |db.events| - |old(db.events)|
    ensures UniqueKeys(db.events) && old(db.events) <= db.events
    ensures forall k :: |old(db.events)| <= k < |db.events| ==> Restored(db.hash, Replay(old(wal.text)), db.events[k])
    ensures forall d <- Replay(old(wal.text)) :: AsEntry(d).Some? && Honest(db.hash, AsEntry(d).value) ==>
      ExactlyOnce(db.events, EntryKey(AsEntry(d).value))
  {
    hide UniqueKeys, Restored, ExactlyOnce, EnsureSession, Recovered;
    hide AsEntry, HasKey, RowOf, Honest, AllHonest, KeyOf, Write, Replay;
    var docs := wal.ReplayAll();
    found, replayed := |docs|, 0;
    ghost var start := db.events;
    assert docs[..0] == [];
    for i := 0 to |docs|
      invariant db.events == ReplayEvents(db.hash, start, docs[..i])
      invariant db.sessions == ReplaySessions(old(db.sessions), docs[..i])
      invariant |db.events| - |start| <= replayed <= i
      invariant AllHonest(db.hash, docs) ==> replayed == |db.events| - |start|
    {
      assert docs[..i + 1][..i] == docs[..i];
      match AsEntry(docs[i]) {
        case None =>
        case Some(e) =>
          db.AddSession(e.sessionId, e.ts);
          var known := db.HasEvent(e.sessionId, e.inputHash);
          if known {
            continue;
          }
          if AllHonest(db.hash, docs) {
            HonestAt(db.hash, docs, i);
            RecoveredKey(db.hash, e);
          }
          db.RecordEvent(Recovered(e));
          replayed := replayed + 1;
      }
    }
    assert docs[..|docs|] == docs;
    ReplayUnique(db.hash, start, docs);
    ReplayAddsFirst(db.hash, start, docs);
    ReplayStoresAll(db.hash, start, docs);
    wal.Truncate();
  }
}
