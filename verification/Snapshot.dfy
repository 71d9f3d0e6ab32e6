// The seven tables, the snapshot they are exported to, and the import that rebuilds them. A row is a map
// from column to cell; base64 and the JSON text of one line are parameters.
module Snapshot {
  import opened Sequences
  import opened TextLines

  datatype Cell = Null | Int(n: int) | Real(x: real) | Text(s: string) | Blob(bytes: seq<byte>)

  datatype Table = Sessions | Events | Summaries | Embeddings | Supersedes | Edges | Cache

  datatype Column =
    | Id | StartedAt | EndedAt | Cwd | MetaJson
    | Ts | SessionId | Tool | InputHash | PayloadJson | Status | TokensEst | ExpiresAt | Attempts | LastError
    | SymbolsJson
    | EventId | Model | PromptHash | Words | TokensIn | TokensOut | Confidence | PinnedAt
    | SummaryId | Dim | Vec
    | NewerId | OlderId | Cosine
    | FromKind | FromId | ToKind | ToId | EdgeType | Source
    | CacheKey | CreatedAt

  type Row = map<Column, Cell>

  type Store = map<Table, seq<Row>>

  // ---- the schema ----

  function Columns(t: Table): set<Column> {
    match t
    case Sessions => {Id, StartedAt, EndedAt, Cwd, MetaJson}
    case Events =>
      {Id, Ts, SessionId, Tool, InputHash, PayloadJson, Status, TokensEst, Attempts, LastError, ExpiresAt, SymbolsJson}
    case Summaries => {Id, EventId, Ts, Model, PromptHash, Words, TokensIn, TokensOut, Confidence, PinnedAt}
    case Embeddings => {SummaryId, Dim, Vec}
    case Edges => {Id, Ts, FromKind, FromId, ToKind, ToId, EdgeType, Confidence, Source, MetaJson}
    case Supersedes => {NewerId, OlderId, Cosine, Ts}
    case Cache => {CacheKey, Words, TokensIn, TokensOut, CreatedAt}
  }

  // The columns the export selects and the import inserts.
  function Selected(t: Table): set<Column> {
    match t
    case Sessions => {Id, StartedAt, EndedAt, Cwd, MetaJson}
    case Events => {Id, Ts, SessionId, Tool, InputHash, PayloadJson, Status, TokensEst, ExpiresAt, Attempts, LastError}
    case Summaries => {Id, EventId, Ts, Model, PromptHash, Words, TokensIn, TokensOut, Confidence, PinnedAt}
    case Embeddings => {SummaryId, Dim, Vec}
    case Supersedes => {NewerId, OlderId, Cosine, Ts}
    case Edges => {Id, Ts, FromKind, FromId, ToKind, ToId, EdgeType, Confidence, Source, MetaJson}
    case Cache => {CacheKey, Words, TokensIn, TokensOut, CreatedAt}
  }

  function Nullable(t: Table): set<Column> {
    match t
    case Sessions => {EndedAt, Cwd, MetaJson}
    case Events => {ExpiresAt, LastError, SymbolsJson}
    case Summaries => {TokensIn, TokensOut, Confidence, PinnedAt}
    case Edges => {MetaJson}
    case Cache => {TokensIn, TokensOut}
    case _ => {}
  }

  predicate Fits(t: Table, r: Row) {
    && r.Keys == Columns(t)
    && (forall c <- r :: c !in Nullable(t) ==> r[c] != Null)
    && (Vec in r ==> r[Vec].Blob?)
  }

  // A column that is missing reads, and binds, as null.
  function Get(r: Row, c: Column): Cell {
    if c in r then r[c] else Null
  }

  // The primary key and unique indexes of each table.
  function Uniques(t: Table): seq<seq<Column>> {
    match t
    case Sessions => [[Id]]
    case Events => [[Id], [SessionId, InputHash]]
    case Summaries => [[Id], [EventId]]
    case Embeddings => [[SummaryId]]
    case Supersedes => [[NewerId, OlderId]]
    case Edges => [[Id]]
    case Cache => [[CacheKey]]
  }

  predicate Agree(a: Row, b: Row, columns: seq<Column>) {
    forall c <- columns :: Get(a, c) == Get(b, c)
  }

  predicate Conflict(t: Table, a: Row, b: Row) {
    exists u <- Uniques(t) :: Agree(a, b, u)
  }

  // The rows a row refers to, as table and id.
  function References(t: Table, r: Row): set<(Table, Cell)> {
    match t
    case Summaries => {(Events, Get(r, EventId))}
    case Embeddings => {(Summaries, Get(r, SummaryId))}
    case Supersedes => {(Summaries, Get(r, NewerId)), (Summaries, Get(r, OlderId))}
    case _ => {}
  }

  function At(s: Store, t: Table): seq<Row> {
    if t in s then s[t] else []
  }

  predicate Stands(s: Store, at: (Table, Cell)) {
    exists r <- At(s, at.0) :: Get(r, Id) == at.1
  }

  ghost predicate Shaped(s: Store) {
    && (forall t: Table :: t in s)
    && (forall t: Table, r :: r in At(s, t) ==> Fits(t, r))
  }

  ghost predicate KeysHold(s: Store) {
    forall t: Table, i, j :: 0 <= i < j < |At(s, t)| ==> !Conflict(t, At(s, t)[i], At(s, t)[j])
  }

  ghost predicate ReferencesHold(s: Store) {
    forall t: Table, r, at :: r in At(s, t) && at in References(t, r) ==> Stands(s, at)
  }

  ghost predicate Valid(s: Store) {
    Shaped(s) && KeysHold(s) && ReferencesHold(s)
  }

  ghost predicate UniqueBy(rows: seq<Row>, c: Column) {
    forall i, j :: 0 <= i < j < |rows| ==> Get(rows[i], c) != Get(rows[j], c)
  }

  ghost predicate UniqueByBoth(rows: seq<Row>, c: Column, d: Column) {
    forall i, j :: 0 <= i < j < |rows| ==> Get(rows[i], c) != Get(rows[j], c) || Get(rows[i], d) != Get(rows[j], d)
  }

  // Each row's column c is the id of some row of the parent table.
  ghost predicate RefersTo(rows: seq<Row>, c: Column, parents: seq<Row>) {
    forall r <- rows :: exists x <- parents :: Get(x, Id) == Get(r, c)
  }

  lemma AgreeIs(a: Row, b: Row, columns: seq<Column>)
    ensures |columns| == 1 ==> (Agree(a, b, columns) <==> Get(a, columns[0]) == Get(b, columns[0]))
    ensures |columns| == 2 ==>
      (Agree(a, b, columns) <==> Get(a, columns[0]) == Get(b, columns[0]) && Get(a, columns[1]) == Get(b, columns[1]))
  {
  }

  ghost predicate KeysOf(s: Store, t: Table) {
    match t
    case Sessions => UniqueBy(At(s, t), Id)
    case Events => UniqueBy(At(s, t), Id) && UniqueByBoth(At(s, t), SessionId, InputHash)
    case Summaries => UniqueBy(At(s, t), Id) && UniqueBy(At(s, t), EventId)
    case Embeddings => UniqueBy(At(s, t), SummaryId)
    case Supersedes => UniqueByBoth(At(s, t), NewerId, OlderId)
    case Edges => UniqueBy(At(s, t), Id)
    case Cache => UniqueBy(At(s, t), CacheKey)
  }

  lemma ConflictIs(t: Table, a: Row, b: Row)
    ensures Conflict(t, a, b) <==>
      match t
      case Sessions => Get(a, Id) == Get(b, Id)
      case Events => Get(a, Id) == Get(b, Id) || (Get(a, SessionId) == Get(b, SessionId) && Get(a, InputHash) == Get(b, InputHash))
      case Summaries => Get(a, Id) == Get(b, Id) || Get(a, EventId) == Get(b, EventId)
      case Embeddings => Get(a, SummaryId) == Get(b, SummaryId)
      case Supersedes => Get(a, NewerId) == Get(b, NewerId) && Get(a, OlderId) == Get(b, OlderId)
      case Edges => Get(a, Id) == Get(b, Id)
      case Cache => Get(a, CacheKey) == Get(b, CacheKey)
  {
    hide Agree;
    forall u <- Uniques(t) {
      AgreeIs(a, b, u);
    }
    assert Uniques(t)[0] in Uniques(t) && Uniques(t)[|Uniques(t)| - 1] in Uniques(t);
  }

  // The keys that hold, and the parents that exist, table by table.
  lemma ConstraintsAre(s: Store)
    ensures KeysHold(s) <==> forall t: Table :: KeysOf(s, t)
    ensures ReferencesHold(s) <==>
      && RefersTo(At(s, Summaries), EventId, At(s, Events))
      && RefersTo(At(s, Embeddings), SummaryId, At(s, Summaries))
      && RefersTo(At(s, Supersedes), NewerId, At(s, Summaries))
      && RefersTo(At(s, Supersedes), OlderId, At(s, Summaries))
  {
    forall t: Table ensures KeysOf(s, t) <==> forall i, j :: 0 <= i < j < |At(s, t)| ==> !Conflict(t, At(s, t)[i], At(s, t)[j]) {
      KeysAre(s, t);
    }
    ReferencesAre(s);
  }

  lemma KeysAre(s: Store, t: Table)
    ensures KeysOf(s, t) <==> forall i, j :: 0 <= i < j < |At(s, t)| ==> !Conflict(t, At(s, t)[i], At(s, t)[j])
  {
    hide Conflict, At;
    forall i, j | 0 <= i < j < |At(s, t)| {
      ConflictIs(t, At(s, t)[i], At(s, t)[j]);
    }
  }

  lemma ReferencesAre(s: Store)
    ensures ReferencesHold(s) <==>
      && RefersTo(At(s, Summaries), EventId, At(s, Events))
      && RefersTo(At(s, Embeddings), SummaryId, At(s, Summaries))
      && RefersTo(At(s, Supersedes), NewerId, At(s, Summaries))
      && RefersTo(At(s, Supersedes), OlderId, At(s, Summaries))
  {
    hide At, Get;
    if ReferencesHold(s) {
      forall r | r in At(s, Summaries) ensures Stands(s, (Events, Get(r, EventId))) {
        assert (Events, Get(r, EventId)) in References(Summaries, r);
      }
      forall r | r in At(s, Embeddings) ensures Stands(s, (Summaries, Get(r, SummaryId))) {
        assert (Summaries, Get(r, SummaryId)) in References(Embeddings, r);
      }
      forall r | r in At(s, Supersedes)
        ensures Stands(s, (Summaries, Get(r, NewerId))) && Stands(s, (Summaries, Get(r, OlderId)))
      {
        assert (Summaries, Get(r, NewerId)) in References(Supersedes, r);
        assert (Summaries, Get(r, OlderId)) in References(Supersedes, r);
      }
    }
  }

  function Empty(): Store {
    map[Sessions := [], Events := [], Summaries := [], Embeddings := [], Supersedes := [], Edges := [], Cache := []]
  }

  // ---- rows in and out ----

  datatype Base64 = Base64(encode: seq<byte> -> string, decode: string -> seq<byte>)

  ghost predicate Exact(b: Base64) {
    forall x :: b.decode(b.encode(x)) == x
  }

  datatype Record = Record(table: Option<Table>, row: Row)

  function Exported(b: Base64, t: Table, r: Row): Row {
    map c | c in Selected(t) && c in r :: if c == Vec && r[c].Blob? then Text(b.encode(r[c].bytes)) else r[c]
  }

  // row[c] ?? d
  function GetOr(r: Row, c: Column, d: Cell): Cell {
    if Get(r, c) == Null then d else Get(r, c)
  }

  // What an import statement binds for one of its columns.
  function Bound(b: Base64, t: Table, r: Row, c: Column): Cell {
    if t == Events && c == Status then GetOr(r, c, Text("raw"))
    else if t == Events && c in {TokensEst, Attempts} then GetOr(r, c, Int(0))
    else if c == Vec then Blob(b.decode(if Get(r, Vec).Text? then Get(r, Vec).s else ""))
    else Get(r, c)
  }

  // The row an import statement inserts: a column it does not name is null.
  function Imported(b: Base64, t: Table, r: Row): Row {
    map c | c in Columns(t) :: if c in Selected(t) then Bound(b, t, r, c) else Null
  }

  // Every column but events.symbols_json is exported.
  lemma AllButSymbols(t: Table)
    ensures Selected(t) == Columns(t) - {SymbolsJson}
    ensures SymbolsJson in Columns(t) <==> t == Events
  {
  }

  // What an event without a status, token estimate or attempt count gets.
  lemma ImportDefaults(b: Base64, raw: Row)
    ensures Get(raw, Status) == Null ==> Get(Imported(b, Events, raw), Status) == Text("raw")
    ensures Get(raw, TokensEst) == Null ==> Get(Imported(b, Events, raw), TokensEst) == Int(0)
    ensures Get(raw, Attempts) == Null ==> Get(Imported(b, Events, raw), Attempts) == Int(0)
  {
    hide Selected, Columns;
    AllButSymbols(Events);
    EventColumns();
  }

  lemma EventColumns()
    ensures {Status, TokensEst, Attempts} <= Columns(Events) && {Status, TokensEst, Attempts} !! Nullable(Events)
  {
  }

  lemma ExportedCell(b: Base64, t: Table, r: Row, c: Column)
    requires Fits(t, r) && c in Selected(t)
    ensures c in r && Get(Exported(b, t, r), c) == (if r[c].Blob? && c == Vec then Text(b.encode(r[c].bytes)) else r[c])
    ensures c == Vec ==> r[c].Blob?
    ensures t == Events && c in {Status, TokensEst, Attempts} ==> r[c] != Null
  {
    hide Selected, Nullable, Columns;
    AllButSymbols(t);
    EventColumns();
  }

  lemma BoundBack(b: Base64, t: Table, r: Row, c: Column)
    requires Exact(b) && Fits(t, r) && c in Selected(t)
    ensures c in r && Bound(b, t, Exported(b, t, r), c) == r[c]
  {
    hide Selected, Fits, Exported, Get;
    ExportedCell(b, t, r, c);
  }

  // A row without its symbols.
  function Trimmed(t: Table, r: Row): Row {
    if t == Events then r[SymbolsJson := Null] else r
  }

  // Every column of every table comes back as it was, but an event's symbols come back null.
  lemma RowRoundTrip(b: Base64, t: Table, r: Row)
    requires Exact(b) && Fits(t, r)
    ensures Imported(b, t, Exported(b, t, r)) == Trimmed(t, r)
    ensures forall c <- r :: c != SymbolsJson ==> Get(Imported(b, t, Exported(b, t, r)), c) == r[c]
  {
    hide Bound, Exported, Selected, Columns, Nullable;
    AllButSymbols(t);
    forall c | c in Selected(t) ensures c in r && Bound(b, t, Exported(b, t, r), c) == r[c] {
      BoundBack(b, t, r, c);
    }
  }

  // ---- importing ----

  // A row that INSERT OR IGNORE ignores is skipped; a missing parent is not ignored but thrown.
  datatype Outcome = Inserted | Skipped | Thrown

  predicate Ignored(s: Store, t: Table, r: Row) {
    || (exists x <- At(s, t) :: Conflict(t, x, r))
    || (exists c <- Columns(t) :: c !in Nullable(t) && Get(r, c) == Null)
  }

  function ImportRow(b: Base64, s: Store, t: Table, raw: Row): (Store, Outcome) {
    var r := Imported(b, t, raw);
    if Ignored(s, t, r) then (s, Skipped)
    else if !(forall at <- References(t, r) :: Stands(s, at)) then (s, Thrown)
    else (Add(s, t, r), Inserted)
  }

  // A record of a table that the import does not know is skipped.
  function ImportRecord(b: Base64, s: Store, rec: Record): (Store, Outcome) {
    match rec.table
    case None => (s, Skipped)
    case Some(t) => ImportRow(b, s, t, rec.row)
  }

  datatype Tally = Tally(store: Store, inserted: nat, skipped: nat, errors: nat)

  function Count(y: Tally, after: (Store, Outcome)): Tally {
    match after.1
    case Inserted => Tally(after.0, y.inserted + 1, y.skipped, y.errors)
    case Skipped => Tally(after.0, y.inserted, y.skipped + 1, y.errors)
    case Thrown => Tally(after.0, y.inserted, y.skipped, y.errors + 1)
  }

  function ImportRecords(b: Base64, y: Tally, recs: seq<Record>): Tally {
    if recs == [] then y
    else
      var before := ImportRecords(b, y, recs[..|recs| - 1]);
      Count(before, ImportRecord(b, before.store, recs[|recs| - 1]))
  }

  lemma {:induction false} ImportAppends(b: Base64, y: Tally, recs: seq<Record>, more: seq<Record>)
    ensures ImportRecords(b, y, recs + more) == ImportRecords(b, ImportRecords(b, y, recs), more)
  {
    if more == [] {
      assert recs + more == recs;
    } else {
      var n := |more| - 1;
      assert (recs + more)[..|recs| + n] == recs + more[..n];
      ImportAppends(b, y, recs, more[..n]);
    }
  }

  function Add(s: Store, t: Table, r: Row): Store {
    s[t := At(s, t) + [r]]
  }

  lemma ImportedFits(b: Base64, t: Table, raw: Row)
    requires forall c <- Columns(t) :: c !in Nullable(t) ==> Get(Imported(b, t, raw), c) != Null
    ensures Fits(t, Imported(b, t, raw))
  {
    hide Selected, Nullable, GetOr, Columns;
    AllButSymbols(t);
  }

  lemma AddKeeps(s: Store, t: Table, r: Row)
    requires Valid(s) && Fits(t, r)
    requires forall x <- At(s, t) :: !Conflict(t, x, r)
    requires forall at <- References(t, r) :: Stands(s, at)
    ensures Valid(Add(s, t, r))
  {
    hide Selected, Columns, Nullable, Conflict, References, Fits, Stands;
    var after := Add(s, t, r);
    forall u: Table, x, at | x in At(after, u) && at in References(u, x) ensures Stands(after, at) {
      StandsStays(s, t, r, at);
    }
    forall u: Table, i, j | 0 <= i < j < |At(after, u)| ensures !Conflict(u, At(after, u)[i], At(after, u)[j]) {
      assert i < |At(s, u)| && (u == t ==> At(s, t)[i] in At(s, t));
    }
  }

  lemma StandsStays(s: Store, t: Table, r: Row, at: (Table, Cell))
    ensures Stands(s, at) ==> Stands(Add(s, t, r), at)
  {
  }

  // Whatever is imported, the schema's constraints hold after it.
  lemma ImportKeepsValid(b: Base64, s: Store, rec: Record)
    requires Valid(s)
    ensures Valid(ImportRecord(b, s, rec).0)
  {
    hide Valid, Imported, Conflict, References, Stands, Selected, Columns, Nullable;
    if rec.table.Some? && ImportRecord(b, s, rec).1 == Inserted {
      ImportedFits(b, rec.table.value, rec.row);
      AddKeeps(s, rec.table.value, Imported(b, rec.table.value, rec.row));
    }
  }

  // ---- exporting ----

  const ORDER: seq<Table> := [Sessions, Events, Summaries, Embeddings, Supersedes, Edges, Cache]

  function TableRecords(b: Base64, t: Table, rows: seq<Row>): (recs: seq<Record>)
    ensures |recs| == |rows|
  {
    if rows == [] then []
    else TableRecords(b, t, rows[..|rows| - 1]) + [Record(Some(t), Exported(b, t, rows[|rows| - 1]))]
  }

  function ExportTables(b: Base64, s: Store, tables: seq<Table>): seq<Record> {
    if tables == [] then []
    else
      var t := tables[|tables| - 1];
      ExportTables(b, s, tables[..|tables| - 1]) + TableRecords(b, t, At(s, t))
  }

  function Export(b: Base64, s: Store): seq<Record> {
    ExportTables(b, s, ORDER)
  }

  // ---- importing an export ----

  // A store that holds, of each table of s, some first rows: an empty store, s itself, or what an import of s
  // that was interrupted left.
  ghost predicate PartOf(p: Store, s: Store) {
    forall t: Table :: t in p && At(p, t) <= At(s, t)
  }

  // Rows that p does not hold carry no symbols.
  ghost predicate PlainBeyond(p: Store, s: Store) {
    forall t: Table, k :: |At(p, t)| <= k < |At(s, t)| ==> Trimmed(t, At(s, t)[k]) == At(s, t)[k]
  }

  // What table u holds after the given tables, and the first n rows of t, were imported into p.
  ghost function ReachedAt(p: Store, s: Store, tables: seq<Table>, t: Table, n: nat, u: Table): seq<Row>
    requires PartOf(p, s) && n <= |At(s, t)|
  {
    if u in tables then At(s, u)
    else if u == t && n > |At(p, t)| then At(s, t)[..n]
    else At(p, u)
  }

  ghost function Reached(p: Store, s: Store, tables: seq<Table>, t: Table, n: nat): Store
    requires PartOf(p, s) && n <= |At(s, t)|
  {
    map u: Table | u in p :: ReachedAt(p, s, tables, t, n, u)
  }

  lemma AllTables(t: Table)
    ensures t in ORDER
  {
  }

  function SizeOf(s: Store, tables: seq<Table>): nat {
    if tables == [] then 0 else SizeOf(s, tables[..|tables| - 1]) + |At(s, tables[|tables| - 1])|
  }

  function Size(s: Store): nat {
    SizeOf(s, ORDER)
  }

  lemma SelfConflict(t: Table, r: Row)
    ensures Conflict(t, r, Trimmed(t, r))
  {
    assert Agree(r, Trimmed(t, r), Uniques(t)[0]);
  }

  // A row already there is skipped.
  lemma KnownRow(b: Base64, c: Store, t: Table, r: Row)
    requires Exact(b) && Fits(t, r) && r in At(c, t)
    ensures ImportRow(b, c, t, Exported(b, t, r)) == (c, Skipped)
  {
    hide Trimmed, Columns, Selected, Imported, Exported, Conflict;
    RowRoundTrip(b, t, r);
    SelfConflict(t, r);
  }

  // The next row of a table goes in, when the rows it refers to are there.
  lemma NextRow(b: Base64, c: Store, s: Store, t: Table, n: nat)
    requires Exact(b) && Valid(s) && n < |At(s, t)| && At(c, t) == At(s, t)[..n]
    requires Trimmed(t, At(s, t)[n]) == At(s, t)[n]
    requires forall at <- References(t, At(s, t)[n]) :: At(c, at.0) == At(s, at.0)
    ensures ImportRow(b, c, t, Exported(b, t, At(s, t)[n])) == (Add(c, t, At(s, t)[n]), Inserted)
  {
    hide Imported, Exported, Conflict, References, Selected, Columns, Nullable;
    var r := At(s, t)[n];
    assert r in At(s, t);
    RowRoundTrip(b, t, r);
    forall x | x in At(c, t) ensures !Conflict(t, x, r) {
      var i :| 0 <= i < n && At(s, t)[i] == x;
    }
    forall at | at in References(t, r) ensures Stands(c, at) {
      assert Stands(s, at);
    }
  }

  // Every table comes after the tables its rows refer to.
  ghost predicate ParentsFirst(tables: seq<Table>) {
    && NoDup(tables)
    && (forall i, r, at :: 0 <= i < |tables| && at in References(tables[i], r) ==> at.0 in tables[..i])
  }

  lemma OrderHasParentsFirst()
    ensures ParentsFirst(ORDER)
  {
    forall i, r, at | 0 <= i < |ORDER| && at in References(ORDER[i], r) ensures at.0 in ORDER[..i] {
      assert i > 1 ==> ORDER[..i][1] == Events;
      assert i > 2 ==> ORDER[..i][2] == Summaries;
    }
  }

  ghost predicate Loads(b: Base64, y: Tally, recs: seq<Record>, after: Store) {
    var z := ImportRecords(b, y, recs);
    && z.store == after
    && z.errors == y.errors
    && z.inserted - y.inserted == Size(after) - Size(y.store)
    && z.inserted + z.skipped == y.inserted + y.skipped + |recs|
  }

  lemma LoadsRow(b: Base64, y: Tally, recs: seq<Record>, mid: Store, rec: Record, after: Store)
    requires Loads(b, y, recs, mid)
    requires || (ImportRecord(b, mid, rec) == (after, Skipped) && after == mid)
             || (ImportRecord(b, mid, rec) == (after, Inserted) && Size(after) == Size(mid) + 1)
    ensures Loads(b, y, recs + [rec], after)
  {
  }

  lemma LoadsNothing(b: Base64, y: Tally)
    ensures Loads(b, y, [], y.store)
  {
  }

  lemma LoadsBoth(b: Base64, y: Tally, recs: seq<Record>, mid: Store, more: seq<Record>, after: Store)
    requires Loads(b, y, recs, mid) && Loads(b, ImportRecords(b, y, recs), more, after)
    ensures Loads(b, y, recs + more, after)
  {
    hide ImportRecords, Size;
    ImportAppends(b, y, recs, more);
  }

  lemma {:induction false} SizeOfGrows(s: Store, t: Table, r: Row, tables: seq<Table>)
    requires NoDup(tables)
    ensures SizeOf(Add(s, t, r), tables) == SizeOf(s, tables) + if t in tables then 1 else 0
  {
    if tables != [] {
      SizeOfGrows(s, t, r, tables[..|tables| - 1]);
    }
  }

  lemma SizeGrows(s: Store, t: Table, r: Row)
    ensures Size(Add(s, t, r)) == Size(s) + 1
  {
    hide ORDER, SizeOf;
    OrderHasParentsFirst();
    AllTables(t);
    SizeOfGrows(s, t, r, ORDER);
  }

  lemma ReachedAtNext(p: Store, s: Store, tables: seq<Table>, t: Table, n: nat, u: Table)
    requires PartOf(p, s) && t !in tables && n < |At(s, t)|
    ensures var before, after := ReachedAt(p, s, tables, t, n, u), ReachedAt(p, s, tables, t, n + 1, u);
      after == if u == t && n >= |At(p, t)| then before + [At(s, t)[n]] else before
    ensures u in tables ==> ReachedAt(p, s, tables, t, n, u) == At(s, u)
    ensures ReachedAt(p, s, tables, t, n, t) == if n < |At(p, t)| then At(p, t) else At(s, t)[..n]
    ensures n < |At(p, t)| ==> At(s, t)[n] in At(p, t)
  {
  }

  lemma ReachedHolds(p: Store, s: Store, tables: seq<Table>, t: Table, n: nat, u: Table)
    requires PartOf(p, s) && n <= |At(s, t)|
    ensures At(Reached(p, s, tables, t, n), u) == ReachedAt(p, s, tables, t, n, u)
  {
  }

  lemma ReachedStepAt(p: Store, s: Store, tables: seq<Table>, t: Table, n: nat, u: Table)
    requires PartOf(p, s) && t !in tables && n < |At(s, t)|
    ensures var before, after := Reached(p, s, tables, t, n), Reached(p, s, tables, t, n + 1);
      At(after, u) == At(if n < |At(p, t)| then before else Add(before, t, At(s, t)[n]), u)
  {
    hide ReachedAt, PartOf, Reached;
    ReachedHolds(p, s, tables, t, n, u);
    ReachedHolds(p, s, tables, t, n, t);
    ReachedHolds(p, s, tables, t, n + 1, u);
    ReachedAtNext(p, s, tables, t, n, u);
  }

  lemma Total(p: Store, s: Store)
    requires PartOf(p, s)
    ensures forall u: Table :: u in p
  {
  }

  lemma SameStore(a: Store, b: Store)
    requires forall u: Table :: u in a && u in b
    requires forall u: Table :: At(a, u) == At(b, u)
    ensures a == b
  {
    forall u <- a ensures a[u] == b[u] {
      assert At(a, u) == At(b, u);
    }
  }

  lemma ReachedStep(p: Store, s: Store, tables: seq<Table>, t: Table, n: nat)
    requires PartOf(p, s) && t !in tables && n < |At(s, t)|
    ensures var before, after := Reached(p, s, tables, t, n), Reached(p, s, tables, t, n + 1);
      after == if n < |At(p, t)| then before else Add(before, t, At(s, t)[n])
  {
    Total(p, s);
    hide ReachedAt, PartOf, At;
    forall u: Table {:trigger At(Reached(p, s, tables, t, n + 1), u)}
      ensures At(Reached(p, s, tables, t, n + 1), u) ==
        At(if n < |At(p, t)| then Reached(p, s, tables, t, n) else Add(Reached(p, s, tables, t, n), t, At(s, t)[n]), u)
    {
      ReachedStepAt(p, s, tables, t, n, u);
    }
    SameStore(Reached(p, s, tables, t, n + 1),
      if n < |At(p, t)| then Reached(p, s, tables, t, n) else Add(Reached(p, s, tables, t, n), t, At(s, t)[n]));
  }

  lemma ReachedNext(p: Store, s: Store, tables: seq<Table>, t: Table, n: nat)
    requires PartOf(p, s) && t !in tables && n < |At(s, t)|
    ensures var before, after := Reached(p, s, tables, t, n), Reached(p, s, tables, t, n + 1);
      && (forall u <- tables :: At(before, u) == At(s, u))
      && (if n < |At(p, t)| then At(s, t)[n] in At(before, t) && after == before
          else At(before, t) == At(s, t)[..n] && after == Add(before, t, At(s, t)[n]))
  {
    hide ReachedAt, Reached, PartOf, At, Add;
    ReachedStep(p, s, tables, t, n);
    ReachedHolds(p, s, tables, t, n, t);
    ReachedAtNext(p, s, tables, t, n, t);
    forall u <- tables ensures At(Reached(p, s, tables, t, n), u) == At(s, u) {
      ReachedHolds(p, s, tables, t, n, u);
      ReachedAtNext(p, s, tables, t, n, u);
    }
  }

  // One more row of a table: skipped if p held it, inserted if not.
  lemma RowLoads(b: Base64, p: Store, s: Store, tables: seq<Table>, t: Table, n: nat)
    requires Exact(b) && Valid(s) && PartOf(p, s) && PlainBeyond(p, s) && t !in tables && n < |At(s, t)|
    requires forall at <- References(t, At(s, t)[n]) :: at.0 in tables
    ensures var before := Reached(p, s, tables, t, n);
      ImportRow(b, before, t, Exported(b, t, At(s, t)[n])) ==
        if n < |At(p, t)| then (before, Skipped) else (Add(before, t, At(s, t)[n]), Inserted)
  {
    hide ImportRow, Imported, Exported, Conflict, References, Selected, Columns, Nullable, Reached, PartOf, Trimmed;
    var before := Reached(p, s, tables, t, n);
    ReachedNext(p, s, tables, t, n);
    if n < |At(p, t)| {
      assert At(s, t)[n] in At(s, t);
      KnownRow(b, before, t, At(s, t)[n]);
    } else {
      NextRow(b, before, s, t, n);
    }
  }

  lemma {:induction false} TableLoads(b: Base64, p: Store, s: Store, tables: seq<Table>, t: Table, n: nat, y: Tally)
    requires Exact(b) && Valid(s) && PartOf(p, s) && PlainBeyond(p, s) && t !in tables && n <= |At(s, t)|
    requires forall r, at :: at in References(t, r) ==> at.0 in tables
    requires y.store == Reached(p, s, tables, t, 0)
    ensures Loads(b, y, TableRecords(b, t, At(s, t)[..n]), Reached(p, s, tables, t, n))
  {
    hide ImportRow, Exported, References, Valid, Size, Reached, PartOf, PlainBeyond, Add, Exact, ImportRecords, Loads;
    if n == 0 {
      LoadsNothing(b, y);
    } else {
      var rows, mid := At(s, t)[..n], Reached(p, s, tables, t, n - 1);
      TableLoads(b, p, s, tables, t, n - 1, y);
      assert rows[..n - 1] == At(s, t)[..n - 1] && rows[n - 1] == At(s, t)[n - 1];
      RowLoads(b, p, s, tables, t, n - 1);
      ReachedNext(p, s, tables, t, n - 1);
      SizeGrows(mid, t, At(s, t)[n - 1]);
      LoadsRow(b, y, TableRecords(b, t, rows[..n - 1]), mid, Record(Some(t), Exported(b, t, rows[n - 1])),
        Reached(p, s, tables, t, n));
    }
  }

  ghost function DoneAt(p: Store, s: Store, tables: seq<Table>, u: Table): seq<Row> {
    if u in tables then At(s, u) else At(p, u)
  }

  ghost function Done(p: Store, s: Store, tables: seq<Table>): Store {
    map u: Table | u in p :: DoneAt(p, s, tables, u)
  }

  lemma DoneAtSteps(p: Store, s: Store, tables: seq<Table>, t: Table, u: Table)
    requires PartOf(p, s) && t !in tables
    ensures ReachedAt(p, s, tables, t, 0, u) == DoneAt(p, s, tables, u)
    ensures ReachedAt(p, s, tables, t, |At(s, t)|, u) == DoneAt(p, s, tables + [t], u)
  {
  }

  lemma DoneSteps(p: Store, s: Store, tables: seq<Table>, t: Table)
    requires PartOf(p, s) && t !in tables
    ensures Reached(p, s, tables, t, 0) == Done(p, s, tables)
    ensures Reached(p, s, tables, t, |At(s, t)|) == Done(p, s, tables + [t])
  {
    hide ReachedAt, DoneAt, PartOf;
    forall u: Table {
      DoneAtSteps(p, s, tables, t, u);
    }
  }

  lemma {:induction false} TablesLoad(b: Base64, p: Store, s: Store, tables: seq<Table>)
    requires Exact(b) && Valid(s) && PartOf(p, s) && PlainBeyond(p, s) && ParentsFirst(tables)
    ensures Loads(b, Tally(p, 0, 0, 0), ExportTables(b, s, tables), Done(p, s, tables))
  {
    hide ImportRow, References, Valid, Size, Done, Reached, PartOf, PlainBeyond, TableRecords, Exact;
    var y := Tally(p, 0, 0, 0);
    if tables == [] {
      NoneDone(p, s);
    } else {
      hide ImportRecords;
      var n := |tables| - 1;
      var t := tables[n];
      var mid := ImportRecords(b, y, ExportTables(b, s, tables[..n]));
      TablesLoad(b, p, s, tables[..n]);
      DoneSteps(p, s, tables[..n], t);
      assert tables[..n] + [t] == tables;
      TableLoads(b, p, s, tables[..n], t, |At(s, t)|, mid);
      assert At(s, t)[..|At(s, t)|] == At(s, t);
      LoadsBoth(b, y, ExportTables(b, s, tables[..n]), mid.store, TableRecords(b, t, At(s, t)), Done(p, s, tables));
    }
  }

  lemma NoneDone(p: Store, s: Store)
    ensures Done(p, s, []) == p
  {
  }

  lemma AllDone(p: Store, s: Store)
    requires PartOf(p, s) && forall t: Table :: t in s
    ensures Done(p, s, ORDER) == s
  {
    hide ORDER;
    forall u: Table ensures u in ORDER && u in p {
      AllTables(u);
      assert At(p, u) <= At(s, u);
    }
  }

  lemma {:induction false} ExportCounts(b: Base64, s: Store, tables: seq<Table>)
    ensures |ExportTables(b, s, tables)| == SizeOf(s, tables)
  {
    if tables != [] {
      ExportCounts(b, s, tables[..|tables| - 1]);
    }
  }

  lemma {:induction false} PartIsSmaller(p: Store, s: Store, tables: seq<Table>)
    requires PartOf(p, s)
    ensures SizeOf(p, tables) <= SizeOf(s, tables)
  {
    if tables != [] {
      PartIsSmaller(p, s, tables[..|tables| - 1]);
      assert At(p, tables[|tables| - 1]) <= At(s, tables[|tables| - 1]);
    }
  }

  // p holds, of each table of s, some first rows, up to the symbols of events.
  ghost predicate Overlaps(p: Store, s: Store) {
    && Shaped(p)
    && (forall t: Table :: |At(p, t)| <= |At(s, t)|)
    && (forall t: Table, k :: 0 <= k < |At(p, t)| ==> Trimmed(t, At(p, t)[k]) == Trimmed(t, At(s, t)[k]))
  }

  function TrimmedRows(t: Table, rows: seq<Row>): seq<Row> {
    seq(|rows|, i requires 0 <= i < |rows| => Trimmed(t, rows[i]))
  }

  // The rows p holds as they are, and after them the others of s without their symbols.
  ghost function Completed(p: Store, s: Store): Store
    requires Overlaps(p, s)
  {
    map t: Table | t in p :: At(p, t) + TrimmedRows(t, At(s, t)[|At(p, t)|..])
  }

  // The two stores differ in the symbols of events only.
  ghost predicate Alike(s: Store, u: Store) {
    && Shaped(s) && Shaped(u)
    && (forall t: Table :: |At(s, t)| == |At(u, t)|)
    && (forall t: Table, k :: 0 <= k < |At(s, t)| ==> Trimmed(t, At(s, t)[k]) == Trimmed(t, At(u, t)[k]))
  }

  lemma TrimmedFits(t: Table, r: Row)
    requires Fits(t, r)
    ensures Fits(t, Trimmed(t, r)) && Trimmed(t, Trimmed(t, r)) == Trimmed(t, r)
  {
    hide Columns;
    AllButSymbols(t);
    SymbolsNullable();
  }

  lemma SymbolsNullable()
    ensures SymbolsJson in Nullable(Events)
  {
  }

  lemma CompletedAt(p: Store, s: Store, t: Table)
    requires Overlaps(p, s)
    ensures At(Completed(p, s), t) == At(p, t) + TrimmedRows(t, At(s, t)[|At(p, t)|..])
  {
  }

  lemma CompletedRow(p: Store, s: Store, t: Table, k: nat)
    requires Overlaps(p, s) && Shaped(s) && k < |At(s, t)|
    ensures |At(Completed(p, s), t)| == |At(s, t)|
    ensures var r := At(Completed(p, s), t)[k];
      && Fits(t, r) && Trimmed(t, r) == Trimmed(t, At(s, t)[k])
      && (if k < |At(p, t)| then r == At(p, t)[k] else Trimmed(t, r) == r)
  {
    hide Fits, Trimmed, Completed;
    CompletedAt(p, s, t);
    assert At(s, t)[k] in At(s, t);
    if k < |At(p, t)| {
      assert At(p, t)[k] in At(p, t);
    } else {
      TrimmedFits(t, At(s, t)[k]);
    }
  }

  lemma CompletedIsAlike(p: Store, s: Store)
    requires Overlaps(p, s) && Shaped(s)
    ensures Alike(s, Completed(p, s)) && PartOf(p, Completed(p, s)) && PlainBeyond(p, Completed(p, s))
  {
    hide Fits, Trimmed, Completed, At;
    var u := Completed(p, s);
    forall t: Table ensures t in u && At(u, t) == At(p, t) + TrimmedRows(t, At(s, t)[|At(p, t)|..]) {
      CompletedAt(p, s, t);
      CompletedHas(p, s, t);
    }
    forall t: Table, k | 0 <= k < |At(s, t)|
      ensures Fits(t, At(u, t)[k]) && Trimmed(t, At(u, t)[k]) == Trimmed(t, At(s, t)[k])
      ensures k >= |At(p, t)| ==> Trimmed(t, At(u, t)[k]) == At(u, t)[k]
    {
      CompletedRow(p, s, t, k);
    }
  }

  lemma CompletedHas(p: Store, s: Store, t: Table)
    requires Overlaps(p, s)
    ensures t in Completed(p, s)
  {
  }

  lemma SameReferences(t: Table, a: Row, b: Row)
    requires Trimmed(t, a) == Trimmed(t, b)
    ensures References(t, a) == References(t, b) && Get(a, Id) == Get(b, Id)
    ensures forall c <- Columns(t) :: c != SymbolsJson ==> Get(a, c) == Get(b, c)
  {
    assert forall c :: c != SymbolsJson ==> Get(Trimmed(t, a), c) == Get(a, c) && Get(Trimmed(t, b), c) == Get(b, c);
  }

  lemma SameConflicts(t: Table, a: Row, b: Row, x: Row, y: Row)
    requires Trimmed(t, a) == Trimmed(t, x) && Trimmed(t, b) == Trimmed(t, y) && Conflict(t, x, y)
    ensures Conflict(t, a, b)
  {
    hide Trimmed;
    SameCells(t, a, x);
    SameCells(t, b, y);
    UniquesNotSymbols(t);
    var u :| u in Uniques(t) && Agree(x, y, u);
    assert Agree(a, b, u);
  }

  lemma SameCells(t: Table, a: Row, b: Row)
    requires Trimmed(t, a) == Trimmed(t, b)
    ensures forall c :: c != SymbolsJson ==> Get(a, c) == Get(b, c)
  {
    assert forall c :: c != SymbolsJson ==> Get(Trimmed(t, a), c) == Get(a, c) && Get(Trimmed(t, b), c) == Get(b, c);
  }

  lemma UniquesNotSymbols(t: Table)
    ensures forall u <- Uniques(t) :: SymbolsJson !in u
  {
  }

  // Symbols play no part in the constraints.
  lemma AlikeValid(s: Store, u: Store)
    requires Valid(s) && Alike(s, u)
    ensures Valid(u)
  {
    hide Trimmed, Conflict, References, Fits;
    forall t: Table, i, j | 0 <= i < j < |At(u, t)| ensures !Conflict(t, At(u, t)[i], At(u, t)[j]) {
      if Conflict(t, At(u, t)[i], At(u, t)[j]) {
        SameConflicts(t, At(s, t)[i], At(s, t)[j], At(u, t)[i], At(u, t)[j]);
      }
    }
    forall t: Table, r, at | r in At(u, t) && at in References(t, r) ensures Stands(u, at) {
      var k :| 0 <= k < |At(u, t)| && At(u, t)[k] == r;
      SameReferences(t, At(s, t)[k], r);
      assert At(s, t)[k] in At(s, t) && Stands(s, at);
      AlikeStands(s, u, at);
    }
  }

  lemma AlikeStands(s: Store, u: Store, at: (Table, Cell))
    requires Alike(s, u) && Stands(s, at)
    ensures Stands(u, at)
  {
    hide Trimmed, Shaped;
    var r :| r in At(s, at.0) && Get(r, Id) == at.1;
    var k :| 0 <= k < |At(s, at.0)| && At(s, at.0)[k] == r;
    SameReferences(at.0, r, At(u, at.0)[k]);
    assert At(u, at.0)[k] in At(u, at.0);
  }

  // Nor are they exported.
  lemma SameExported(b: Base64, t: Table, a: Row, c: Row)
    requires Fits(t, a) && Fits(t, c) && Trimmed(t, a) == Trimmed(t, c)
    ensures Exported(b, t, a) == Exported(b, t, c)
  {
    hide Columns, Selected, Nullable, Trimmed;
    AllButSymbols(t);
    SameCells(t, a, c);
    forall x | x in Selected(t) ensures x in a && x in c && a[x] == c[x] {
      assert Get(a, x) == Get(c, x);
    }
  }

  lemma {:induction false} SameTableRecords(b: Base64, t: Table, rows: seq<Row>, other: seq<Row>)
    requires |rows| == |other|
    requires forall k :: 0 <= k < |rows| ==> Fits(t, rows[k]) && Fits(t, other[k]) && Trimmed(t, rows[k]) == Trimmed(t, other[k])
    ensures TableRecords(b, t, rows) == TableRecords(b, t, other)
  {
    hide Fits, Trimmed, Exported;
    if rows != [] {
      var n := |rows| - 1;
      SameTableRecords(b, t, rows[..n], other[..n]);
      SameExported(b, t, rows[n], other[n]);
    }
  }

  lemma {:induction false} SameExport(b: Base64, s: Store, u: Store, tables: seq<Table>)
    requires Alike(s, u)
    ensures ExportTables(b, s, tables) == ExportTables(b, u, tables) && SizeOf(s, tables) == SizeOf(u, tables)
  {
    hide Fits, Trimmed, TableRecords;
    if tables != [] {
      var t := tables[|tables| - 1];
      SameExport(b, s, u, tables[..|tables| - 1]);
      forall k | 0 <= k < |At(s, t)| ensures Fits(t, At(s, t)[k]) && Fits(t, At(u, t)[k]) {
        assert At(s, t)[k] in At(s, t) && At(u, t)[k] in At(u, t);
      }
      SameTableRecords(b, t, At(s, t), At(u, t));
    }
  }

  // Importing an export into any part of the exported store, such as an empty one, one an interrupted import
  // left, or the store itself, completes it: missing rows go in with every column but their symbols, present ones
  // are skipped, and no row is refused for a missing parent.
  lemma ImportRebuilds(b: Base64, p: Store, s: Store)
    requires Exact(b) && Valid(s) && Overlaps(p, s)
    ensures Size(p) <= Size(s) && Valid(Completed(p, s))
      && ImportRecords(b, Tally(p, 0, 0, 0), Export(b, s)) == Tally(Completed(p, s), Size(s) - Size(p), Size(p), 0)
  {
    hide ORDER, ImportRecords, Done, PartOf, PlainBeyond, Overlaps, Alike, SizeOf, ExportTables, Completed;
    var u := Completed(p, s);
    CompletedIsAlike(p, s);
    AlikeValid(s, u);
    SameExport(b, s, u, ORDER);
    OrderHasParentsFirst();
    PartIsSmaller(p, u, ORDER);
    ExportCounts(b, u, ORDER);
    TablesLoad(b, p, u, ORDER);
    AllDone(p, u);
  }

  // ---- the snapshot as text, one record a line ----

  // parse yields None where JSON.parse, or taking table and row out of what it gave, throws.
  datatype LineCodec = LineCodec(write: Record -> string, parse: string -> Option<Record>)

  // JSON carries these records: each is written as one line and read back as it was.
  ghost predicate Carries(codec: LineCodec, recs: seq<Record>) {
    forall rec <- recs :: var line := codec.write(rec);
      NEWLINE !in line && !Blank(line) && codec.parse(line) == Some(rec)
  }

  function Written(codec: LineCodec, recs: seq<Record>): (lines: seq<string>)
    ensures |lines| == |recs|
  {
    if recs == [] then []
    else Written(codec, recs[..|recs| - 1]) + [codec.write(recs[|recs| - 1])]
  }

  function ImportLine(b: Base64, codec: LineCodec, y: Tally, line: string): Tally {
    if Blank(line) then y
    else
      match codec.parse(line)
      case None => y.(errors := y.errors + 1)
      case Some(rec) => Count(y, ImportRecord(b, y.store, rec))
  }

  function ImportLines(b: Base64, codec: LineCodec, y: Tally, lines: seq<string>): Tally {
    if lines == [] then y
    else ImportLine(b, codec, ImportLines(b, codec, y, lines[..|lines| - 1]), lines[|lines| - 1])
  }

  lemma {:induction false} LinesAreRecords(b: Base64, codec: LineCodec, y: Tally, recs: seq<Record>)
    requires Carries(codec, recs)
    ensures ImportLines(b, codec, y, Written(codec, recs)) == ImportRecords(b, y, recs)
  {
    hide ImportRecord, Count;
    if recs != [] {
      var lines := Written(codec, recs);
      assert lines[..|recs| - 1] == Written(codec, recs[..|recs| - 1]);
      LinesAreRecords(b, codec, y, recs[..|recs| - 1]);
    }
  }

  lemma {:induction false} WrittenOneLine(codec: LineCodec, recs: seq<Record>)
    requires Carries(codec, recs)
    ensures forall line <- Written(codec, recs) :: NEWLINE !in line
  {
    if recs != [] {
      WrittenOneLine(codec, recs[..|recs| - 1]);
    }
  }

  lemma TextIsRecords(b: Base64, codec: LineCodec, y: Tally, recs: seq<Record>)
    requires Carries(codec, recs)
    ensures ImportLines(b, codec, y, Split(Join(Written(codec, recs)))) == ImportRecords(b, y, recs)
  {
    if recs == [] {
      assert [""][..0] == [] && Blank("");
    } else {
      WrittenOneLine(codec, recs);
      SplitJoin(Written(codec, recs));
      LinesAreRecords(b, codec, y, recs);
    }
  }

  // A snapshot's text, imported into any part of the store it was taken of, completes it.
  lemma SnapshotRebuilds(b: Base64, codec: LineCodec, p: Store, s: Store)
    requires Exact(b) && Valid(s) && Overlaps(p, s) && Carries(codec, Export(b, s))
    ensures Size(p) <= Size(s)
      && ImportLines(b, codec, Tally(p, 0, 0, 0), Split(Join(Written(codec, Export(b, s)))))
        == Tally(Completed(p, s), Size(s) - Size(p), Size(p), 0)
  {
    hide Export, ImportRecords, ImportLines, Size, Written, Valid, Overlaps, Completed;
    ImportRebuilds(b, p, s);
    TextIsRecords(b, codec, Tally(p, 0, 0, 0), Export(b, s));
  }

  // Into an empty store every row goes in, as it was but for the symbols of events; imported again, or into the
  // store it was taken of, none does.
  lemma RestoreAndRepeat(b: Base64, codec: LineCodec, s: Store)
    requires Exact(b) && Valid(s) && Carries(codec, Export(b, s))
    ensures var lines := Split(Join(Written(codec, Export(b, s))));
      var once := ImportLines(b, codec, Tally(Empty(), 0, 0, 0), lines);
      && Valid(once.store)
      && (forall t: Table :: At(once.store, t) == TrimmedRows(t, At(s, t)))
      && once.inserted == Size(s) && once.skipped == 0 && once.errors == 0
      && ImportLines(b, codec, Tally(once.store, 0, 0, 0), lines) == Tally(once.store, 0, Size(s), 0)
      && ImportLines(b, codec, Tally(s, 0, 0, 0), lines) == Tally(s, 0, Size(s), 0)
  {
    hide Export, ImportLines, Written, Valid, Completed, Trimmed, Overlaps, Alike, SizeOf, ORDER, Empty, Shaped;
    NothingInEmpty(ORDER);
    EmptyOverlaps(s);
    var u := Completed(Empty(), s);
    SnapshotRebuilds(b, codec, Empty(), s);
    ImportRebuilds(b, Empty(), s);
    forall t: Table ensures At(u, t) == TrimmedRows(t, At(s, t)) {
      EmptyAt(t);
      CompletedAt(Empty(), s, t);
      assert At(s, t)[0..] == At(s, t);
    }
    IsAlike(s);
    WholeOverlaps(s, s);
    SnapshotRebuilds(b, codec, s, s);
    ValidIsShaped(s);
    CompletedIsAlike(Empty(), s);
    SameExport(b, s, u, ORDER);
    WholeOverlaps(u, s);
    SnapshotRebuilds(b, codec, u, s);
  }

  lemma {:induction false} NothingInEmpty(tables: seq<Table>)
    ensures SizeOf(Empty(), tables) == 0
  {
    if tables != [] {
      NothingInEmpty(tables[..|tables| - 1]);
      EmptyAt(tables[|tables| - 1]);
    }
  }

  lemma EmptyAt(t: Table)
    ensures t in Empty() && At(Empty(), t) == []
  {
    match t
    case Sessions =>
    case Events =>
    case Summaries =>
    case Embeddings =>
    case Supersedes =>
    case Edges =>
    case Cache =>
  }

  lemma ValidIsShaped(s: Store)
    requires Valid(s)
    ensures Shaped(s)
  {
  }

  lemma IsAlike(s: Store)
    requires Valid(s)
    ensures Alike(s, s)
  {
    hide Fits, Trimmed;
  }

  lemma EmptyOverlaps(s: Store)
    ensures Overlaps(Empty(), s)
  {
    hide Empty, Trimmed, Fits;
    forall t: Table ensures t in Empty() && At(Empty(), t) == [] {
      EmptyAt(t);
    }
  }

  // A store like s holds all of it.
  lemma WholeOverlaps(u: Store, s: Store)
    requires Alike(s, u)
    ensures Overlaps(u, s) && Completed(u, s) == u
  {
    hide Trimmed, Fits;
    forall t: Table ensures At(u, t) + TrimmedRows(t, At(s, t)[|At(u, t)|..]) == At(u, t) {
      assert At(s, t)[|At(u, t)|..] == [];
    }
    forall t <- u ensures Completed(u, s)[t] == u[t] {
      CompletedAt(u, s, t);
    }
  }

  // ---- the counts ----

  ghost function LinesToImport(lines: seq<string>): set<int> {
    set k | 0 <= k < |lines| && !Blank(lines[k])
  }

  lemma LinesToImportStep(lines: seq<string>)
    ensures lines == [] ==> LinesToImport(lines) == {}
    ensures lines != [] ==>
      var n := |lines| - 1;
      && LinesToImport(lines) == LinesToImport(lines[..n]) + (if Blank(lines[n]) then {} else {n})
      && n !in LinesToImport(lines[..n])
  {
    hide Blank;
  }

  lemma CountedImport(b: Base64, y: Tally, rec: Record)
    ensures var z := Count(y, ImportRecord(b, y.store, rec));
      && z.inserted + z.skipped + z.errors == y.inserted + y.skipped + y.errors + 1
      && z.inserted - y.inserted == Size(z.store) - Size(y.store)
  {
    hide Size, Imported, Ignored, References, Stands, Add;
    if rec.table.Some? {
      SizeGrows(y.store, rec.table.value, Imported(b, rec.table.value, rec.row));
    }
  }

  // Each line that is not blank is counted once, and what is counted as inserted is what the store grew by.
  lemma {:induction false} TallyAddsUp(b: Base64, codec: LineCodec, s: Store, lines: seq<string>)
    ensures var z := ImportLines(b, codec, Tally(s, 0, 0, 0), lines);
      && z.inserted + z.skipped + z.errors == |LinesToImport(lines)|
      && z.inserted == Size(z.store) - Size(s)
  {
    hide Size, Blank, LinesToImport, ImportRecord, Count;
    LinesToImportStep(lines);
    if lines != [] {
      var n := |lines| - 1;
      var y := ImportLines(b, codec, Tally(s, 0, 0, 0), lines[..n]);
      TallyAddsUp(b, codec, s, lines[..n]);
      if !Blank(lines[n]) && codec.parse(lines[n]).Some? {
        CountedImport(b, y, codec.parse(lines[n]).value);
      }
    }
  }

  // ---- the daemon's own code ----

  class Storage {
    const b: Base64
    const codec: LineCodec
    var tables: Store

    constructor (b: Base64, codec: LineCodec)
      ensures this.b == b && this.codec == codec && tables == Empty()
    {
      this.b, this.codec, tables := b, codec, Empty();
    }

    method ExportRows() returns (recs: seq<Record>)
      ensures recs == Export(b, tables)
    {
      hide Exported, At;
      recs := [];
      for i := 0 to |ORDER|
        invariant recs == ExportTables(b, tables, ORDER[..i])
      {
        var rows := At(tables, ORDER[i]);
        ghost var before := recs;
        for j := 0 to |rows|
          invariant recs == before + TableRecords(b, ORDER[i], rows[..j])
        {
          assert rows[..j + 1][..j] == rows[..j];
          recs := recs + [Record(Some(ORDER[i]), Exported(b, ORDER[i], rows[j]))];
        }
        assert rows[..|rows|] == rows;
        assert ORDER[..i + 1][..i] == ORDER[..i];
      }
      assert ORDER[..|ORDER|] == ORDER;
    }

    // Whether a row went in is told by the table's row count before and after.
    method ImportOne(rec: Record) returns (outcome: Outcome)
      modifies this
      ensures (tables, outcome) == ImportRecord(b, old(tables), rec)
    {
      match rec.table {
        case None => return Skipped;
        case Some(t) =>
          var r := Imported(b, t, rec.row);
          var before := |At(tables, t)|;
          if !Ignored(tables, t, r) {
            if !(forall at <- References(t, r) :: Stands(tables, at)) {
              return Thrown;
            }
            tables := Add(tables, t, r);
          }
          var after := |At(tables, t)|;
          return if after > before then Inserted else Skipped;
      }
    }

    method HandleExport() returns (ndjson: string, records: nat)
      ensures ndjson == Join(Written(codec, Export(b, tables))) && records == |Export(b, tables)|
    {
      var recs := ExportRows();
      var all: seq<string> := [];
      for i := 0 to |recs|
        invariant all == Written(codec, recs[..i])
      {
        assert recs[..i + 1][..i] == recs[..i];
        all := all + [codec.write(recs[i])];
      }
      assert recs[..|recs|] == recs;
      return Join(all), |all|;
    }

    method HandleImport(ndjson: string) returns (inserted: nat, skipped: nat, errors: nat)
      modifies this
      ensures Tally(tables, inserted, skipped, errors) == ImportLines(b, codec, Tally(old(tables), 0, 0, 0), Split(ndjson))
      ensures inserted + skipped + errors == |LinesToImport(Split(ndjson))|
      ensures inserted == Size(tables) - Size(old(tables))
    {
      hide Size, LinesToImport;
      TallyAddsUp(b, codec, tables, Split(ndjson));
      inserted, skipped, errors := 0, 0, 0;
      var lines := Split(ndjson);
      for i := 0 to |lines|
        invariant Tally(tables, inserted, skipped, errors) == ImportLines(b, codec, Tally(old(tables), 0, 0, 0), lines[..i])
      {
        assert lines[..i + 1][..i] == lines[..i];
        if Blank(lines[i]) {
          continue;
        }
        match codec.parse(lines[i]) {
          case None => errors := errors + 1;
          case Some(rec) =>
            var outcome := ImportOne(rec);
            match outcome {
              case Inserted => inserted := inserted + 1;
              case Skipped => skipped := skipped + 1;
              case Thrown => errors := errors + 1;
            }
        }
      }
      assert lines[..|lines|] == lines;
    }
  }
}
