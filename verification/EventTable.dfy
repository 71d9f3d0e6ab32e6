// The events table and the statements the queue runs against it. Rows are kept in id order; ids are
// assigned by AUTOINCREMENT, so a new row goes last and no id is used twice.
module EventTable {
  import opened Sequences
  import opened Sorting

  const MAX_ATTEMPTS: nat := 3

  datatype Status = Raw | Claimed | Summarized | Skipped

  datatype Row = Row(
    id: nat, ts: int, sessionId: string, inputHash: string, expiresAt: Option<int>,
    status: Status, attempts: nat, lastError: Option<string>)

  ghost predicate Ordered(rows: seq<Row>) {
    forall i, j :: 0 <= i < j < |rows| ==> rows[i].id < rows[j].id
  }

  // Ids in order, below the next id to assign; no queued event has used up its attempts.
  ghost predicate TableValid(rows: seq<Row>, nextId: nat) {
    && Ordered(rows)
    && (forall r :: r in rows ==> r.id < nextId)
    && (forall r :: r in rows && r.status.Raw? ==> r.attempts < MAX_ATTEMPTS)
  }

  // UPDATE events SET ... : every row replaced by its image.
  function Update(rows: seq<Row>, f: Row -> Row): (r: seq<Row>)
    ensures |r| == |rows|
    ensures forall i :: 0 <= i < |r| ==> r[i] == f(rows[i])
  {
    seq(|rows|, i requires 0 <= i < |rows| => f(rows[i]))
  }

  function MarkOne(rows: seq<Row>, id: nat, status: Status): seq<Row> {
    Update(rows, (r: Row) => if r.id == id then r.(status := status) else r)
  }

  function MarkClaimed(rows: seq<Row>, ids: seq<nat>): seq<Row> {
    Update(rows, (r: Row) => if r.id in ids then r.(status := Claimed) else r)
  }

  // The second statement of releaseClaimed, given the attempt count its first statement read.
  function Release(rows: seq<Row>, id: nat, attempts: nat, error: string): seq<Row> {
    Update(rows, (r: Row) =>
      if r.id == id
      then r.(status := if attempts >= MAX_ATTEMPTS then Skipped else Raw, attempts := attempts, lastError := Some(error))
      else r)
  }

  // retrySkipped on the chosen rows.
  function Requeue(rows: seq<Row>, ids: set<nat>): seq<Row> {
    Update(rows, (r: Row) =>
      if r.id in ids && r.status.Skipped? then r.(status := Raw, attempts := 0, lastError := None) else r)
  }

  function AttemptsOf(rows: seq<Row>, id: nat): nat {
    if rows == [] then 0
    else if rows[0].id == id then rows[0].attempts
    else AttemptsOf(rows[1..], id)
  }

  function WithStatus(rows: seq<Row>, status: Status): seq<nat> {
    if rows == [] then []
    else if rows[0].status == status then [rows[0].id] + WithStatus(rows[1..], status)
    else WithStatus(rows[1..], status)
  }

  // SELECT ... WHERE status = ? ORDER BY id LIMIT ?; a negative limit is no limit in SQLite.
  function FirstWithStatus(rows: seq<Row>, status: Status, limit: int): seq<nat> {
    if limit < 0 then WithStatus(rows, status) else Take(WithStatus(rows, status), limit)
  }

  predicate HasKey(rows: seq<Row>, sessionId: string, inputHash: string) {
    exists i :: 0 <= i < |rows| && rows[i].sessionId == sessionId && rows[i].inputHash == inputHash
  }

  // INSERT OR IGNORE under the unique (session_id, input_hash) index.
  function Insert(rows: seq<Row>, nextId: nat, ts: int, sessionId: string, inputHash: string, expiresAt: Option<int>): seq<Row> {
    if HasKey(rows, sessionId, inputHash) then rows
    else rows + [Row(nextId, ts, sessionId, inputHash, expiresAt, Raw, 0, None)]
  }

  function Delete(rows: seq<Row>, drop: Row -> bool): seq<Row> {
    Filter(rows, (r: Row) => !drop(r))
  }

  // ---- facts ----

  ghost predicate HasRow(rows: seq<Row>, id: nat, status: Status) {
    exists r :: r in rows && r.id == id && r.status == status
  }

  lemma {:induction false} WithStatusRows(rows: seq<Row>, status: Status)
    ensures forall id :: id in WithStatus(rows, status) ==> HasRow(rows, id, status)
    ensures forall r :: r in rows && r.status == status ==> r.id in WithStatus(rows, status)
  {
    if rows != [] {
      var rest := rows[1..];
      WithStatusRows(rest, status);
      assert rows == [rows[0]] + rest;
      forall id | id in WithStatus(rest, status) ensures HasRow(rows, id, status) {
        assert HasRow(rest, id, status);
        var r :| r in rest && r.id == id && r.status == status;
        assert r in rows;
      }
    }
  }

  lemma {:induction false} WithStatusNoDup(rows: seq<Row>, status: Status)
    requires Ordered(rows)
    ensures NoDup(WithStatus(rows, status))
  {
    if rows != [] {
      WithStatusNoDup(rows[1..], status);
      WithStatusRows(rows[1..], status);
      HeadIsNew(rows);
      assert rows[0].id !in WithStatus(rows[1..], status);
    }
  }

  lemma WithStatusExact(rows: seq<Row>, status: Status)
    requires Ordered(rows)
    ensures NoDup(WithStatus(rows, status))
    ensures forall r :: r in rows ==> (r.id in WithStatus(rows, status) <==> r.status == status)
    ensures forall id :: id in WithStatus(rows, status) ==> HasRow(rows, id, status)
  {
    WithStatusNoDup(rows, status);
    WithStatusRows(rows, status);
    forall r | r in rows && r.id in WithStatus(rows, status) ensures r.status == status {
      assert HasRow(rows, r.id, status);
    }
  }

  lemma HeadIsNew(rows: seq<Row>)
    requires Ordered(rows) && rows != []
    ensures forall r :: r in rows[1..] ==> r.id != rows[0].id
  {
  }

  lemma UniqueId(rows: seq<Row>, a: Row, b: Row)
    requires Ordered(rows) && a in rows && b in rows && a.id == b.id
    ensures a == b
  {
  }

  ghost predicate Ascending(ids: seq<nat>) {
    forall i, j :: 0 <= i < j < |ids| ==> ids[i] < ids[j]
  }

  lemma {:induction false} WithStatusAscends(rows: seq<Row>, status: Status)
    requires Ordered(rows)
    ensures Ascending(WithStatus(rows, status))
  {
    if rows != [] {
      var rest := rows[1..];
      WithStatusAscends(rest, status);
      WithStatusRows(rest, status);
      forall id | id in WithStatus(rest, status) ensures rows[0].id < id {
        assert HasRow(rest, id, status);
        var k :| 0 <= k < |rest| && rest[k].id == id;
        assert rows[k + 1] == rest[k];
      }
      var ids := WithStatus(rows, status);
      forall i, j | 0 <= i < j < |ids| ensures ids[i] < ids[j] {
        assert ids[j] in WithStatus(rest, status) || rows[0].status != status;
      }
    }
  }

  // What a claim selects: in ascending order, ids of stored rows that have the status, at most `limit` of them;
  // all of them if the limit is negative or not reached, and otherwise those with the lowest ids.
  lemma FirstWithStatusExact(rows: seq<Row>, status: Status, limit: int)
    requires Ordered(rows)
    ensures var ids := FirstWithStatus(rows, status, limit);
      && (forall i, j :: 0 <= i < j < |ids| ==> ids[i] < ids[j])
      && (limit >= 0 ==> |ids| <= limit)
      && (forall id :: id in ids ==> HasRow(rows, id, status))
      && (forall r :: r in rows && r.id in ids ==> r.status == status)
      && (limit < 0 || |ids| < limit ==> forall r :: r in rows && r.status == status ==> r.id in ids)
      && (forall r :: r in rows && r.status == status && r.id !in ids ==> forall id :: id in ids ==> id < r.id)
  {
    WithStatusExact(rows, status);
    WithStatusAscends(rows, status);
    var all, ids := WithStatus(rows, status), FirstWithStatus(rows, status, limit);
    forall id | id in ids ensures HasRow(rows, id, status) {
      assert id in all;
    }
    forall r | r in rows && r.status == status && r.id !in ids ensures forall id :: id in ids ==> id < r.id {
      var k :| 0 <= k < |all| && all[k] == r.id;
      assert k >= |ids|;
    }
  }

  ghost function RowsWith(rows: seq<Row>, status: Status): set<Row> {
    set r | r in rows && r.status == status
  }

  // How many rows have a status.
  lemma {:induction false} WithStatusCounts(rows: seq<Row>, status: Status)
    requires Ordered(rows)
    ensures |WithStatus(rows, status)| == |RowsWith(rows, status)|
  {
    hide RowsWith;
    RowsWithStep(rows, status);
    if rows != [] {
      WithStatusCounts(rows[1..], status);
    }
  }

  lemma RowsWithStep(rows: seq<Row>, status: Status)
    requires Ordered(rows)
    ensures rows == [] ==> RowsWith(rows, status) == {}
    ensures rows != [] ==>
      && RowsWith(rows, status) == RowsWith(rows[1..], status) + (if rows[0].status == status then {rows[0]} else {})
      && rows[0] !in RowsWith(rows[1..], status)
  {
    if rows != [] {
      HeadIsNew(rows);
      assert rows == [rows[0]] + rows[1..];
    }
  }

  lemma {:induction false} AttemptsOfRow(rows: seq<Row>, r: Row)
    requires Ordered(rows) && r in rows
    ensures AttemptsOf(rows, r.id) == r.attempts
  {
    if rows[0].id == r.id {
      UniqueId(rows, rows[0], r);
    } else {
      assert r in rows[1..];
      AttemptsOfRow(rows[1..], r);
    }
  }

  lemma {:induction false} NoRowNoAttempts(rows: seq<Row>, id: nat)
    ensures (forall r <- rows :: r.id != id) ==> AttemptsOf(rows, id) == 0
  {
    if rows != [] {
      NoRowNoAttempts(rows[1..], id);
      assert rows[0] in rows;
    }
  }

  lemma AttemptsAgree(rows: seq<Row>, id: nat)
    requires Ordered(rows)
    ensures forall k :: 0 <= k < |rows| && rows[k].id == id ==> AttemptsOf(rows, id) == rows[k].attempts
  {
    forall k | 0 <= k < |rows| && rows[k].id == id ensures AttemptsOf(rows, id) == rows[k].attempts {
      AttemptsOfRow(rows, rows[k]);
    }
  }

  // Rows are unique by session and input hash.
  ghost predicate KeysUnique(rows: seq<Row>) {
    forall i, j :: 0 <= i < j < |rows| ==> rows[i].sessionId != rows[j].sessionId || rows[i].inputHash != rows[j].inputHash
  }

  // An insert leaves a row of the key, the old one if there was one and else a new raw one, and keys stay unique.
  lemma InsertExact(rows: seq<Row>, nextId: nat, ts: int, sessionId: string, inputHash: string, expiresAt: Option<int>)
    requires TableValid(rows, nextId) && KeysUnique(rows)
    ensures var after := Insert(rows, nextId, ts, sessionId, inputHash, expiresAt);
      && TableValid(after, nextId + 1) && KeysUnique(after)
      && ((exists r :: r in rows && r.sessionId == sessionId && r.inputHash == inputHash) ==> after == rows)
      && ((forall r :: r in rows ==> r.sessionId != sessionId || r.inputHash != inputHash) ==>
            after == rows + [Row(nextId, ts, sessionId, inputHash, expiresAt, Raw, 0, None)])
  {
    var after := Insert(rows, nextId, ts, sessionId, inputHash, expiresAt);
    if !HasKey(rows, sessionId, inputHash) {
      forall r | r in rows ensures r.sessionId != sessionId || r.inputHash != inputHash {
        var k :| 0 <= k < |rows| && rows[k] == r;
      }
    } else {
      var k :| 0 <= k < |rows| && rows[k].sessionId == sessionId && rows[k].inputHash == inputHash;
      assert rows[k] in rows;
    }
  }

  lemma UpdateKeepsKeys(rows: seq<Row>, f: Row -> Row)
    requires KeysUnique(rows)
    requires forall r :: f(r).sessionId == r.sessionId && f(r).inputHash == r.inputHash
    ensures KeysUnique(Update(rows, f))
  {
  }

  lemma UpdateValid(rows: seq<Row>, nextId: nat, f: Row -> Row)
    requires TableValid(rows, nextId)
    requires forall r :: r in rows ==> f(r).id == r.id && (f(r).status.Raw? ==> f(r).attempts < MAX_ATTEMPTS)
    ensures TableValid(Update(rows, f), nextId)
  {
  }

  // Rows of an updated table are images of rows.
  lemma UpdateMembers(rows: seq<Row>, f: Row -> Row)
    ensures forall r :: r in rows ==> f(r) in Update(rows, f)
    ensures forall r' :: r' in Update(rows, f) ==> exists r :: r in rows && r' == f(r)
  {
  }

  lemma {:induction false} DeleteOrdered(rows: seq<Row>, drop: Row -> bool)
    requires Ordered(rows)
    ensures Ordered(Delete(rows, drop))
    ensures forall r :: r in Delete(rows, drop) <==> r in rows && !drop(r)
  {
    var keep := (r: Row) => !drop(r);
    FilterMembers(rows, keep);
    if rows != [] {
      DeleteOrdered(rows[1..], drop);
      FilterMembers(rows[1..], keep);
      assert forall r :: r in rows[1..] ==> rows[0].id < r.id;
    }
  }
}
