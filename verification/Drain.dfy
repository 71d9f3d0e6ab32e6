// The event store as one caller sees it, and runDrain: claim a batch, summarise each event, settle it.
module Drain {
  import opened Sequences
  import opened EventTable

  // The queue statements of the store.
  class EventStore {
    var rows: seq<Row>
    var nextId: nat

    ghost predicate Valid()
      reads this
    {
      TableValid(rows, nextId) && KeysUnique(rows)
    }

    constructor ()
      ensures Valid() && rows == []
    {
      rows, nextId := [], 1;
    }

    method RecordEvent(ts: int, sessionId: string, inputHash: string, ttlMs: Option<int>)
      requires Valid()
      modifies this
      ensures Valid()
      ensures rows == Insert(old(rows), old(nextId), ts, sessionId, inputHash,
                             if ttlMs.Some? && ttlMs.value > 0 then Some(ts + ttlMs.value) else None)
      ensures if exists r :: r in old(rows) && r.sessionId == sessionId && r.inputHash == inputHash then rows == old(rows)
        else rows == old(rows) + [
          Row(old(nextId), ts, sessionId, inputHash,
              if ttlMs.Some? && ttlMs.value > 0 then Some(ts + ttlMs.value) else None, Raw, 0, None)]
    {
      var expiresAt := if ttlMs.Some? && ttlMs.value > 0 then Some(ts + ttlMs.value) else None;
      InsertExact(rows, nextId, ts, sessionId, inputHash, expiresAt);
      rows := Insert(rows, nextId, ts, sessionId, inputHash, expiresAt);
      nextId := nextId + 1;
    }

    // status is 'summarized' or 'skipped', the two settled states.
    method MarkEventStatus(id: nat, status: Status)
      requires Valid() && (status.Summarized? || status.Skipped?)
      modifies this`rows
      ensures Valid() && rows == MarkOne(old(rows), id, status)
      ensures |rows| == |old(rows)|
      ensures forall k :: 0 <= k < |rows| ==>
        rows[k] == if old(rows)[k].id == id then old(rows)[k].(status := status) else old(rows)[k]
    {
      UpdateValid(rows, nextId, (r: Row) => if r.id == id then r.(status := status) else r);
      UpdateKeepsKeys(rows, (r: Row) => if r.id == id then r.(status := status) else r);
      rows := MarkOne(rows, id, status);
    }

    method ClaimPending(limit: int) returns (ids: seq<nat>)
      requires Valid()
      modifies this`rows
      ensures Valid()
      ensures ids == FirstWithStatus(old(rows), Raw, limit) && rows == MarkClaimed(old(rows), ids)
      ensures forall i, j :: 0 <= i < j < |ids| ==> ids[i] < ids[j]
      ensures limit >= 0 ==> |ids| <= limit
      ensures forall id :: id in ids ==> exists r :: r in old(rows) && r.id == id && r.status.Raw?
      ensures forall r :: r in old(rows) && r.id in ids ==> r.status.Raw?
      ensures limit < 0 || |ids| < limit ==> forall r :: r in old(rows) && r.status.Raw? ==> r.id in ids
      ensures forall r :: r in old(rows) && r.status.Raw? && r.id !in ids ==> forall id :: id in ids ==> id < r.id
      ensures |rows| == |old(rows)|
      ensures forall k :: 0 <= k < |rows| ==>
        rows[k] == if old(rows)[k].id in ids then old(rows)[k].(status := Claimed) else old(rows)[k]
    {
      ids := FirstWithStatus(rows, Raw, limit);
      FirstWithStatusExact(rows, Raw, limit);
      if |ids| == 0 {
        assert MarkClaimed(rows, ids) == rows;
        return;
      }
      UpdateValid(rows, nextId, (r: Row) => if r.id in ids then r.(status := Claimed) else r);
      UpdateKeepsKeys(rows, (r: Row) => if r.id in ids then r.(status := Claimed) else r);
      rows := MarkClaimed(rows, ids);
    }

    method ReleaseClaimed(id: nat, error: string) returns (released: bool)
      requires Valid()
      modifies this`rows
      ensures Valid() && rows == Release(old(rows), id, AttemptsOf(old(rows), id) + 1, error)
      ensures released <==> AttemptsOf(old(rows), id) + 1 < MAX_ATTEMPTS
      ensures |rows| == |old(rows)|
      ensures forall k :: 0 <= k < |rows| ==>
        var r, r' := old(rows)[k], rows[k];
        if r.id == id then
          r' == r.(status := if r.attempts + 1 < 3 then Raw else Skipped, attempts := r.attempts + 1, lastError := Some(error))
          && (released <==> r.attempts + 1 < 3)
        else r' == r
      ensures (forall r <- old(rows) :: r.id != id) ==> released
    {
      hide AttemptsOf, Ordered, KeysUnique;
      var attempts := AttemptsOf(rows, id) + 1;
      ghost var f := (r: Row) =>
        if r.id == id
        then r.(status := if attempts >= MAX_ATTEMPTS then Skipped else Raw, attempts := attempts, lastError := Some(error))
        else r;
      UpdateValid(rows, nextId, f);
      UpdateKeepsKeys(rows, f);
      AttemptsAgree(rows, id);
      NoRowNoAttempts(rows, id);
      rows := Release(rows, id, attempts, error);
      released := attempts < MAX_ATTEMPTS;
    }

    method CountByStatus(status: Status) returns (n: nat)
      requires Valid()
      ensures n == |WithStatus(rows, status)| == |RowsWith(rows, status)|
    {
      WithStatusCounts(rows, status);
      n := |WithStatus(rows, status)|;
    }
  }

  // ---- settling one event ----

  function Lower(s: string): string {
    seq(|s|, i requires 0 <= i < |s| => if 'A' <= s[i] <= 'Z' then s[i] - 'A' + 'a' else s[i])
  }

  predicate Contains(s: string, part: string) {
    exists i {:trigger s[i..]} :: 0 <= i <= |s| && part <= s[i..]
  }

  const RETRYABLE: seq<string> := [
    "quota", "rate limit", "rate-limit", "429", "502", "503", "504", "timeout",
    "etimedout", "econnreset", "econnrefused", "enotfound", "socket hang up", "overloaded"]

  // A transient failure, to be tried again later.
  predicate IsRetryable(message: string) {
    exists i :: 0 <= i < |RETRYABLE| && Contains(Lower(message), RETRYABLE[i])
  }

  // A character of a message that reads as a lower-case one.
  predicate ReadsAs(c: char, p: char) {
    c == p || ('A' <= c <= 'Z' && p as int == c as int + 32)
  }

  // The message has the phrase at i, in upper or lower case.
  predicate Says(message: string, phrase: string, i: nat) {
    i + |phrase| <= |message| && forall j :: 0 <= j < |phrase| ==> ReadsAs(message[i + j], phrase[j])
  }

  predicate LowerCase(phrase: string) {
    forall j :: 0 <= j < |phrase| ==> !('A' <= phrase[j] <= 'Z')
  }

  lemma NetworkPhrasesAreLower()
    ensures forall k :: 7 <= k < 14 ==> LowerCase(RETRYABLE[k])
  {
  }

  lemma LimitPhrasesAreLower()
    ensures forall k :: 0 <= k < 7 ==> LowerCase(RETRYABLE[k])
  {
  }

  lemma PhrasesAreLower()
    ensures forall phrase <- RETRYABLE :: LowerCase(phrase)
  {
    hide LowerCase;
    NetworkPhrasesAreLower();
    LimitPhrasesAreLower();
  }

  lemma ContainsLower(message: string, phrase: string)
    requires LowerCase(phrase)
    ensures Contains(Lower(message), phrase) <==> exists i: nat :: Says(message, phrase, i)
  {
    hide Lower, LowerCase, Says;
    var low := Lower(message);
    LowerLength(message);
    forall i: nat | i <= |low| ensures phrase <= low[i..] <==> Says(message, phrase, i) {
      SaysLower(message, phrase, i);
    }
    if i: nat :| Says(message, phrase, i) {
      SaysInside(message, phrase, i);
    }
  }

  lemma LowerLength(message: string)
    ensures |Lower(message)| == |message|
  {
  }

  lemma SaysInside(message: string, phrase: string, i: nat)
    requires Says(message, phrase, i)
    ensures i <= |message|
  {
  }

  lemma SaysLower(message: string, phrase: string, i: nat)
    requires LowerCase(phrase) && i <= |message|
    ensures phrase <= Lower(message)[i..] <==> Says(message, phrase, i)
  {
    var low := Lower(message);
    if phrase <= low[i..] {
      forall j | 0 <= j < |phrase| ensures ReadsAs(message[i + j], phrase[j]) {
        assert low[i..][j] == phrase[j];
      }
    }
    if Says(message, phrase, i) {
      forall j | 0 <= j < |phrase| ensures low[i..][j] == phrase[j] {
        assert ReadsAs(message[i + j], phrase[j]);
      }
    }
  }

  // A failure is retried exactly when its message says one of these phrases somewhere, in upper or lower case.
  lemma RetryableExactly(message: string)
    ensures IsRetryable(message) <==>
      exists phrase, i: nat ::
        phrase in ["quota", "rate limit", "rate-limit", "429", "502", "503", "504", "timeout", "etimedout", "econnreset",
                   "econnrefused", "enotfound", "socket hang up", "overloaded"]
        && Says(message, phrase, i)
  {
    hide Says, Contains, Lower, LowerCase;
    PhrasesAreLower();
    forall phrase | phrase in RETRYABLE ensures Contains(Lower(message), phrase) <==> exists i: nat :: Says(message, phrase, i) {
      ContainsLower(message, phrase);
    }
    if IsRetryable(message) {
      var k :| 0 <= k < |RETRYABLE| && Contains(Lower(message), RETRYABLE[k]);
      assert RETRYABLE[k] in RETRYABLE;
    }
    if phrase, i: nat :| phrase in RETRYABLE && Says(message, phrase, i) {
      assert Contains(Lower(message), phrase);
      var k :| 0 <= k < |RETRYABLE| && RETRYABLE[k] == phrase;
    }
  }

  // What summarising and embedding one event comes to. Broken is a thrown value whose message is no string: the
  // code that looks at the message throws again, out of the drain.
  datatype Outcome = Done | Failed(message: string) | Broken

  type Model = nat -> Outcome

  // What one drain does to one event of its batch.
  function Settled(r: Row, o: Outcome): Row {
    match o
    case Done => r.(status := Summarized)
    case Failed(message) =>
      if IsRetryable(message)
      then r.(status := if r.attempts + 1 >= MAX_ATTEMPTS then Skipped else Raw,
              attempts := r.attempts + 1, lastError := Some(message))
      else r.(status := Skipped)
    case Broken => r
  }

  function Successes(ids: seq<nat>, model: Model): nat {
    if ids == [] then 0
    else Successes(ids[..|ids| - 1], model) + (if model(ids[|ids| - 1]).Done? then 1 else 0)
  }

  // The places of a batch whose events are summarised.
  ghost function DonePlaces(ids: seq<nat>, model: Model): set<int> {
    set i | 0 <= i < |ids| && model(ids[i]).Done?
  }

  lemma {:induction false} SuccessesCount(ids: seq<nat>, model: Model)
    ensures Successes(ids, model) == |DonePlaces(ids, model)|
  {
    hide DonePlaces;
    DonePlacesStep(ids, model);
    if ids != [] {
      SuccessesCount(ids[..|ids| - 1], model);
    }
  }

  lemma DonePlacesStep(ids: seq<nat>, model: Model)
    ensures ids == [] ==> DonePlaces(ids, model) == {}
    ensures ids != [] ==>
      var n := |ids| - 1;
      && DonePlaces(ids, model) == DonePlaces(ids[..n], model) + (if model(ids[n]).Done? then {n} else {})
      && n !in DonePlaces(ids[..n], model)
  {
  }

  // The first failure is the message of the first event that failed.
  lemma {:induction false} FirstFailureIsFirst(ids: seq<nat>, model: Model)
    ensures FirstFailure(ids, model).None? <==> forall i :: 0 <= i < |ids| ==> !model(ids[i]).Failed?
    ensures FirstFailure(ids, model).Some? ==>
      exists i :: 0 <= i < |ids| && model(ids[i]) == Failed(FirstFailure(ids, model).value)
        && forall j :: 0 <= j < i ==> !model(ids[j]).Failed?
  {
    if ids != [] {
      var n := |ids| - 1;
      FirstFailureIsFirst(ids[..n], model);
      if FirstFailure(ids[..n], model).Some? {
        var i :| 0 <= i < n && model(ids[..n][i]) == Failed(FirstFailure(ids[..n], model).value)
          && forall j :: 0 <= j < i ==> !model(ids[..n][j]).Failed?;
        assert model(ids[i]) == Failed(FirstFailure(ids, model).value);
        forall j | 0 <= j < i ensures !model(ids[j]).Failed? {
          assert ids[..n][j] == ids[j];
        }
      } else {
        forall j | 0 <= j < n ensures !model(ids[j]).Failed? {
          assert ids[..n][j] == ids[j];
        }
      }
    }
  }

  function FirstFailure(ids: seq<nat>, model: Model): Option<string> {
    if ids == [] then None
    else
      var before := FirstFailure(ids[..|ids| - 1], model);
      if before.None? && model(ids[|ids| - 1]).Failed? then Some(model(ids[|ids| - 1]).message) else before
  }

  datatype DrainResult = DrainResult(processed: nat, errors: nat, pending: nat, firstError: Option<string>)

  // The table while a batch is being settled: done events settled, the rest still claimed.
  function Midway(rows: seq<Row>, done: seq<nat>, todo: seq<nat>, model: Model): seq<Row> {
    Update(rows, (r: Row) =>
      if r.id in todo then r.(status := Claimed) else if r.id in done then Settled(r, model(r.id)) else r)
  }

  // How many events of a batch a drain gets through.
  function Reach(ids: seq<nat>, model: Model): (n: nat)
    ensures n <= |ids|
  {
    if ids == [] || model(ids[0]).Broken? then 0 else 1 + Reach(ids[1..], model)
  }

  lemma {:induction false} ReachIs(ids: seq<nat>, model: Model, n: nat)
    requires n <= |ids| && (forall i :: 0 <= i < n ==> !model(ids[i]).Broken?)
    requires n < |ids| ==> model(ids[n]).Broken?
    ensures Reach(ids, model) == n
  {
    if n > 0 {
      ReachIs(ids[1..], model, n - 1);
    }
  }

  lemma {:induction false} ReachFacts(ids: seq<nat>, model: Model)
    ensures forall i :: 0 <= i < Reach(ids, model) ==> !model(ids[i]).Broken?
    ensures Reach(ids, model) < |ids| ==> model(ids[Reach(ids, model)]).Broken?
  {
    if ids != [] && !model(ids[0]).Broken? {
      ReachFacts(ids[1..], model);
    }
  }

  function DrainTable(rows: seq<Row>, batch: int, model: Model): seq<Row> {
    var ids := FirstWithStatus(rows, Raw, batch);
    var n := Reach(ids, model);
    Midway(rows, ids[..n], ids[n..], model)
  }

  // None when the drain throws.
  method RunDrain(store: EventStore, model: Model, batch: int) returns (r: Option<DrainResult>)
    requires store.Valid()
    modifies store`rows
    ensures store.Valid()
    ensures store.rows == DrainTable(old(store.rows), batch, model)
    ensures r.Some? <==> var claimed := FirstWithStatus(old(store.rows), Raw, batch); Reach(claimed, model) == |claimed|
    ensures r.Some? ==>
      var claimed := FirstWithStatus(old(store.rows), Raw, batch);
      && (batch >= 0 ==> r.value.processed + r.value.errors <= batch)
      && r.value.processed == |DonePlaces(claimed, model)|
      && r.value.errors == |claimed| - r.value.processed
      && r.value.firstError == (var f := FirstFailure(claimed, model); if f == Some("") then None else f)
      && r.value.pending == |RowsWith(store.rows, Raw)|
  {
    hide TableValid, KeysUnique, RowsWith, DonePlaces, Midway, MarkClaimed, MarkOne, Release, FirstWithStatus, WithStatus, AttemptsOf, Batch, IsRetryable, Reach;
    ghost var rows0 := store.rows;
    BatchIsRaw(rows0, store.nextId, batch);
    var events := store.ClaimPending(batch);
    MidwayStart(rows0, events, model);
    var processed, errors, firstError := 0, 0, None;
    var i := 0;
    while i < |events|
      invariant 0 <= i <= |events|
      invariant store.Valid()
      invariant store.rows == Midway(rows0, events[..i], events[i..], model)
      invariant processed == Successes(events[..i], model) && processed + errors == i
      invariant firstError == FirstFailure(events[..i], model)
      invariant forall j :: 0 <= j < i ==> !model(events[j]).Broken?
    {
      var id := events[i];
      assert events[..i + 1][..i] == events[..i];
      match model(id) {
        case Done =>
          MidwayMark(rows0, events, i, model);
          store.MarkEventStatus(id, Summarized);
          processed := processed + 1;
        case Failed(message) =>
          if IsRetryable(message) {
            MidwayRelease(rows0, events, i, model);
            var _ := store.ReleaseClaimed(id, message);
          } else {
            MidwayMark(rows0, events, i, model);
            store.MarkEventStatus(id, Skipped);
          }
          errors := errors + 1;
          if firstError == None {
            firstError := Some(message);
          }
        case Broken =>
          ReachIs(events, model, i);
          return None;
      }
      i := i + 1;
    }
    assert events[..|events|] == events;
    ReachIs(events, model, i);
    SuccessesCount(events, model);
    var pending := store.CountByStatus(Raw);
    r := Some(DrainResult(processed, errors, pending, if firstError == Some("") then None else firstError));
  }

  lemma MidwayStart(rows: seq<Row>, ids: seq<nat>, model: Model)
    ensures MarkClaimed(rows, ids) == Midway(rows, ids[..0], ids[0..], model)
  {
    assert ids[0..] == ids;
  }

  // The batch as the loop finds it: distinct ids of raw rows.
  ghost predicate Batch(rows: seq<Row>, ids: seq<nat>) {
    NoDup(ids) && forall r :: r in rows && r.id in ids ==> r.status.Raw?
  }

  lemma BatchIsRaw(rows: seq<Row>, nextId: nat, batch: int)
    requires TableValid(rows, nextId)
    ensures Batch(rows, FirstWithStatus(rows, Raw, batch)) && Ordered(rows)
  {
    FirstWithStatusExact(rows, Raw, batch);
  }

  lemma MidwayMark(rows: seq<Row>, ids: seq<nat>, i: nat, model: Model)
    requires i < |ids| && Batch(rows, ids) && !model(ids[i]).Broken?
    requires model(ids[i]).Failed? ==> !IsRetryable(model(ids[i]).message)
    ensures MarkOne(Midway(rows, ids[..i], ids[i..], model), ids[i], if model(ids[i]).Done? then Summarized else Skipped)
         == Midway(rows, ids[..i + 1], ids[i + 1..], model)
  {
  }

  lemma MidwayRelease(rows: seq<Row>, ids: seq<nat>, i: nat, model: Model)
    requires Ordered(rows) && i < |ids| && Batch(rows, ids)
    requires model(ids[i]).Failed? && IsRetryable(model(ids[i]).message)
    ensures var mid := Midway(rows, ids[..i], ids[i..], model);
      Release(mid, ids[i], AttemptsOf(mid, ids[i]) + 1, model(ids[i]).message)
         == Midway(rows, ids[..i + 1], ids[i + 1..], model)
  {
    hide AttemptsOf, Contains, Lower;
    var mid := Midway(rows, ids[..i], ids[i..], model);
    SplitAt(ids, i);
    forall k | 0 <= k < |rows| && rows[k].id == ids[i] ensures AttemptsOf(mid, ids[i]) == rows[k].attempts {
      MidwayAttempts(rows, ids, i, k, model);
    }
  }

  lemma MidwayAttempts(rows: seq<Row>, ids: seq<nat>, i: nat, k: nat, model: Model)
    requires Ordered(rows) && i < |ids| && Batch(rows, ids) && k < |rows| && rows[k].id == ids[i]
    ensures AttemptsOf(Midway(rows, ids[..i], ids[i..], model), ids[i]) == rows[k].attempts
  {
    var mid := Midway(rows, ids[..i], ids[i..], model);
    SplitAt(ids, i);
    assert mid[k].attempts == rows[k].attempts && mid[k].id == ids[i];
    AttemptsOfRow(mid, mid[k]);
  }

  lemma SplitAt(ids: seq<nat>, i: nat)
    requires i < |ids| && NoDup(ids)
    ensures forall x :: x in ids[..i + 1] <==> x in ids[..i] || x == ids[i]
    ensures forall x :: x in ids[i..] <==> x in ids[i + 1..] || x == ids[i]
    ensures ids[i] !in ids[..i] && ids[i] !in ids[i + 1..]
  {
  }

  // ---- progress ----

  // How many more failures a queued event can take. A raw event has made fewer than MAX_ATTEMPTS
  // attempts unless it was imported, so this is MAX_ATTEMPTS - attempts.
  function Budget(r: Row): nat {
    if !r.status.Raw? then 0
    else if r.attempts < MAX_ATTEMPTS then MAX_ATTEMPTS - r.attempts
    else 1
  }

  function Backlog(rows: seq<Row>): nat {
    if rows == [] then 0 else Budget(rows[0]) + Backlog(rows[1..])
  }

  lemma {:induction false} BacklogMonotone(rows: seq<Row>, f: Row -> Row)
    requires forall r :: r in rows ==> Budget(f(r)) <= Budget(r)
    ensures Backlog(Update(rows, f)) <= Backlog(rows)
  {
    if rows != [] {
      assert Update(rows, f)[1..] == Update(rows[1..], f);
      BacklogMonotone(rows[1..], f);
    }
  }

  lemma {:induction false} BacklogDrops(rows: seq<Row>, f: Row -> Row, k: nat)
    requires forall r :: r in rows ==> Budget(f(r)) <= Budget(r)
    requires k < |rows| && Budget(f(rows[k])) < Budget(rows[k])
    ensures Backlog(Update(rows, f)) < Backlog(rows)
  {
    hide Budget;
    assert Update(rows, f)[1..] == Update(rows[1..], f);
    if k == 0 {
      BacklogMonotone(rows[1..], f);
    } else {
      BacklogDrops(rows[1..], f, k - 1);
    }
  }

  // Whatever the model does, a drain with a non-empty batch lowers the backlog.
  lemma DrainLowersBacklog(rows: seq<Row>, batch: int, model: Model)
    requires Ordered(rows) && FirstWithStatus(rows, Raw, batch) != []
    ensures Backlog(DrainTable(rows, batch, model)) < Backlog(rows)
  {
    var ids := FirstWithStatus(rows, Raw, batch);
    var n := Reach(ids, model);
    FirstWithStatusExact(rows, Raw, batch);
    ReachFacts(ids, model);
    BatchLowersBacklog(rows, ids, ids[..n], ids[n..], model);
  }

  lemma BatchLowersBacklog(rows: seq<Row>, ids: seq<nat>, done: seq<nat>, todo: seq<nat>, model: Model)
    requires ids != [] && ids == done + todo && (forall id <- done :: !model(id).Broken?)
    requires forall r :: r in rows && r.id in ids ==> r.status.Raw?
    requires HasRow(rows, ids[0], Raw)
    ensures Backlog(Midway(rows, done, todo, model)) < Backlog(rows)
  {
    hide IsRetryable;
    var f := (r: Row) => if r.id in todo then r.(status := Claimed) else if r.id in done then Settled(r, model(r.id)) else r;
    assert forall id :: id in ids <==> id in done || id in todo;
    var r :| r in rows && r.id == ids[0] && r.status == Raw;
    var k :| 0 <= k < |rows| && rows[k] == r;
    BacklogDrops(rows, f, k);
  }

  // The backlog counts the failures still allowed.
  lemma {:induction false} BacklogIsAttemptsLeft(rows: seq<Row>)
    requires forall r :: r in rows && r.status.Raw? ==> r.attempts < MAX_ATTEMPTS
    ensures Backlog(rows) == AttemptsLeft(rows)
  {
    if rows != [] {
      BacklogIsAttemptsLeft(rows[1..]);
    }
  }

  function AttemptsLeft(rows: seq<Row>): int {
    if rows == [] then 0
    else (if rows[0].status.Raw? then MAX_ATTEMPTS - rows[0].attempts else 0) + AttemptsLeft(rows[1..])
  }

  // A drain settles what it gets through, each event by its outcome, leaves the rest of its batch claimed, and
  // touches nothing else.
  lemma DrainSettlesItsBatch(rows: seq<Row>, batch: int, model: Model, k: nat)
    requires Ordered(rows) && k < |rows|
    ensures |DrainTable(rows, batch, model)| == |rows|
    ensures var r, r', ids := rows[k], DrainTable(rows, batch, model)[k], FirstWithStatus(rows, Raw, batch);
      var n := Reach(ids, model);
      && (r.id in ids[..n] ==>
            match model(r.id)
            case Done => r' == r.(status := Summarized)
            case Failed(message) =>
              r' == (if !IsRetryable(message) then r.(status := Skipped)
                     else if r.attempts + 1 < 3 then r.(attempts := r.attempts + 1, lastError := Some(message))
                     else r.(status := Skipped, attempts := r.attempts + 1, lastError := Some(message)))
            case Broken => false)
      && (r.id in ids[n..] ==> r' == r.(status := Claimed))
      && (r.id !in ids ==> r' == r)
  {
    hide IsRetryable, FirstWithStatus, Reach, Ordered;
    var ids := FirstWithStatus(rows, Raw, batch);
    var n := Reach(ids, model);
    FirstWithStatusExact(rows, Raw, batch);
    ReachFacts(ids, model);
    Halves(ids, n);
    assert rows[k] in rows;
    if rows[k].id in ids[..n] {
      var i :| 0 <= i < n && ids[..n][i] == rows[k].id;
      assert !model(ids[i]).Broken?;
    }
  }

  lemma Halves(ids: seq<nat>, n: nat)
    requires n <= |ids| && NoDup(ids)
    ensures forall id :: id in ids <==> id in ids[..n] || id in ids[n..]
    ensures forall id :: id in ids[..n] ==> id !in ids[n..]
  {
    assert ids == ids[..n] + ids[n..];
  }

  // None of a batch stays claimed exactly when no event of it throws a value without a message.
  lemma NoneStaysClaimed(rows: seq<Row>, batch: int, model: Model)
    requires Ordered(rows)
    ensures var after, ids := DrainTable(rows, batch, model), FirstWithStatus(rows, Raw, batch);
      (forall r :: r in after && r.id in ids ==> !r.status.Claimed?) <==> forall id :: id in ids ==> !model(id).Broken?
  {
    var after, ids := DrainTable(rows, batch, model), FirstWithStatus(rows, Raw, batch);
    var n := Reach(ids, model);
    ReachFacts(ids, model);
    FirstWithStatusExact(rows, Raw, batch);
    if n < |ids| {
      assert ids[n..][0] == ids[n];
      assert HasRow(rows, ids[n], Raw);
      var k :| 0 <= k < |rows| && rows[k].id == ids[n];
      DrainSettlesItsBatch(rows, batch, model, k);
      assert after[k].id == ids[n] && after[k] in after;
    } else {
      assert ids[..n] == ids;
      forall r | r in after && r.id in ids ensures !r.status.Claimed? {
        var k :| 0 <= k < |after| && after[k] == r;
        DrainSettlesItsBatch(rows, batch, model, k);
      }
    }
  }

  // A drain claims nothing exactly when its batch size is zero or nothing is raw.
  lemma EmptyBatch(rows: seq<Row>, batch: int)
    requires Ordered(rows)
    ensures FirstWithStatus(rows, Raw, batch) == [] <==> batch == 0 || forall r <- rows :: !r.status.Raw?
  {
    WithStatusExact(rows, Raw);
    if r :| r in rows && r.status.Raw? {
      assert r.id in WithStatus(rows, Raw);
    }
    if WithStatus(rows, Raw) != [] {
      assert HasRow(rows, WithStatus(rows, Raw)[0], Raw);
    }
  }

  lemma NothingRaw(rows: seq<Row>)
    requires Ordered(rows)
    ensures WithStatus(rows, Raw) == [] <==> forall r <- rows :: !r.status.Raw?
  {
    EmptyBatch(rows, -1);
  }

  // n drains in a row, each with its own batch size and model.
  function Drains(rows: seq<Row>, batches: nat -> int, models: nat -> Model, n: nat): seq<Row> {
    if n == 0 then rows
    else DrainTable(Drains(rows, batches, models, n - 1), batches(n - 1), models(n - 1))
  }

  lemma {:induction false} DrainsLowerBacklog(rows: seq<Row>, batches: nat -> int, models: nat -> Model, n: nat)
    requires Ordered(rows) && forall k: nat :: batches(k) != 0
    ensures Ordered(Drains(rows, batches, models, n))
    ensures (exists r <- Drains(rows, batches, models, n) :: r.status.Raw?) ==>
      Backlog(Drains(rows, batches, models, n)) + n <= Backlog(rows)
  {
    hide DrainTable, Backlog, FirstWithStatus, WithStatus, Ordered;
    if n > 0 {
      DrainsLowerBacklog(rows, batches, models, n - 1);
      var before := Drains(rows, batches, models, n - 1);
      DrainKeepsOrder(before, batches(n - 1), models(n - 1));
      if forall r <- before :: !r.status.Raw? {
        NothingRawStays(before, batches(n - 1), models(n - 1));
      } else {
        EmptyBatch(before, batches(n - 1));
        DrainLowersBacklog(before, batches(n - 1), models(n - 1));
      }
    }
  }

  lemma DrainKeepsOrder(rows: seq<Row>, batch: int, model: Model)
    requires Ordered(rows)
    ensures Ordered(DrainTable(rows, batch, model))
  {
  }

  lemma NothingRawStays(rows: seq<Row>, batch: int, model: Model)
    requires Ordered(rows) && forall r <- rows :: !r.status.Raw?
    ensures DrainTable(rows, batch, model) == rows
  {
    NothingRaw(rows);
  }

  lemma {:induction false} RawMeansBacklog(rows: seq<Row>)
    requires exists r <- rows :: r.status.Raw?
    ensures Backlog(rows) > 0
  {
    if !rows[0].status.Raw? {
      RawMeansBacklog(rows[1..]);
    }
  }

  // So repeated drains empty the queue after at most as many rounds as the initial backlog.
  lemma DrainsEmptyTheQueue(rows: seq<Row>, batches: nat -> int, models: nat -> Model)
    requires Ordered(rows) && forall k: nat :: batches(k) != 0
    ensures forall r <- Drains(rows, batches, models, Backlog(rows)) :: !r.status.Raw?
  {
    var n := Backlog(rows);
    DrainsLowerBacklog(rows, batches, models, n);
    if exists r <- Drains(rows, batches, models, n) :: r.status.Raw? {
      RawMeansBacklog(Drains(rows, batches, models, n));
    }
  }
}
