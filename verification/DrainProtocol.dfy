// Any number of drainers sharing one store, at statement granularity: the promise-chain lock around
// a claim, the claim transaction, and the settling of each claimed event, interleaved with captures,
// deletions and requeues. A drainer is a call of runDrain, or an RPC client that claims a batch (or
// one event) and settles it; statements themselves do not fail, except that BEGIN may be refused.
module DrainProtocol {
  import opened Sequences
  import opened EventTable

  type Drainer = nat

  datatype Claim = Pending(limit: int) | One(id: nat)

  // `own` is the promise a lock call publishes, `prev` the one it waits for.
  datatype Phase =
    | Idle
    | Waiting(claim: Claim, prev: nat, own: nat)
    | Locked(claim: Claim, own: nat)
    | InTxn(claim: Claim, own: nat)
    | Selected(own: nat, ids: seq<nat>)
    | Marked(own: nat, ids: seq<nat>)
    | Leaving(own: nat, ids: seq<nat>)                  // committed or thrown; the lock is released next
    | Working(todo: seq<nat>)
    | Retrying(todo: seq<nat>, attempts: nat, error: string)  // releaseClaimed has read todo[0]

  datatype State = State(
    rows: seq<Row>, nextId: nat,
    writeLock: nat,               // the promise the next lock call will wait for
    resolved: set<nat>,
    txn: Option<Drainer>,         // who holds the open transaction
    arrivals: seq<Drainer>, served: seq<Drainer>,
    phases: map<Drainer, Phase>)

  function PhaseOf(s: State, d: Drainer): Phase {
    if d in s.phases then s.phases[d] else Idle
  }

  datatype Action =
    | Enter(d: Drainer, claim: Claim)
    | Acquire(d: Drainer)
    | Begin(d: Drainer)
    | BeginRefused(d: Drainer)
    | Select(d: Drainer)
    | MarkRows(d: Drainer)
    | Commit(d: Drainer)
    | ReleaseLock(d: Drainer)
    | Succeed(d: Drainer)                   // markEventStatus(id, 'summarized')
    | GiveUp(d: Drainer)                    // markEventStatus(id, 'skipped')
    | ReadAttempts(d: Drainer, error: string)
    | WriteAttempts(d: Drainer)
    | Finish(d: Drainer)
    | Capture(ts: int, sessionId: string, inputHash: string, expiresAt: Option<int>)
    | Remove(drop: Row -> bool)             // prune and sweep
    | RetrySkipped(ids: set<nat>)

  predicate Enabled(s: State, a: Action) {
    match a
    case Enter(d, _) => PhaseOf(s, d).Idle?
    case Acquire(d) => PhaseOf(s, d).Waiting? && PhaseOf(s, d).prev in s.resolved
    case Begin(d) => PhaseOf(s, d).Locked?
    case BeginRefused(d) => PhaseOf(s, d).Locked?
    case Select(d) => PhaseOf(s, d).InTxn?
    case MarkRows(d) => PhaseOf(s, d).Selected? && PhaseOf(s, d).ids != []
    case Commit(d) => PhaseOf(s, d).Marked? || (PhaseOf(s, d).Selected? && PhaseOf(s, d).ids == [])
    case ReleaseLock(d) => PhaseOf(s, d).Leaving?
    case Succeed(d) => PhaseOf(s, d).Working? && PhaseOf(s, d).todo != []
    case GiveUp(d) => PhaseOf(s, d).Working? && PhaseOf(s, d).todo != []
    case ReadAttempts(d, _) => PhaseOf(s, d).Working? && PhaseOf(s, d).todo != []
    case WriteAttempts(d) => PhaseOf(s, d).Retrying? && PhaseOf(s, d).todo != []
    case Finish(d) => PhaseOf(s, d).Working? && PhaseOf(s, d).todo == []
    case Capture(_, _, _, _) => true
    case Remove(_) => true
    case RetrySkipped(_) => true
  }

  function Chosen(rows: seq<Row>, claim: Claim): seq<nat> {
    match claim
    case Pending(limit) => FirstWithStatus(rows, Raw, limit)
    case One(id) => if id in WithStatus(rows, Raw) then [id] else []
  }

  function Move(s: State, d: Drainer, p: Phase): State {
    s.(phases := s.phases[d := p])
  }

  function Apply(s: State, a: Action): State
    requires Enabled(s, a)
  {
    match a
    case Enter(d, claim) =>
      var own := s.writeLock + 1;
      Move(s, d, Waiting(claim, s.writeLock, own)).(writeLock := own, arrivals := s.arrivals + [d])
    case Acquire(d) =>
      var p := PhaseOf(s, d);
      Move(s, d, Locked(p.claim, p.own)).(served := s.served + [d])
    case Begin(d) =>
      var p := PhaseOf(s, d);
      if s.txn.Some? then Move(s, d, Leaving(p.own, []))   // SQLite refuses it
      else Move(s, d, InTxn(p.claim, p.own)).(txn := Some(d))
    case BeginRefused(d) => Move(s, d, Leaving(PhaseOf(s, d).own, []))
    case Select(d) =>
      var p := PhaseOf(s, d);
      Move(s, d, Selected(p.own, Chosen(s.rows, p.claim)))
    case MarkRows(d) =>
      var p := PhaseOf(s, d);
      Move(s, d, Marked(p.own, p.ids)).(rows := MarkClaimed(s.rows, p.ids))
    case Commit(d) =>
      var p := PhaseOf(s, d);
      Move(s, d, Leaving(p.own, p.ids)).(txn := None)
    case ReleaseLock(d) =>
      var p := PhaseOf(s, d);
      Move(s, d, Working(p.ids)).(resolved := s.resolved + {p.own})
    case Succeed(d) =>
      var todo := PhaseOf(s, d).todo;
      Move(s, d, Working(todo[1..])).(rows := MarkOne(s.rows, todo[0], Summarized))
    case GiveUp(d) =>
      var todo := PhaseOf(s, d).todo;
      Move(s, d, Working(todo[1..])).(rows := MarkOne(s.rows, todo[0], Skipped))
    case ReadAttempts(d, error) =>
      var todo := PhaseOf(s, d).todo;
      Move(s, d, Retrying(todo, AttemptsOf(s.rows, todo[0]) + 1, error))
    case WriteAttempts(d) =>
      var p := PhaseOf(s, d);
      Move(s, d, Working(p.todo[1..])).(rows := Release(s.rows, p.todo[0], p.attempts, p.error))
    case Finish(d) => Move(s, d, Idle)
    case Capture(ts, sessionId, inputHash, expiresAt) =>
      s.(rows := Insert(s.rows, s.nextId, ts, sessionId, inputHash, expiresAt), nextId := s.nextId + 1)
    case Remove(drop) => s.(rows := Delete(s.rows, drop))
    case RetrySkipped(ids) => s.(rows := Requeue(s.rows, ids))
  }

  // ---- the lock ----

  predicate InSection(p: Phase) {
    p.Locked? || p.InTxn? || p.Selected? || p.Marked? || p.Leaving?
  }

  predicate InTransaction(p: Phase) {
    p.InTxn? || p.Selected? || p.Marked?
  }

  // Calls are numbered in arrival order and served in that order; everyone not yet served waits for
  // the call just before it, and only the last one served can be inside.
  ghost predicate LockInv(s: State) {
    var h := |s.served|;
    && s.served <= s.arrivals && s.writeLock == |s.arrivals|
    && (forall k: nat :: k < h ==> k in s.resolved)
    && (forall k :: k in s.resolved ==> 0 <= k <= h)
    && (forall i :: h <= i < |s.arrivals| ==> PhaseOf(s, s.arrivals[i]).Waiting? && PhaseOf(s, s.arrivals[i]).own == i + 1)
    && (h > 0 && h !in s.resolved ==> InSection(PhaseOf(s, s.arrivals[h - 1])))
    && (h == 0 ==> 0 in s.resolved)
    && (forall d :: WaitingOk(s, d) && SectionOk(s, d))
  }

  ghost predicate WaitingOk(s: State, d: Drainer) {
    var p := PhaseOf(s, d);
    p.Waiting? ==>
      && |s.served| < p.own <= |s.arrivals|
      && p.prev == p.own - 1
      && s.arrivals[p.own - 1] == d
  }

  // Whoever is inside is the last one served, and the transaction, if open, is theirs.
  ghost predicate SectionOk(s: State, d: Drainer) {
    var p := PhaseOf(s, d);
    && (InSection(p) ==> 0 < p.own == |s.served| <= |s.arrivals| && p.own !in s.resolved && s.arrivals[p.own - 1] == d)
    && (InTransaction(p) <==> s.txn == Some(d))
  }

  // No BEGIN is issued while a transaction is open.
  lemma NoOpenTransaction(s: State, d: Drainer)
    requires LockInv(s) && PhaseOf(s, d).Locked?
    ensures s.txn == None
  {
    match s.txn
    case None =>
    case Some(e) => var p, q := SectionOk(s, d), SectionOk(s, e);
  }

  lemma TransactionOwner(s: State, d: Drainer)
    requires LockInv(s) && InTransaction(PhaseOf(s, d))
    ensures s.txn == Some(d)
  {
    assert SectionOk(s, d);
  }

  lemma LockKept(s: State, a: Action)
    requires LockInv(s) && Enabled(s, a)
    ensures LockInv(Apply(s, a))
  {
    hide LockInv, Enabled, Apply;
    match a
    case Enter(d, claim) => LockKeptEnter(s, d, claim);
    case Acquire(d) => LockKeptAcquire(s, d);
    case ReleaseLock(d) => LockKeptRelease(s, d);
    case Begin(_) => LockKeptSection(s, a);
    case BeginRefused(_) => LockKeptSection(s, a);
    case Select(_) => LockKeptSection(s, a);
    case MarkRows(_) => LockKeptSection(s, a);
    case Commit(_) => LockKeptSection(s, a);
    case _ => LockKeptWork(s, a);
  }

  // The steps of a claim between taking the lock and releasing it.
  lemma LockKeptSection(s: State, a: Action)
    requires a.Begin? || a.BeginRefused? || a.Select? || a.MarkRows? || a.Commit?
    requires LockInv(s) && Enabled(s, a)
    ensures LockInv(Apply(s, a))
  {
    hide LockInv, MarkClaimed, Chosen;
    if a.Begin? || a.BeginRefused? {
      NoOpenTransaction(s, a.d);
    } else {
      TransactionOwner(s, a.d);
    }
    LockKeptInside(s, Apply(s, a), a.d);
  }

  // Settling events, and what others do to the table.
  lemma LockKeptWork(s: State, a: Action)
    requires a.Succeed? || a.GiveUp? || a.ReadAttempts? || a.WriteAttempts? || a.Finish? || a.Capture? || a.Remove?
      || a.RetrySkipped?
    requires LockInv(s) && Enabled(s, a)
    ensures LockInv(Apply(s, a))
  {
    hide LockInv, Insert, Delete, Requeue, MarkOne, Release, AttemptsOf;
    if a.Capture? || a.Remove? || a.RetrySkipped? {
      LockKeptTable(s, Apply(s, a));
    } else {
      LockKeptOutside(s, Apply(s, a), a.d);
    }
  }

  // s' differs from s only in the table, the transaction and the phase of d.
  ghost predicate SameQueue(s: State, s': State, d: Drainer) {
    && s'.phases == s.phases[d := PhaseOf(s', d)]
    && s' == s.(rows := s'.rows, nextId := s'.nextId, phases := s'.phases, txn := s'.txn)
  }

  lemma LockKeptTable(s: State, s': State)
    requires LockInv(s) && s' == s.(rows := s'.rows, nextId := s'.nextId)
    ensures LockInv(s')
  {
    forall e ensures WaitingOk(s', e) && SectionOk(s', e) {
      assert WaitingOk(s, e) && SectionOk(s, e);
      assert PhaseOf(s', e) == PhaseOf(s, e);
    }
  }

  // A step of the drainer inside the section that keeps it inside.
  lemma LockKeptInside(s: State, s': State, d: Drainer)
    requires LockInv(s) && SameQueue(s, s', d)
    requires InSection(PhaseOf(s, d)) && InSection(PhaseOf(s', d)) && PhaseOf(s', d).own == PhaseOf(s, d).own
    requires s'.txn == if InTransaction(PhaseOf(s', d)) then Some(d) else None
    ensures LockInv(s')
  {
    assert SectionOk(s, d);
    forall e ensures WaitingOk(s', e) && SectionOk(s', e) {
      assert WaitingOk(s, e) && SectionOk(s, e);
    }
  }

  // A step of a drainer that neither waits nor is inside.
  lemma LockKeptOutside(s: State, s': State, d: Drainer)
    requires LockInv(s) && SameQueue(s, s', d) && s'.txn == s.txn
    requires !InSection(PhaseOf(s, d)) && !PhaseOf(s, d).Waiting?
    requires !InSection(PhaseOf(s', d)) && !PhaseOf(s', d).Waiting?
    ensures LockInv(s')
  {
    hide WaitingOk, SectionOk;
    forall e ensures WaitingOk(s', e) && SectionOk(s', e) {
      assert WaitingOk(s, e) && SectionOk(s, e);
      OutsideOk(s, s', d, e);
    }
  }

  lemma OutsideOk(s: State, s': State, d: Drainer, e: Drainer)
    requires WaitingOk(s, e) && SectionOk(s, e) && SameQueue(s, s', d) && s'.txn == s.txn
    requires !InSection(PhaseOf(s, d)) && !InSection(PhaseOf(s', d)) && !PhaseOf(s', d).Waiting?
    ensures WaitingOk(s', e) && SectionOk(s', e)
  {
  }

  lemma LockKeptEnter(s: State, d: Drainer, claim: Claim)
    requires LockInv(s) && Enabled(s, Enter(d, claim))
    ensures LockInv(Apply(s, Enter(d, claim)))
  {
    var s' := Apply(s, Enter(d, claim));
    forall e ensures WaitingOk(s', e) && SectionOk(s', e) {
      assert WaitingOk(s, e) && SectionOk(s, e);
    }
  }

  lemma LockKeptAcquire(s: State, d: Drainer)
    requires LockInv(s) && Enabled(s, Acquire(d))
    ensures LockInv(Apply(s, Acquire(d)))
  {
    var s' := Apply(s, Acquire(d));
    var p := PhaseOf(s, d);
    assert WaitingOk(s, d);
    assert p.own == |s.served| + 1;
    forall e ensures WaitingOk(s', e) && SectionOk(s', e) {
      assert WaitingOk(s, e) && SectionOk(s, e);
    }
  }

  lemma LockKeptRelease(s: State, d: Drainer)
    requires LockInv(s) && Enabled(s, ReleaseLock(d))
    ensures LockInv(Apply(s, ReleaseLock(d)))
  {
    var s' := Apply(s, ReleaseLock(d));
    assert SectionOk(s, d);
    forall e ensures WaitingOk(s', e) && SectionOk(s', e) {
      assert WaitingOk(s, e) && SectionOk(s, e);
    }
  }

  // The lock never stalls: if anyone waits, the drainer inside can step, or the next in line enters.
  lemma LockMoves(s: State, w: Drainer) returns (a: Action)
    requires LockInv(s) && PhaseOf(s, w).Waiting?
    ensures Enabled(s, a) && (a.Acquire? || a.Begin? || a.Select? || a.MarkRows? || a.Commit? || a.ReleaseLock?)
    ensures a.Acquire? ==> |s.served| < |s.arrivals| && a.d == s.arrivals[|s.served|]
  {
    assert WaitingOk(s, w);
    var h := |s.served|;
    if h > 0 && h !in s.resolved {
      var d := s.arrivals[h - 1];
      match PhaseOf(s, d)
      case Locked(_, _) => a := Begin(d);
      case InTxn(_, _) => a := Select(d);
      case Selected(_, ids) => a := if ids == [] then Commit(d) else MarkRows(d);
      case Marked(_, _) => a := Commit(d);
      case Leaving(_, _) => a := ReleaseLock(d);
    } else {
      assert WaitingOk(s, s.arrivals[h]);
      a := Acquire(s.arrivals[h]);
    }
  }

  // ---- the batches ----

  // The events a drainer has taken and not yet settled.
  function Held(p: Phase): seq<nat> {
    match p
    case Selected(_, ids) => ids
    case Marked(_, ids) => ids
    case Leaving(_, ids) => ids
    case Working(todo) => todo
    case Retrying(todo, _, _) => todo
    case _ => []
  }

  // Between its SELECT and its UPDATE a drainer's rows are still raw; afterwards they are claimed.
  function HeldStatus(p: Phase): Status {
    if p.Selected? then Raw else Claimed
  }

  ghost predicate HeldOk(s: State, d: Drainer) {
    var p := PhaseOf(s, d);
    && NoDup(Held(p))
    && (forall id :: id in Held(p) ==> id < s.nextId)
    && (forall r :: r in s.rows && r.id in Held(p) ==> r.status == HeldStatus(p))
  }

  ghost predicate Apart(s: State, d: Drainer, e: Drainer) {
    d != e ==> forall id :: id in Held(PhaseOf(s, d)) ==> id !in Held(PhaseOf(s, e))
  }

  ghost predicate Owned(s: State, id: nat, d: Drainer) {
    id in Held(PhaseOf(s, d)) && !PhaseOf(s, d).Selected?
  }

  ghost predicate BatchInv(s: State) {
    && TableValid(s.rows, s.nextId)
    && (forall d :: HeldOk(s, d))
    && (forall d, e :: Apart(s, d, e))
    && (forall r :: r in s.rows && r.status.Claimed? ==> exists d :: Owned(s, r.id, d))
  }

  // Batches that only shrink stay apart.
  lemma ApartKept(s: State, s': State)
    requires forall d, e :: Apart(s, d, e)
    requires forall d, id :: id in Held(PhaseOf(s', d)) ==> id in Held(PhaseOf(s, d))
    ensures forall d, e :: Apart(s', d, e)
  {
    forall d, e ensures Apart(s', d, e) { assert Apart(s, d, e); }
  }

  // Steps that leave the table and every batch alone.
  lemma BatchKeptMove(s: State, s': State, d: Drainer)
    requires BatchInv(s) && s'.rows == s.rows && s'.nextId == s.nextId
    requires s'.phases == s.phases[d := PhaseOf(s', d)]
    requires Held(PhaseOf(s', d)) == Held(PhaseOf(s, d))
    requires Held(PhaseOf(s, d)) != [] ==> PhaseOf(s', d).Selected? == PhaseOf(s, d).Selected?
    ensures BatchInv(s')
  {
    forall e ensures HeldOk(s', e) { assert HeldOk(s, e); }
    ApartKept(s, s');
    forall r | r in s'.rows && r.status.Claimed? ensures exists e :: Owned(s', r.id, e) {
      var e :| Owned(s, r.id, e);
      assert Owned(s', r.id, e);
    }
  }

  // SELECT picks raw rows nobody holds: a holder's stored rows are claimed, and no one else is
  // between SELECT and UPDATE.
  lemma BatchKeptSelect(s: State, d: Drainer)
    requires BatchInv(s) && LockInv(s) && Enabled(s, Select(d))
    ensures BatchInv(Apply(s, Select(d)))
  {
    var s' := Apply(s, Select(d));
    var ids := Chosen(s.rows, PhaseOf(s, d).claim);
    ChosenExact(s.rows, PhaseOf(s, d).claim);
    forall e | e != d ensures !PhaseOf(s, e).Selected? {
      assert SectionOk(s, d) && SectionOk(s, e);
    }
    forall id, e | id in ids ensures id !in Held(PhaseOf(s, e)) {
      assert HasRow(s.rows, id, Raw) && HeldOk(s, e);
    }
    forall e ensures HeldOk(s', e) {
      assert HeldOk(s, e);
      forall id | id in ids ensures id < s.nextId { assert HasRow(s.rows, id, Raw); }
    }
    forall e, f ensures Apart(s', e, f) {
      assert Apart(s, e, f);
      assert e != d ==> PhaseOf(s', e) == PhaseOf(s, e);
      assert f != d ==> PhaseOf(s', f) == PhaseOf(s, f);
    }
    forall r | r in s'.rows && r.status.Claimed? ensures exists e :: Owned(s', r.id, e) {
      var e :| Owned(s, r.id, e);
      assert Owned(s', r.id, e);
    }
  }

  lemma ChosenExact(rows: seq<Row>, claim: Claim)
    requires Ordered(rows)
    ensures NoDup(Chosen(rows, claim))
    ensures forall id :: id in Chosen(rows, claim) ==> HasRow(rows, id, Raw)
    ensures forall r :: r in rows && r.id in Chosen(rows, claim) ==> r.status == Raw
  {
    match claim
    case Pending(limit) => FirstWithStatusExact(rows, Raw, limit);
    case One(id) => WithStatusExact(rows, Raw);
  }

  lemma BatchKeptMark(s: State, d: Drainer)
    requires BatchInv(s) && LockInv(s) && Enabled(s, MarkRows(d))
    ensures BatchInv(Apply(s, MarkRows(d)))
  {
    hide LockInv, HeldOk, Owned;
    var s' := Apply(s, MarkRows(d));
    var ids := PhaseOf(s, d).ids;
    UpdateValid(s.rows, s.nextId, (r: Row) => if r.id in ids then r.(status := Claimed) else r);
    forall e ensures HeldOk(s', e) {
      MarkHeld(s, d, e);
    }
    ApartKept(s, s');
    forall r' | r' in s'.rows && r'.status.Claimed? ensures exists e :: Owned(s', r'.id, e) {
      MarkOwned(s, d, r');
    }
  }

  // Marking turns the drainer's own rows and no one else's: another batch that was selected would need the lock.
  lemma MarkHeld(s: State, d: Drainer, e: Drainer)
    requires BatchInv(s) && LockInv(s) && Enabled(s, MarkRows(d))
    ensures HeldOk(Apply(s, MarkRows(d)), e)
  {
    hide BatchInv, LockInv;
    var ids := PhaseOf(s, d).ids;
    BatchFacts(s, d, e);
    LockFacts(s, d, e);
    UpdateMembers(s.rows, (r: Row) => if r.id in ids then r.(status := Claimed) else r);
  }

  lemma BatchFacts(s: State, d: Drainer, e: Drainer)
    requires BatchInv(s)
    ensures HeldOk(s, d) && HeldOk(s, e) && Apart(s, d, e)
  {
  }

  lemma LockFacts(s: State, d: Drainer, e: Drainer)
    requires LockInv(s)
    ensures SectionOk(s, d) && SectionOk(s, e)
  {
  }

  lemma MarkOwned(s: State, d: Drainer, r': Row)
    requires BatchInv(s) && Enabled(s, MarkRows(d))
    requires r' in Apply(s, MarkRows(d)).rows && r'.status.Claimed?
    ensures exists e :: Owned(Apply(s, MarkRows(d)), r'.id, e)
  {
    hide HeldOk, Apart, TableValid;
    var s' := Apply(s, MarkRows(d));
    var ids := PhaseOf(s, d).ids;
    var f := (r: Row) => if r.id in ids then r.(status := Claimed) else r;
    UpdateMembers(s.rows, f);
    var r :| r in s.rows && r' == f(r);
    if r.id in ids {
      assert Owned(s', r'.id, d);
    } else {
      var e :| Owned(s, r.id, e);
      assert Owned(s', r'.id, e);
    }
  }

  // f settles event `id`: its row leaves `claimed`, other rows stay.
  ghost predicate Settles(f: Row -> Row, id: nat) {
    && (forall r: Row :: f(r).id == r.id && (r.id != id ==> f(r) == r))
    && (forall r: Row :: r.id == id ==> !f(r).status.Claimed? && (f(r).status.Raw? ==> f(r).attempts < MAX_ATTEMPTS))
  }

  // s' is s with the head of d's batch settled by f.
  ghost predicate SettleStep(s: State, s': State, d: Drainer, f: Row -> Row) {
    && (PhaseOf(s, d).Working? || PhaseOf(s, d).Retrying?) && PhaseOf(s, d).todo != []
    && PhaseOf(s', d) == Working(PhaseOf(s, d).todo[1..])
    && s'.phases == s.phases[d := PhaseOf(s', d)] && s'.nextId == s.nextId
    && s'.rows == Update(s.rows, f) && Settles(f, PhaseOf(s, d).todo[0])
  }

  lemma BatchKeptSettle(s: State, s': State, d: Drainer, f: Row -> Row)
    requires BatchInv(s) && SettleStep(s, s', d, f)
    ensures BatchInv(s')
  {
    hide HeldOk, Owned;
    UpdateValid(s.rows, s.nextId, f);
    assert HeldOk(s, d);
    forall e ensures HeldOk(s', e) {
      assert HeldOk(s, e) && Apart(s, d, e);
      SettleHeld(s, s', d, f, e);
    }
    forall e, id | id in Held(PhaseOf(s', e)) ensures id in Held(PhaseOf(s, e)) {
      if e == d { SettleTail(s, d); }
    }
    ApartKept(s, s');
    forall r' | r' in s'.rows && r'.status.Claimed? ensures exists e :: Owned(s', r'.id, e) {
      var r := SettleSource(s, s', d, f, r');
      var e :| Owned(s, r.id, e);
      SettleOwned(s, s', d, f, r, e);
    }
  }

  lemma SettleTail(s: State, d: Drainer)
    requires HeldOk(s, d) && Held(PhaseOf(s, d)) != []
    ensures var todo := Held(PhaseOf(s, d));
      && NoDup(todo[1..]) && todo[0] !in todo[1..]
      && forall id :: id in todo[1..] ==> id in todo && id < s.nextId
  {
    var todo := Held(PhaseOf(s, d));
    assert todo == [todo[0]] + todo[1..];
  }

  lemma SettleHeld(s: State, s': State, d: Drainer, f: Row -> Row, e: Drainer)
    requires SettleStep(s, s', d, f) && HeldOk(s, d) && HeldOk(s, e) && Apart(s, d, e)
    ensures HeldOk(s', e)
  {
    hide TableValid;
    UpdateMembers(s.rows, f);
    SettleTail(s, d);
    if e != d {
      assert Held(PhaseOf(s, d))[0] in Held(PhaseOf(s, d));
      assert PhaseOf(s', e) == PhaseOf(s, e);
    }
  }

  lemma SettleSource(s: State, s': State, d: Drainer, f: Row -> Row, r': Row) returns (r: Row)
    requires SettleStep(s, s', d, f) && r' in s'.rows && r'.status.Claimed?
    ensures r in s.rows && r == r' && r.id != PhaseOf(s, d).todo[0]
  {
    UpdateMembers(s.rows, f);
    r :| r in s.rows && r' == f(r);
  }

  lemma SettleOwned(s: State, s': State, d: Drainer, f: Row -> Row, r: Row, e: Drainer)
    requires SettleStep(s, s', d, f) && r.id != PhaseOf(s, d).todo[0] && Owned(s, r.id, e)
    ensures Owned(s', r.id, e)
  {
  }

  lemma BatchKeptCapture(s: State, a: Action)
    requires BatchInv(s) && a.Capture?
    ensures BatchInv(Apply(s, a))
  {
    var s' := Apply(s, a);
    forall e ensures HeldOk(s', e) { assert HeldOk(s, e) && PhaseOf(s', e) == PhaseOf(s, e); }
    ApartKept(s, s');
    forall r | r in s'.rows && r.status.Claimed? ensures exists e :: Owned(s', r.id, e) {
      assert r in s.rows;
      var e :| Owned(s, r.id, e);
      assert Owned(s', r.id, e);
    }
  }

  lemma BatchKeptRemove(s: State, a: Action)
    requires BatchInv(s) && a.Remove?
    ensures BatchInv(Apply(s, a))
  {
    var s' := Apply(s, a);
    DeleteOrdered(s.rows, a.drop);
    forall e ensures HeldOk(s', e) { assert HeldOk(s, e); }
    ApartKept(s, s');
    forall r | r in s'.rows && r.status.Claimed? ensures exists e :: Owned(s', r.id, e) {
      var e :| Owned(s, r.id, e);
      assert Owned(s', r.id, e);
    }
  }

  lemma BatchKeptRequeue(s: State, a: Action)
    requires BatchInv(s) && a.RetrySkipped?
    ensures BatchInv(Apply(s, a))
  {
    var s' := Apply(s, a);
    var f := (r: Row) => if r.id in a.ids && r.status.Skipped? then r.(status := Raw, attempts := 0, lastError := None) else r;
    UpdateValid(s.rows, s.nextId, f);
    UpdateMembers(s.rows, f);
    hide TableValid, Apart;
    forall e ensures HeldOk(s', e) { assert HeldOk(s, e); }
    ApartKept(s, s');
    forall r' | r' in s'.rows && r'.status.Claimed? ensures exists e :: Owned(s', r'.id, e) {
      var r :| r in s.rows && r' == f(r);
      var e :| Owned(s, r.id, e);
      assert Owned(s', r'.id, e);
    }
  }

  lemma BatchKept(s: State, a: Action)
    requires BatchInv(s) && LockInv(s) && Enabled(s, a)
    ensures BatchInv(Apply(s, a))
  {
    hide BatchInv, LockInv, Insert, Delete, Requeue, MarkClaimed, Chosen, AttemptsOf;
    var s' := Apply(s, a);
    match a
    case Select(d) => BatchKeptSelect(s, d);
    case MarkRows(d) => BatchKeptMark(s, d);
    case Succeed(d) => Settle(s, s', d, Summarized);
    case GiveUp(d) => Settle(s, s', d, Skipped);
    case WriteAttempts(d) => SettleRelease(s, s', d);
    case Capture(_, _, _, _) => BatchKeptCapture(s, a);
    case Remove(_) => BatchKeptRemove(s, a);
    case RetrySkipped(_) => BatchKeptRequeue(s, a);
    case _ => BatchKeptMove(s, s', a.d);
  }

  lemma Settle(s: State, s': State, d: Drainer, status: Status)
    requires BatchInv(s) && PhaseOf(s, d).Working? && PhaseOf(s, d).todo != []
    requires status.Summarized? || status.Skipped?
    requires s' == Move(s, d, Working(PhaseOf(s, d).todo[1..])).(rows := MarkOne(s.rows, PhaseOf(s, d).todo[0], status))
    ensures BatchInv(s')
  {
    var id := PhaseOf(s, d).todo[0];
    BatchKeptSettle(s, s', d, (r: Row) => if r.id == id then r.(status := status) else r);
  }

  lemma SettleRelease(s: State, s': State, d: Drainer)
    requires BatchInv(s) && PhaseOf(s, d).Retrying? && PhaseOf(s, d).todo != []
    requires var p := PhaseOf(s, d);
      s' == Move(s, d, Working(p.todo[1..])).(rows := Release(s.rows, p.todo[0], p.attempts, p.error))
    ensures BatchInv(s')
  {
    var p := PhaseOf(s, d);
    var id := p.todo[0];
    BatchKeptSettle(s, s', d, (r: Row) =>
      if r.id == id
      then r.(status := if p.attempts >= MAX_ATTEMPTS then Skipped else Raw, attempts := p.attempts, lastError := Some(p.error))
      else r);
  }

  // ---- every run ----

  // A daemon that starts on a valid table with nothing claimed.
  ghost predicate Init(s: State) {
    && TableValid(s.rows, s.nextId)
    && (forall r :: r in s.rows ==> !r.status.Claimed?)
    && s.writeLock == 0 && s.resolved == {0} && s.txn == None
    && s.arrivals == [] && s.served == [] && s.phases == map[]
  }

  // `run` is a possible sequence of steps from s, ending in t.
  ghost predicate Run(s: State, run: seq<Action>, t: State)
    decreases |run|
  {
    if run == [] then s == t
    else Enabled(s, run[0]) && Run(Apply(s, run[0]), run[1..], t)
  }

  lemma {:induction false} RunKeeps(s: State, run: seq<Action>, t: State)
    requires LockInv(s) && BatchInv(s) && Run(s, run, t)
    ensures LockInv(t) && BatchInv(t)
    decreases |run|
  {
    if run != [] {
      LockKept(s, run[0]);
      BatchKept(s, run[0]);
      RunKeeps(Apply(s, run[0]), run[1..], t);
    }
  }

  lemma InitInv(s: State)
    requires Init(s)
    ensures LockInv(s) && BatchInv(s)
  {
  }

  // Who asked for the lock, and who got it, in order.
  ghost function Asked(run: seq<Action>): seq<Drainer> {
    if run == [] then [] else (if run[0].Enter? then [run[0].d] else []) + Asked(run[1..])
  }

  ghost function Granted(run: seq<Action>): seq<Drainer> {
    if run == [] then [] else (if run[0].Acquire? then [run[0].d] else []) + Granted(run[1..])
  }

  lemma {:induction false} QueueTells(s: State, run: seq<Action>, t: State)
    requires Run(s, run, t)
    ensures t.arrivals == s.arrivals + Asked(run) && t.served == s.served + Granted(run)
    decreases |run|
  {
    hide Enabled, Apply;
    if run != [] {
      QueueStep(s, run[0]);
      QueueTells(Apply(s, run[0]), run[1..], t);
      Regroup(s.arrivals, if run[0].Enter? then [run[0].d] else [], Asked(run[1..]));
      Regroup(s.served, if run[0].Acquire? then [run[0].d] else [], Granted(run[1..]));
    }
  }

  lemma QueueStep(s: State, a: Action)
    requires Enabled(s, a)
    ensures Apply(s, a).arrivals == s.arrivals + if a.Enter? then [a.d] else []
    ensures Apply(s, a).served == s.served + if a.Acquire? then [a.d] else []
  {
    hide Insert, Delete, Requeue, MarkClaimed, MarkOne, Release, Chosen, AttemptsOf;
  }

  // Mutual exclusion of the claim transactions and service in arrival order, in every reachable state: no BEGIN is
  // issued while a transaction is open, and the lock is granted in the order in which it was asked for.
  lemma ClaimsAreSerial(s: State, run: seq<Action>, t: State)
    requires Init(s) && Run(s, run, t)
    ensures Granted(run) <= Asked(run)
    ensures forall d :: PhaseOf(t, d).Locked? ==> t.txn == None
    ensures forall d, e :: InTransaction(PhaseOf(t, d)) && InTransaction(PhaseOf(t, e)) ==> d == e
  {
    InitInv(s);
    RunKeeps(s, run, t);
    QueueTells(s, run, t);
    assert [] + Asked(run) == Asked(run) && [] + Granted(run) == Granted(run);
    forall d | PhaseOf(t, d).Locked? ensures t.txn == None {
      NoOpenTransaction(t, d);
    }
    forall d, e | InTransaction(PhaseOf(t, d)) && InTransaction(PhaseOf(t, e)) ensures d == e {
      assert SectionOk(t, d) && SectionOk(t, e);
    }
  }

  // In every reachable state each claimed event is in the unsettled batch of exactly one drainer, no
  // event is in two batches, and the stored events of a committed batch are claimed.
  lemma ClaimsAreExclusive(s: State, run: seq<Action>, t: State)
    requires Init(s) && Run(s, run, t)
    ensures forall r :: r in t.rows && r.status.Claimed? ==>
      exists d :: Owned(t, r.id, d) && forall e :: r.id in Held(PhaseOf(t, e)) ==> e == d
    ensures forall d, e, id :: id in Held(PhaseOf(t, d)) && id in Held(PhaseOf(t, e)) ==> d == e
    ensures forall d, r :: r in t.rows && Owned(t, r.id, d) ==> r.status.Claimed?
  {
    InitInv(s);
    RunKeeps(s, run, t);
    forall d, e, id | id in Held(PhaseOf(t, d)) && id in Held(PhaseOf(t, e)) ensures d == e {
      assert Apart(t, d, e);
    }
    forall r | r in t.rows && r.status.Claimed?
      ensures exists d :: Owned(t, r.id, d) && forall e :: r.id in Held(PhaseOf(t, e)) ==> e == d
    {
      var d :| Owned(t, r.id, d);
      forall e | r.id in Held(PhaseOf(t, e)) ensures e == d { assert Apart(t, d, e); }
    }
    forall d, r | r in t.rows && Owned(t, r.id, d) ensures r.status.Claimed? {
      assert HeldOk(t, d);
    }
  }

  // ---- the statements' effect on the table ----

  // Nothing but these statements changes a row: a mark claims the selected ones, settling an event sets its status, a
  // capture adds a raw row unless its key is stored, and a requeue makes skipped rows raw again with no attempt made.
  lemma StatementsDo(s: State, a: Action)
    requires Enabled(s, a)
    ensures !a.Capture? && !a.Remove? ==> |Apply(s, a).rows| == |s.rows|
    ensures a.MarkRows? ==> forall k :: 0 <= k < |s.rows| ==>
      var r := s.rows[k]; Apply(s, a).rows[k] == if r.id in PhaseOf(s, a.d).ids then r.(status := Claimed) else r
    ensures a.Succeed? ==> forall k :: 0 <= k < |s.rows| ==>
      var r := s.rows[k]; Apply(s, a).rows[k] == if r.id == PhaseOf(s, a.d).todo[0] then r.(status := Summarized) else r
    ensures a.GiveUp? ==> forall k :: 0 <= k < |s.rows| ==>
      var r := s.rows[k]; Apply(s, a).rows[k] == if r.id == PhaseOf(s, a.d).todo[0] then r.(status := Skipped) else r
    ensures a.RetrySkipped? ==> forall k :: 0 <= k < |s.rows| ==>
      var r := s.rows[k];
      Apply(s, a).rows[k] ==
        if r.id in a.ids && r.status.Skipped? then r.(status := Raw, attempts := 0, lastError := None) else r
    ensures a.Capture? ==>
      Apply(s, a).rows ==
        if exists r <- s.rows :: r.sessionId == a.sessionId && r.inputHash == a.inputHash then s.rows
        else s.rows + [Row(s.nextId, a.ts, a.sessionId, a.inputHash, a.expiresAt, Raw, 0, None)]
    ensures a.Remove? ==> forall r :: r in Apply(s, a).rows <==> r in s.rows && !a.drop(r)
    ensures a.MarkRows? || a.Succeed? || a.GiveUp? || a.WriteAttempts? || a.RetrySkipped? || a.Capture? || a.Remove?
      || Apply(s, a).rows == s.rows
    ensures a.Select? ==>
      var ids := PhaseOf(Apply(s, a), a.d).ids;
      match PhaseOf(s, a.d).claim
      case Pending(limit) => ids == FirstWithStatus(s.rows, Raw, limit)
      case One(id) => ids == if exists r <- s.rows :: r.id == id && r.status.Raw? then [id] else []
  {
    hide AttemptsOf, WithStatus;
    WithStatusRows(s.rows, Raw);
    if a.Select? && PhaseOf(s, a.d).claim.One? {
      assert HasRow(s.rows, PhaseOf(s, a.d).claim.id, Raw) <==> exists r <- s.rows :: r.id == PhaseOf(s, a.d).claim.id && r.status.Raw?;
    }
    if a.Remove? {
      FilterMembers(s.rows, (r: Row) => !a.drop(r));
    } else if a.Capture? {
      if HasKey(s.rows, a.sessionId, a.inputHash) {
        var k :| 0 <= k < |s.rows| && s.rows[k].sessionId == a.sessionId && s.rows[k].inputHash == a.inputHash;
        assert s.rows[k] in s.rows;
      } else {
        assert forall r <- s.rows :: r.sessionId != a.sessionId || r.inputHash != a.inputHash;
      }
    }
  }

  // A drainer that has its batch can settle it in every way, and whoever is at rest can ask for a batch; captures,
  // deletions and requeues can come at any moment.
  lemma DrainersMove(s: State, d: Drainer, claim: Claim, error: string, ids: set<nat>, drop: Row -> bool)
    ensures PhaseOf(s, d).Idle? ==> Enabled(s, Enter(d, claim))
    ensures PhaseOf(s, d).Locked? ==> Enabled(s, Begin(d)) && Enabled(s, BeginRefused(d))
    ensures PhaseOf(s, d).Working? ==>
      if PhaseOf(s, d).todo == [] then Enabled(s, Finish(d))
      else Enabled(s, Succeed(d)) && Enabled(s, GiveUp(d)) && Enabled(s, ReadAttempts(d, error))
           && Enabled(Apply(s, ReadAttempts(d, error)), WriteAttempts(d))
    ensures Enabled(s, Remove(drop)) && Enabled(s, RetrySkipped(ids))
    ensures forall ts, sessionId, inputHash, expiresAt :: Enabled(s, Capture(ts, sessionId, inputHash, expiresAt))
  {
    hide AttemptsOf;
  }

  lemma {:induction false} RunThen(s: State, run: seq<Action>, t: State, a: Action)
    requires Run(s, run, t) && Enabled(t, a)
    ensures Run(s, run + [a], Apply(t, a))
    decreases |run|
  {
    hide Enabled, Apply;
    if run == [] {
      assert [] + [a] == [a] && [a][1..] == [];
    } else {
      assert (run + [a])[1..] == run[1..] + [a];
      RunThen(Apply(s, run[0]), run[1..], t, a);
    }
  }

  lemma NoSteps(s: State)
    ensures Run(s, [], s)
  {
  }

  // The lock free and nothing in between, a call comes to its open transaction...
  lemma ClaimOpens(s: State, d: Drainer, claim: Claim) returns (run: seq<Action>, t: State)
    requires PhaseOf(s, d).Idle? && s.writeLock in s.resolved && s.txn == None
    ensures Run(s, run, t)
    ensures t == s.(writeLock := s.writeLock + 1, txn := Some(d), arrivals := s.arrivals + [d], served := s.served + [d],
                    phases := s.phases[d := InTxn(claim, s.writeLock + 1)])
  {
    hide Run;
    NoSteps(s);
    var s1 := s.(writeLock := s.writeLock + 1, arrivals := s.arrivals + [d],
                 phases := s.phases[d := Waiting(claim, s.writeLock, s.writeLock + 1)]);
    RunThen(s, [], s, Enter(d, claim));
    var s2 := s1.(served := s.served + [d], phases := s.phases[d := Locked(claim, s.writeLock + 1)]);
    assert s2.phases == s1.phases[d := Locked(claim, s.writeLock + 1)];
    RunThen(s, [] + [Enter(d, claim)], s1, Acquire(d));
    t := s2.(txn := Some(d), phases := s.phases[d := InTxn(claim, s.writeLock + 1)]);
    assert t.phases == s2.phases[d := InTxn(claim, s.writeLock + 1)];
    RunThen(s, [] + [Enter(d, claim)] + [Acquire(d)], s2, Begin(d));
    run := [] + [Enter(d, claim)] + [Acquire(d)] + [Begin(d)];
  }

  // ...selects and marks...
  lemma ClaimMarks(s0: State, before: seq<Action>, s: State, d: Drainer) returns (run: seq<Action>, t: State)
    requires Run(s0, before, s) && PhaseOf(s, d).InTxn?
    ensures Run(s0, run, t)
    ensures var p := PhaseOf(s, d); var ids := Chosen(s.rows, p.claim);
      && t == s.(rows := MarkClaimed(s.rows, ids), phases := t.phases)
      && t.phases == s.phases[d := if ids == [] then Selected(p.own, ids) else Marked(p.own, ids)]
  {
    hide Run, Chosen;
    var p := PhaseOf(s, d);
    var ids := Chosen(s.rows, p.claim);
    RunThen(s0, before, s, Select(d));
    run, t := before + [Select(d)], Apply(s, Select(d));
    if ids == [] {
      assert MarkClaimed(s.rows, ids) == s.rows;
    } else {
      RunThen(s0, run, t, MarkRows(d));
      run, t := run + [MarkRows(d)], Apply(t, MarkRows(d));
      assert t.phases == s.phases[d := Marked(p.own, ids)];
    }
  }

  // ...and so claims what claimPending and claimEvent claim: it ends with the chosen rows marked and in its batch, the
  // transaction closed and the lock released.
  lemma ClaimTakes(s: State, d: Drainer, claim: Claim) returns (run: seq<Action>, t: State)
    requires PhaseOf(s, d).Idle? && s.writeLock in s.resolved && s.txn == None
    ensures Run(s, run, t)
    ensures var ids := Chosen(s.rows, claim);
      && t.rows == MarkClaimed(s.rows, ids) && t.phases == s.phases[d := Working(ids)]
      && t.txn == None && t.writeLock == s.writeLock + 1 && t.resolved == s.resolved + {t.writeLock}
  {
    hide Run, Chosen, MarkClaimed;
    var ids := Chosen(s.rows, claim);
    var run1, s1 := ClaimOpens(s, d, claim);
    var run2, s2 := ClaimMarks(s, run1, s1, d);
    RunThen(s, run2, s2, Commit(d));
    var s3 := s2.(txn := None, phases := s.phases[d := Leaving(s1.writeLock, ids)]);
    assert s3.phases == s2.phases[d := Leaving(s1.writeLock, ids)];
    RunThen(s, run2 + [Commit(d)], s3, ReleaseLock(d));
    run, t := run2 + [Commit(d)] + [ReleaseLock(d)], Apply(s3, ReleaseLock(d));
  }

  // ---- no attempt is lost ----

  // A drainer that has read the attempts of its event is about to write one more.
  ghost predicate CountOk(s: State, d: Drainer) {
    var p := PhaseOf(s, d);
    p.Retrying? && p.todo != [] ==> forall r <- s.rows :: r.id == p.todo[0] ==> p.attempts == r.attempts + 1
  }

  ghost predicate CountInv(s: State) {
    forall d :: CountOk(s, d)
  }

  // A row held by d keeps its attempts through any step that is not d's own.
  lemma HeldKeepsAttempts(s: State, a: Action, d: Drainer, r': Row)
    requires BatchInv(s) && Enabled(s, a) && PhaseOf(s, d).Retrying? && PhaseOf(s, d).todo != []
    requires PhaseOf(Apply(s, a), d) == PhaseOf(s, d)
    requires r' in Apply(s, a).rows && r'.id == PhaseOf(s, d).todo[0]
    ensures exists r <- s.rows :: r.id == r'.id && r.attempts == r'.attempts
  {
    hide Insert, Delete, Requeue, MarkClaimed, MarkOne, Chosen, AttemptsOf, Release, TableValid;
    var id := PhaseOf(s, d).todo[0];
    assert HeldOk(s, d) && id in Held(PhaseOf(s, d));
    StatementsDo(s, a);
    if a.WriteAttempts? {
      assert Apart(s, d, a.d) && a.d != d;
      ReleaseLeaves(s.rows, PhaseOf(s, a.d).todo[0], PhaseOf(s, a.d).attempts, PhaseOf(s, a.d).error, r');
    } else {
      var k :| 0 <= k < |Apply(s, a).rows| && Apply(s, a).rows[k] == r';
      if k < |s.rows| {
        assert s.rows[k] in s.rows;
      }
    }
  }

  lemma ReleaseLeaves(rows: seq<Row>, id: nat, attempts: nat, error: string, r: Row)
    requires r in Release(rows, id, attempts, error) && r.id != id
    ensures r in rows
  {
  }

  lemma CountKept(s: State, a: Action)
    requires LockInv(s) && BatchInv(s) && CountInv(s) && Enabled(s, a)
    ensures CountInv(Apply(s, a))
  {
    hide LockInv, BatchInv, Insert, Delete, Requeue, MarkClaimed, MarkOne, Chosen, AttemptsOf, Release;
    var t := Apply(s, a);
    forall d ensures CountOk(t, d) {
      if PhaseOf(t, d) == PhaseOf(s, d) {
        assert CountOk(s, d);
        if PhaseOf(s, d).Retrying? && PhaseOf(s, d).todo != [] {
          forall r | r in t.rows && r.id == PhaseOf(s, d).todo[0] ensures PhaseOf(s, d).attempts == r.attempts + 1 {
            HeldKeepsAttempts(s, a, d, r);
          }
        }
      } else if a.ReadAttempts? && a.d == d {
        TableOrdered(s);
        AttemptsAgree(s.rows, PhaseOf(s, d).todo[0]);
      }
    }
  }

  lemma TableOrdered(s: State)
    requires BatchInv(s)
    ensures Ordered(s.rows)
  {
  }

  lemma {:induction false} RunCounts(s: State, run: seq<Action>, t: State)
    requires LockInv(s) && BatchInv(s) && CountInv(s) && Run(s, run, t)
    ensures CountInv(t)
    decreases |run|
  {
    hide LockInv, BatchInv, CountInv, Enabled, Apply;
    if run != [] {
      LockKept(s, run[0]);
      BatchKept(s, run[0]);
      CountKept(s, run[0]);
      RunCounts(Apply(s, run[0]), run[1..], t);
    }
  }

  // releaseClaimed reads the attempts in one statement and writes them in another. Whatever runs in between, in every
  // reachable state the write counts exactly one attempt more than the row then has.
  lemma NoAttemptIsLost(s: State, run: seq<Action>, t: State, d: Drainer, k: nat)
    requires Init(s) && Run(s, run, t) && Enabled(t, WriteAttempts(d)) && k < |t.rows|
    ensures var r, p := t.rows[k], PhaseOf(t, d); var after := Apply(t, WriteAttempts(d)).rows;
      && |after| == |t.rows|
      && after[k] ==
           if r.id != p.todo[0] then r
           else r.(status := if r.attempts + 1 < 3 then Raw else Skipped, attempts := r.attempts + 1, lastError := Some(p.error))
  {
    hide LockInv, BatchInv;
    InitInv(s);
    RunCounts(s, run, t);
    assert CountOk(t, d);
    assert t.rows[k] in t.rows;
  }
}
