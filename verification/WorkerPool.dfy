// A fixed number of workers over a list of tasks: each takes the next index from a shared counter, awaits
// that task, stores its result, and takes again. A step runs one worker between two awaits.
module WorkerPool {
  import opened Sequences

  datatype Worker = Taking | Awaiting(task: nat) | Returned

  datatype State<T> = State(next: nat, out: seq<Option<T>>, workers: seq<Worker>)

  datatype Action<T> = Take(w: nat) | Resolve(w: nat, value: T)

  // min(n, tasks) workers; Array.from makes none of a negative length.
  function Size(tasks: nat, n: int): nat {
    if n < 0 then 0 else if n < tasks then n else tasks
  }

  function Init<T>(tasks: nat, n: int): State<T> {
    State(0, seq(tasks, _ => None), seq(Size(tasks, n), _ => Taking))
  }

  predicate Enabled<T>(s: State<T>, a: Action<T>) {
    a.w < |s.workers| && if a.Take? then s.workers[a.w].Taking?
                         else s.workers[a.w].Awaiting? && s.workers[a.w].task < |s.out|
  }

  function Apply<T>(s: State<T>, a: Action<T>): State<T>
    requires Enabled(s, a)
  {
    match a
    case Take(w) =>
      var idx := s.next;
      if idx >= |s.out| then s.(next := idx + 1, workers := s.workers[w := Returned])
      else s.(next := idx + 1, workers := s.workers[w := Awaiting(idx)])
    case Resolve(w, value) =>
      var idx := s.workers[w].task;
      s.(out := s.out[idx := Some(value)], workers := s.workers[w := Taking])
  }

  // The shared counter and result array, and the two stretches of a worker's code between awaits.
  class Pool<T> {
    var i: nat
    const out: array<Option<T>>
    ghost var workers: seq<Worker>

    ghost function View(): State<T>
      reads this, out
    {
      State(i, out[..], workers)
    }

    constructor (tasks: nat, n: int)
      ensures View() == Init(tasks, n) && fresh(out)
    {
      i, out := 0, new Option<T>[tasks](_ => None);
      workers := seq(Size(tasks, n), _ => Taking);
    }

    // const idx = i++, and either the task starts or the worker returns.
    method TakeNext(ghost w: nat) returns (task: Option<nat>)
      requires Enabled(View(), Take(w))
      modifies this
      ensures View() == Apply(old(View()), Take(w))
      ensures task == (if old(i) < out.Length then Some(old(i)) else None) && i == old(i) + 1
    {
      var idx := i;
      i := i + 1;
      if idx >= out.Length {
        workers := workers[w := Returned];
        return None;
      }
      workers := workers[w := Awaiting(idx)];
      return Some(idx);
    }

    // The awaited task has resolved.
    method StoreResult(ghost w: nat, idx: nat, value: T)
      requires Enabled(View(), Resolve(w, value)) && workers[w] == Awaiting(idx)
      modifies this, out
      ensures View() == Apply(old(View()), Resolve(w, value))
      ensures i == old(i) && out[..] == old(out[..])[idx := Some(value)]
    {
      out[idx] := Some(value);
      workers := workers[w := Taking];
    }
  }

  // ---- what a run says ----

  // How often a task has been taken.
  ghost function Takes<T>(past: seq<Action<T>>): nat {
    if past == [] then 0 else Takes(past[..|past| - 1]) + if past[|past| - 1].Take? then 1 else 0
  }

  // What a worker took last: the m-th taking of all is of task m.
  ghost function LastTaken<T>(past: seq<Action<T>>, w: nat): Option<nat> {
    if past == [] then None
    else
      var before := past[..|past| - 1];
      if past[|past| - 1] == Take(w) then Some(Takes(before)) else LastTaken(before, w)
  }

  // What a task has resolved to: the value its worker last resolved with after taking it.
  ghost function ResultOf<T>(past: seq<Action<T>>, task: nat): Option<T> {
    if past == [] then None
    else
      var a, before := past[|past| - 1], past[..|past| - 1];
      if a.Resolve? && LastTaken(before, a.w) == Some(task) then Some(a.value) else ResultOf(before, task)
  }

  // ---- the invariant ----

  // The tasks that have started: the first so many.
  function Begun<T>(s: State<T>): nat {
    if s.next < |s.out| then s.next else |s.out|
  }

  ghost predicate HeldBy<T>(s: State<T>, w: nat, task: nat) {
    w < |s.workers| && s.workers[w] == Awaiting(task)
  }

  // Each started task is awaited by one worker, or its result stands in its place.
  ghost predicate Inv<T>(s: State<T>) {
    && (forall w: nat, task: nat :: HeldBy(s, w, task) ==> task < Begun(s) && s.out[task].None?)
    && (forall v: nat, w: nat, task: nat :: HeldBy(s, v, task) && HeldBy(s, w, task) ==> v == w)
    && (forall k: nat :: k < |s.out| && s.out[k].None? && k < Begun(s) ==> exists w: nat :: HeldBy(s, w, k))
    && (forall k: nat :: k < |s.out| && s.out[k].Some? ==> k < Begun(s))
    && (forall w: nat :: w < |s.workers| && s.workers[w].Returned? ==> s.next > |s.out|)
  }

  // The state says what the actions said: as many tasks were taken as the counter tells, a worker awaits what it
  // took last, and a slot holds what its task has resolved to.
  ghost predicate Told<T>(past: seq<Action<T>>, s: State<T>) {
    && s.next == Takes(past)
    && (forall w: nat, task: nat :: HeldBy(s, w, task) ==> LastTaken(past, w) == Some(task))
    && (forall k: nat :: k < |s.out| ==> s.out[k] == ResultOf(past, k))
    && (forall k: nat :: k >= s.next ==> ResultOf(past, k).None?)
    && (forall w: nat :: LastTaken(past, w).Some? ==> LastTaken(past, w).value < s.next)
  }

  lemma {:induction false} TakeKeeps<T>(s: State<T>, w: nat)
    requires Inv(s) && Enabled(s, Take(w))
    ensures Inv(Apply(s, Take(w)))
  {
    var t := Apply(s, Take(w));
    forall k: nat | k < |t.out| && t.out[k].None? && k < Begun(t) ensures exists v: nat :: HeldBy(t, v, k) {
      if k < Begun(s) {
        var v :| HeldBy(s, v, k);
        assert HeldBy(t, v, k);
      } else {
        assert HeldBy(t, w, k);
      }
    }
    forall v: nat, task: nat | HeldBy(t, v, task) ensures v == w || HeldBy(s, v, task) {
    }
  }

  lemma {:induction false} ResolveKeeps<T>(s: State<T>, w: nat, value: T)
    requires Inv(s) && Enabled(s, Resolve(w, value))
    ensures Inv(Apply(s, Resolve(w, value)))
  {
    var t := Apply(s, Resolve(w, value));
    assert HeldBy(s, w, s.workers[w].task);
    forall v: nat, task: nat | HeldBy(t, v, task) ensures HeldBy(s, v, task) && v != w {
    }
    forall k: nat | k < |t.out| && t.out[k].None? && k < Begun(t) ensures exists v: nat :: HeldBy(t, v, k) {
      var v :| HeldBy(s, v, k);
      assert HeldBy(t, v, k);
    }
  }

  lemma {:induction false} OneMore<T>(past: seq<Action<T>>, a: Action<T>, w: nat, k: nat)
    ensures Takes(past + [a]) == Takes(past) + if a.Take? then 1 else 0
    ensures LastTaken(past + [a], w) == if a == Take(w) then Some(Takes(past)) else LastTaken(past, w)
    ensures ResultOf(past + [a], k) ==
      if a.Resolve? && LastTaken(past, a.w) == Some(k) then Some(a.value) else ResultOf(past, k)
  {
    assert (past + [a])[..|past|] == past;
  }

  lemma {:induction false} ToldKept<T>(past: seq<Action<T>>, s: State<T>, a: Action<T>)
    requires Inv(s) && Told(past, s) && Enabled(s, a)
    ensures Told(past + [a], Apply(s, a))
  {
    hide Takes, LastTaken, ResultOf;
    var t, now := Apply(s, a), past + [a];
    OneMore(past, a, a.w, 0);
    if a.Resolve? {
      assert HeldBy(s, a.w, s.workers[a.w].task);
    }
    forall w: nat, task: nat | HeldBy(t, w, task) ensures LastTaken(now, w) == Some(task) {
      OneMore(past, a, w, task);
      assert HeldBy(s, w, task) || a == Take(w);
    }
    forall k: nat ensures k < |t.out| ==> t.out[k] == ResultOf(now, k)
                  ensures k >= t.next ==> ResultOf(now, k).None? {
      OneMore(past, a, a.w, k);
    }
    forall w: nat | LastTaken(now, w).Some? ensures LastTaken(now, w).value < t.next {
      OneMore(past, a, w, 0);
    }
  }

  // ---- how many tasks are in flight ----

  ghost function InFlight<T>(s: State<T>): set<nat> {
    set k: nat | k < Begun(s) && k < |s.out| && s.out[k].None?
  }

  ghost function Awaited(workers: seq<Worker>): set<nat> {
    set w: nat | w < |workers| && workers[w].Awaiting? :: workers[w].task
  }

  lemma {:induction false} AwaitedSize(workers: seq<Worker>)
    ensures |Awaited(workers)| <= |workers|
  {
    if workers == [] {
      assert Awaited(workers) == {};
    } else {
      var n := |workers| - 1;
      AwaitedSize(workers[..n]);
      var last: set<nat> := if workers[n].Awaiting? then {workers[n].task} else {};
      assert Awaited(workers) <= Awaited(workers[..n]) + last;
      Fewer(Awaited(workers), Awaited(workers[..n]) + last);
    }
  }

  lemma {:induction false} Fewer(a: set<nat>, b: set<nat>)
    requires a <= b
    ensures |a| <= |b|
  {
    if a != {} {
      var x :| x in a;
      Fewer(a - {x}, b - {x});
    }
  }

  lemma {:induction false} InFlightIsBounded<T>(s: State<T>)
    requires Inv(s)
    ensures |InFlight(s)| <= |s.workers|
  {
    forall k | k in InFlight(s) ensures k in Awaited(s.workers) {
      var w :| HeldBy(s, w, k);
    }
    Fewer(InFlight(s), Awaited(s.workers));
    AwaitedSize(s.workers);
  }

  // ---- runs ----

  ghost predicate Run<T(!new)>(s: State<T>, actions: seq<Action<T>>, t: State<T>)
    decreases |actions|
  {
    if actions == [] then s == t
    else Enabled(s, actions[0]) && Run(Apply(s, actions[0]), actions[1..], t)
  }

  // How many steps are left: two a task, one a worker's return.
  function StepsLeft<T>(s: State<T>): nat {
    2 * (|s.out| - Begun(s)) + Weight(s.workers)
  }

  function Weight(workers: seq<Worker>): nat {
    if workers == [] then 0
    else Weight(workers[..|workers| - 1]) +
         match workers[|workers| - 1] { case Taking => 1 case Awaiting(_) => 2 case Returned => 0 }
  }

  lemma {:induction false} WeightAfter(workers: seq<Worker>, w: nat, to: Worker)
    requires w < |workers|
    ensures Weight(workers[w := to]) == Weight(workers) + Weight([to]) - Weight([workers[w]])
  {
    var n := |workers| - 1;
    assert forall x: Worker :: [x][..0] == [];
    if w < n {
      assert workers[w := to][..n] == workers[..n][w := to];
      WeightAfter(workers[..n], w, to);
    } else {
      assert workers[w := to][..n] == workers[..n];
    }
  }

  lemma {:induction false} WeightOne(x: Worker)
    ensures Weight([x]) == match x { case Taking => 1 case Awaiting(_) => 2 case Returned => 0 }
  {
  }

  lemma {:induction false} StepCounts<T>(s: State<T>, a: Action<T>)
    requires Enabled(s, a)
    ensures StepsLeft(Apply(s, a)) == StepsLeft(s) - 1
  {
    hide Weight;
    var to := Apply(s, a).workers[a.w];
    WeightAfter(s.workers, a.w, to);
    WeightOne(to);
    WeightOne(s.workers[a.w]);
  }

  lemma {:induction false} RunKeeps<T(!new)>(past: seq<Action<T>>, s: State<T>, actions: seq<Action<T>>, t: State<T>)
    requires Inv(s) && Told(past, s) && Run(s, actions, t)
    ensures Inv(t) && Told(past + actions, t) && |t.out| == |s.out| && |t.workers| == |s.workers|
    ensures StepsLeft(s) == StepsLeft(t) + |actions|
    decreases |actions|
  {
    hide Inv, Told, StepsLeft;
    if actions == [] {
      assert past + actions == past;
    } else {
      var a := actions[0];
      StepCounts(s, a);
      match a {
        case Take(w) => TakeKeeps(s, w);
        case Resolve(w, value) => ResolveKeeps(s, w, value);
      }
      ToldKept(past, s, a);
      RunKeeps(past + [a], Apply(s, a), actions[1..], t);
      assert past + [a] + actions[1..] == past + actions;
    }
  }

  lemma {:induction false} Reached<T(!new)>(tasks: nat, n: int, actions: seq<Action<T>>, s: State<T>)
    requires Run(Init(tasks, n), actions, s)
    ensures Inv(s) && Told(actions, s) && |s.out| == tasks && |s.workers| == Size(tasks, n)
    ensures StepsLeft(Init<T>(tasks, n)) == StepsLeft(s) + |actions|
  {
    RunKeeps([], Init(tasks, n), actions, s);
    assert [] + actions == actions;
  }

  // At every moment of every run: the tasks taken are the first ones, in order, each once; a worker awaits the task
  // it took last, and no other worker awaits it; and no more than n tasks, and no more than there are, are in flight.
  lemma {:induction false} StartsOnceAndBounded<T(!new)>(tasks: nat, n: int, actions: seq<Action<T>>, s: State<T>)
    requires Run(Init(tasks, n), actions, s)
    ensures s.next == Takes(actions)
    ensures forall w: nat, task: nat :: HeldBy(s, w, task) ==> task < tasks && LastTaken(actions, w) == Some(task)
    ensures forall v: nat, w: nat, task: nat :: HeldBy(s, v, task) && HeldBy(s, w, task) ==> v == w
    ensures forall k: nat :: k in InFlight(s) <==> exists w: nat :: HeldBy(s, w, k)
    ensures |InFlight(s)| <= tasks && |InFlight(s)| <= if n < 0 then 0 else n
  {
    hide StepsLeft;
    Reached(tasks, n, actions, s);
    InFlightIsBounded(s);
  }

  // Unless all have returned, some worker can go on, whatever its task resolves to; each step leaves one fewer.
  lemma {:induction false} SomeWorkerMoves<T>(s: State<T>, value: T) returns (a: Action<T>)
    requires Inv(s) && !AllReturned(s)
    ensures Enabled(s, a) && (a.Resolve? ==> a.value == value)
    ensures StepsLeft(Apply(s, a)) == StepsLeft(s) - 1
  {
    hide StepsLeft;
    var w :| 0 <= w < |s.workers| && !s.workers[w].Returned?;
    a := if s.workers[w].Taking? then Take(w) else Resolve(w, value);
    assert s.workers[w].Awaiting? ==> HeldBy(s, w, s.workers[w].task);
    StepCounts(s, a);
  }

  predicate AllReturned<T>(s: State<T>) {
    forall w :: 0 <= w < |s.workers| ==> s.workers[w].Returned?
  }

  lemma {:induction false} NoneHeld<T>(s: State<T>, k: nat)
    requires Inv(s) && AllReturned(s) && k < Begun(s)
    ensures s.out[k].Some?
  {
  }

  lemma {:induction false} NoWorkerNoStep<T(!new)>(s: State<T>, actions: seq<Action<T>>, t: State<T>)
    requires s.workers == [] && Run(s, actions, t)
    ensures s == t
  {
  }

  lemma {:induction false} WeightAll(workers: seq<Worker>, kind: Worker)
    requires !kind.Awaiting? && forall i :: 0 <= i < |workers| ==> workers[i] == kind
    ensures Weight(workers) == if kind.Taking? then |workers| else 0
  {
    if workers != [] {
      assert workers[|workers| - 1] == kind;
      WeightAll(workers[..|workers| - 1], kind);
    }
  }

  // When all workers have returned, after exactly two steps a task and one a worker, every task has started
  // and every slot holds what its own task resolved to; this needs a worker, unless there is no task.
  lemma {:induction false} EveryResultInPlace<T(!new)>(tasks: nat, n: int, actions: seq<Action<T>>, s: State<T>)
    requires Run(Init(tasks, n), actions, s) && AllReturned(s)
    ensures |s.out| == tasks && forall k: nat :: k < tasks ==> s.out[k] == ResultOf(actions, k)
    ensures n >= 1 || tasks == 0 <==> Takes(actions) >= tasks
    ensures n >= 1 || tasks == 0 <==> forall k: nat :: k < tasks ==> s.out[k].Some?
    ensures n >= 1 ==> |actions| == 2 * tasks + if n < tasks then n else tasks
  {
    Reached(tasks, n, actions, s);
    WeightAll(Init<T>(tasks, n).workers, Taking);
    WeightAll(s.workers, Returned);
    if n >= 1 && tasks > 0 {
      assert s.workers[0].Returned?;
      assert Begun(s) == tasks;
      forall k: nat | k < tasks ensures s.out[k].Some? {
        NoneHeld(s, k);
      }
    } else if tasks > 0 {
      NoWorkerNoStep(Init(tasks, n), actions, s);
      assert s.out[0].None?;
    }
  }
}
