// The self-rearming drain loop of the daemon, and its twin in the MCP server: a timer starts a tick, the tick
// awaits the counts and perhaps a drain, and its end arms the timer again. A step runs between two awaits.
module PeriodicDrain {
  import opened Sequences

  datatype Config = Config(interval: int, maxSteps: int)

  datatype Phase = Idle | Counting | Draining

  // armed is the delay of the pending timer.
  datatype State = State(phase: Phase, stopped: bool, backoffSteps: int, armed: Option<int>)

  datatype Counts = CountsFailed | Raw(n: nat)

  datatype Drained = DrainThrew | Processed(n: nat)

  datatype Action = Fire | Counted(counts: Counts) | DrainEnded(result: Drained) | Stop

  function Pow2(n: nat): nat {
    if n == 0 then 1 else 2 * Pow2(n - 1)
  }

  // 1 << s on 32-bit integers: the shift count is taken modulo 32, and bit 31 is the sign.
  function ShiftLeft(s: int): int {
    if s % 32 == 31 then -0x8000_0000 else Pow2(s % 32)
  }

  function Min(m: int, n: int): int {
    if m < n then m else n
  }

  // The loop is disabled unless the interval is positive.
  function Init(c: Config): State {
    State(Idle, false, 0, Some(c.interval))
  }

  predicate Enabled(s: State, a: Action) {
    match a
    case Fire => s.armed.Some?
    case Counted(_) => s.phase == Counting
    case DrainEnded(_) => s.phase == Draining
    case Stop => true
  }

  // The finally block.
  function Rearm(c: Config, s: State): State {
    s.(phase := Idle, armed := if s.stopped then s.armed else Some(c.interval * ShiftLeft(s.backoffSteps)))
  }

  function BackOff(c: Config, s: State): State {
    s.(backoffSteps := Min(s.backoffSteps + 1, c.maxSteps))
  }

  function Apply(c: Config, s: State, a: Action): State
    requires Enabled(s, a)
  {
    match a
    case Fire =>
      if s.stopped || s.phase != Idle then s.(armed := None) else s.(armed := None, phase := Counting)
    case Counted(CountsFailed) => Rearm(c, s)
    case Counted(Raw(n)) =>
      if n == 0 then Rearm(c, BackOff(c, s)) else s.(phase := Draining)
    case DrainEnded(DrainThrew) => Rearm(c, s)
    case DrainEnded(Processed(n)) =>
      Rearm(c, if n > 0 then s.(backoffSteps := 0) else BackOff(c, s))
    case Stop => s.(stopped := true, armed := None)
  }

  class Loop {
    const c: Config
    var running: bool
    var draining: bool
    var stopped: bool
    var backoffSteps: int
    var timer: Option<int>

    ghost function View(): State
      reads this
    {
      State(if !running then Idle else if draining then Draining else Counting, stopped, backoffSteps, timer)
    }

    constructor (c: Config)
      requires c.interval > 0
      ensures this.c == c && View() == Init(c)
    {
      this.c, running, draining, stopped, backoffSteps, timer := c, false, false, false, 0, Some(c.interval);
    }

    // The timer's callback, up to the await of the counts.
    method Tick()
      requires Enabled(View(), Fire)
      modifies this
      ensures View() == Apply(c, old(View()), Fire)
    {
      timer := None;
      if stopped || running {
        return;
      }
      running, draining := true, false;
    }

    method AfterCounts(counts: Counts)
      requires Enabled(View(), Counted(counts))
      modifies this
      ensures View() == Apply(c, old(View()), Counted(counts))
    {
      match counts {
        case CountsFailed =>
        case Raw(n) =>
          if n != 0 {
            draining := true;
            return;
          }
          backoffSteps := Min(backoffSteps + 1, c.maxSteps);
      }
      Finally();
    }

    method AfterDrain(result: Drained)
      requires Enabled(View(), DrainEnded(result))
      modifies this
      ensures View() == Apply(c, old(View()), DrainEnded(result))
      ensures result.Processed? && result.n > 0 ==> backoffSteps == 0 && (!stopped ==> timer == Some(c.interval))
      ensures result == Processed(0) ==>
        backoffSteps == if old(backoffSteps) < c.maxSteps then old(backoffSteps) + 1 else c.maxSteps
      ensures result.DrainThrew? ==> backoffSteps == old(backoffSteps)
    {
      match result {
        case DrainThrew =>
        case Processed(n) =>
          if n > 0 {
            backoffSteps := 0;
          } else {
            backoffSteps := Min(backoffSteps + 1, c.maxSteps);
          }
      }
      Finally();
    }

    method Finally()
      requires running
      modifies this
      ensures View() == Rearm(c, old(View()))
    {
      running := false;
      if !stopped {
        timer := Some(c.interval * ShiftLeft(backoffSteps));
      }
    }

    method StopLoop()
      modifies this
      ensures View() == Apply(c, old(View()), Stop)
    {
      stopped := true;
      timer := None;
    }
  }

  // ---- the invariant ----

  // Before stop, either a timer is armed or a tick runs, and never both; after it, no timer is armed.
  ghost predicate OneOfTimerAndTick(s: State) {
    if s.stopped then s.armed.None? else s.armed.Some? <==> s.phase == Idle
  }

  // How many ticks of a run found nothing to do since the last drain that processed something.
  ghost function Misses(past: seq<Action>): nat {
    if past == [] then 0
    else
      var a, before := past[|past| - 1], Misses(past[..|past| - 1]);
      if a == Counted(Raw(0)) || a == DrainEnded(Processed(0)) then before + 1
      else if a.DrainEnded? && a.result.Processed? then 0
      else before
  }

  // What a state says of the actions that led to it.
  ghost predicate Inv(c: Config, past: seq<Action>, s: State) {
    && OneOfTimerAndTick(s)
    && s.backoffSteps == (if Misses(past) == 0 then 0 else Min(Misses(past), c.maxSteps))
    && (s.armed.Some? ==> s.armed.value == c.interval * ShiftLeft(s.backoffSteps))
  }

  lemma InitInv(c: Config)
    ensures Inv(c, [], Init(c))
  {
    assert c.interval * ShiftLeft(0) == c.interval;
  }

  lemma StepKeeps(c: Config, past: seq<Action>, s: State, a: Action)
    requires c.interval > 0 && Inv(c, past, s) && Enabled(s, a)
    ensures Inv(c, past + [a], Apply(c, s, a))
  {
    assert (past + [a])[..|past|] == past;
  }

  ghost predicate Run(c: Config, s: State, actions: seq<Action>, t: State)
    decreases |actions|
  {
    if actions == [] then s == t
    else Enabled(s, actions[0]) && Run(c, Apply(c, s, actions[0]), actions[1..], t)
  }

  lemma {:induction false} RunKeeps(c: Config, past: seq<Action>, s: State, actions: seq<Action>, t: State)
    requires c.interval > 0 && Inv(c, past, s) && Run(c, s, actions, t)
    ensures Inv(c, past + actions, t)
    decreases |actions|
  {
    if actions == [] {
      assert past + actions == past;
    } else {
      StepKeeps(c, past, s, actions[0]);
      RunKeeps(c, past + [actions[0]], Apply(c, s, actions[0]), actions[1..], t);
      assert past + [actions[0]] + actions[1..] == past + actions;
    }
  }

  lemma Reached(c: Config, actions: seq<Action>, s: State)
    requires c.interval > 0 && Run(c, Init(c), actions, s)
    ensures Inv(c, actions, s)
  {
    InitInv(c);
    RunKeeps(c, [], Init(c), actions, s);
    assert [] + actions == actions;
  }

  // In every reachable state one of timer and tick is live until stop, and an armed timer's delay is the interval
  // shifted by the number of unproductive ticks since the last productive drain, capped.
  lemma TimerXorTick(c: Config, actions: seq<Action>, s: State)
    requires c.interval > 0 && Run(c, Init(c), actions, s)
    ensures if s.stopped then s.armed.None? else s.armed.Some? <==> s.phase == Idle
    ensures s.armed.Some? ==>
      var misses := Misses(actions);
      s.armed.value == c.interval * ShiftLeft(if misses == 0 then 0 else if misses < c.maxSteps then misses else c.maxSteps)
  {
    Reached(c, actions, s);
  }

  // What the end of a tick does to the backoff and, before stop, to the timer.
  lemma TickSetsBackoff(c: Config, s: State, a: Action)
    requires Enabled(s, a) && (a.Counted? || a.DrainEnded?)
    ensures var t := Apply(c, s, a);
      && (a.DrainEnded? && a.result.Processed? && a.result.n > 0 ==>
            t.backoffSteps == 0 && (!s.stopped ==> t.armed == Some(c.interval)))
      && (a == Counted(Raw(0)) || a == DrainEnded(Processed(0)) ==>
            t.backoffSteps == if s.backoffSteps < c.maxSteps then s.backoffSteps + 1 else c.maxSteps)
      && (a == Counted(CountsFailed) || a == DrainEnded(DrainThrew) ==> t.backoffSteps == s.backoffSteps)
      && (t.phase == Draining <==> a.Counted? && a.counts.Raw? && a.counts.n > 0)
      && DrainStarts([a]) == (if t.phase == Draining then 1 else 0)
  {
    assert [a][1..] == [];
    assert c.interval * ShiftLeft(0) == c.interval;
  }

  // Until stop the loop goes on: the timer can fire and starts a tick, the counts can come, the drain can end.
  lemma LoopGoesOn(c: Config, actions: seq<Action>, s: State, counts: Counts, result: Drained)
    requires c.interval > 0 && Run(c, Init(c), actions, s) && !s.stopped
    ensures s.phase == Idle ==> Enabled(s, Fire) && Apply(c, s, Fire) == s.(armed := None, phase := Counting)
    ensures s.phase == Counting ==> Enabled(s, Counted(counts))
    ensures s.phase == Draining ==> Enabled(s, DrainEnded(result)) && Apply(c, s, DrainEnded(result)).phase == Idle
    ensures Enabled(s, Stop) && Apply(c, s, Stop) == s.(stopped := true, armed := None)
  {
    Reached(c, actions, s);
  }

  // ---- the delays ----

  lemma ShiftIs(s: nat)
    requires s <= 30
    ensures ShiftLeft(s) == Pow2(s)
  {
    hide Pow2;
    assert s % 32 == s;
  }

  // A shift by one more doubles, up to 30; 31 gives the least 32-bit number, and 32 starts over.
  lemma ShiftDoubles(s: int)
    ensures ShiftLeft(0) == 1 && ShiftLeft(31) == -2147483648
    ensures 0 <= s < 30 ==> ShiftLeft(s + 1) == 2 * ShiftLeft(s)
    ensures ShiftLeft(s + 32) == ShiftLeft(s)
  {
    hide Pow2;
    if 0 <= s < 30 {
      hide ShiftLeft;
      ShiftIs(s);
      ShiftIs(s + 1);
      Pow2Next(s);
    }
    Pow2None();
    assert (s + 32) % 32 == s % 32;
  }

  lemma Pow2Next(n: nat)
    ensures Pow2(n + 1) == 2 * Pow2(n)
  {
  }

  lemma Pow2None()
    ensures Pow2(0) == 1
  {
  }

  ghost predicate DelayIsPower(c: Config, s: State) {
    s.armed.Some? ==>
      0 <= s.backoffSteps <= c.maxSteps && s.armed.value == c.interval * Pow2(s.backoffSteps)
  }

  ghost predicate DelaysArePowers(c: Config) {
    forall actions: seq<Action>, s: State :: Run(c, Init(c), actions, s) ==> DelayIsPower(c, s)
  }

  // A tick that finds nothing to do.
  function EmptyTicks(n: nat): seq<Action> {
    if n == 0 then [] else [Fire, Counted(Raw(0))] + EmptyTicks(n - 1)
  }

  function Backed(c: Config, n: nat): State {
    var steps := if n == 0 then 0 else Min(n, c.maxSteps);
    State(Idle, false, steps, Some(c.interval * ShiftLeft(steps)))
  }

  lemma {:induction false} EmptyTicksRun(c: Config, m: nat, n: nat)
    ensures Run(c, Backed(c, m), EmptyTicks(n), Backed(c, m + n))
    decreases n
  {
    if n > 0 {
      var s := Backed(c, m);
      var actions := EmptyTicks(n);
      var fired := Apply(c, s, Fire);
      assert Apply(c, fired, Counted(Raw(0))) == Backed(c, m + 1);
      EmptyTicksRun(c, m + 1, n - 1);
      assert actions[1..][1..] == EmptyTicks(n - 1);
      assert actions[1..][0] == Counted(Raw(0));
    }
  }

  lemma {:induction false} Pow2Positive(n: nat)
    ensures Pow2(n) > 0
  {
    if n > 0 {
      Pow2Positive(n - 1);
    }
  }

  lemma NotNegative(interval: int, p: int)
    requires interval > 0 && p >= 0
    ensures interval * p >= 0 && interval * -0x8000_0000 < 0
  {
  }

  lemma CapKeepsPower(c: Config, past: seq<Action>, s: State)
    requires 0 <= c.maxSteps <= 30 && Inv(c, past, s)
    ensures DelayIsPower(c, s)
  {
    hide ShiftLeft, Pow2, Misses;
    if s.armed.Some? {
      ShiftIs(s.backoffSteps);
    }
  }

  lemma DelaysWithinCap(c: Config)
    requires c.interval > 0 && 0 <= c.maxSteps <= 30
    ensures DelaysArePowers(c)
  {
    hide Run, Inv, DelayIsPower;
    forall actions: seq<Action>, s: State | Run(c, Init(c), actions, s) ensures DelayIsPower(c, s) {
      Reached(c, actions, s);
      CapKeepsPower(c, actions, s);
    }
  }

  // Enough empty ticks to leave the cap's good range.
  lemma DelayBeyondCap(c: Config) returns (n: nat)
    requires c.interval > 0 && !(0 <= c.maxSteps <= 30)
    ensures !DelayIsPower(c, Backed(c, n))
  {
    n := if c.maxSteps < 0 then 1 else 31;
    Pow2Positive(31);
    NotNegative(c.interval, Pow2(31));
  }

  // Every armed delay is the interval times two to the power of a step count within the cap, exactly when the
  // cap lies from 0 to 30: beyond that the 32-bit shift wraps.
  lemma DelaysExactlyWithinCap(c: Config)
    requires c.interval > 0
    ensures DelaysArePowers(c) <==> 0 <= c.maxSteps <= 30
  {
    hide Run, DelayIsPower;
    if 0 <= c.maxSteps <= 30 {
      DelaysWithinCap(c);
    } else {
      var n := DelayBeyondCap(c);
      EmptyTicksRun(c, 0, n);
      BackedInit(c);
      assert Run(c, Init(c), EmptyTicks(n), Backed(c, n));
    }
  }

  lemma BackedInit(c: Config)
    ensures Backed(c, 0) == Init(c)
  {
    assert c.interval * ShiftLeft(0) == c.interval;
  }

  // ---- stopping ----

  // The drains started in a run: one whenever the counts show raw events.
  ghost function DrainStarts(actions: seq<Action>): nat {
    if actions == [] then 0
    else (if actions[0].Counted? && actions[0].counts.Raw? && actions[0].counts.n > 0 then 1 else 0) + DrainStarts(actions[1..])
  }

  // From a stopped state at most the running tick's drain starts, and only if the tick awaits its counts.
  lemma {:induction false} DrainsAfterStop(c: Config, s: State, actions: seq<Action>, t: State)
    requires s.stopped && s.armed.None? && Run(c, s, actions, t)
    ensures t.stopped && t.armed.None?
    ensures DrainStarts(actions) <= if s.phase == Counting then 1 else 0
    decreases |actions|
  {
    if actions != [] {
      DrainsAfterStop(c, Apply(c, s, actions[0]), actions[1..], t);
    }
  }

  ghost predicate NoDrainFrom(c: Config, s: State) {
    forall actions: seq<Action>, t: State :: Run(c, s, actions, t) ==> DrainStarts(actions) == 0
  }

  // No drain starts after stop exactly when stop does not come while a tick awaits its counts: the tick does not
  // look at the flag again after that await.
  lemma StopStopsDrainsUnlessCounting(c: Config, s: State)
    ensures NoDrainFrom(c, Apply(c, s, Stop)) <==> s.phase != Counting
  {
    var u := Apply(c, s, Stop);
    if s.phase != Counting {
      forall actions: seq<Action>, t: State | Run(c, u, actions, t) ensures DrainStarts(actions) == 0 {
        DrainsAfterStop(c, u, actions, t);
      }
    } else {
      var t := Apply(c, u, Counted(Raw(1)));
      assert [Counted(Raw(1))][1..] == [];
      assert Run(c, t, [], t);
      assert Run(c, u, [Counted(Raw(1))], t);
      assert DrainStarts([Counted(Raw(1))]) == 1;
    }
  }

  // No tick starts after stop.
  lemma NoTickAfterStop(c: Config, actions: seq<Action>, s: State)
    requires c.interval > 0 && Run(c, Init(c), actions, s) && s.stopped
    ensures !Enabled(s, Fire)
  {
    Reached(c, actions, s);
  }
}
