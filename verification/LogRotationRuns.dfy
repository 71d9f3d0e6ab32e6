// Every run of log writes, restarts and crashes, one file operation a step.
module LogRotationRuns {
  import opened Sequences
  import opened LogRotation

  // Rotating(i, freed): the loop is at generation i, whose slot has been freed if freed.
  datatype Phase = Down | Open | Closed | Rotating(i: nat, freed: bool)

  // The last field is history: the generations unlinked, oldest first.
  datatype State = State(files: Files, phase: Phase, sinceCheck: nat, lost: seq<seq<Line>>)

  datatype Action = Start | Write(line: Line) | Step | Close | Crash

  function Oldest(c: Config): nat {
    if c.keep >= 1 then c.keep else 0
  }

  function Init(): State {
    State(map[], Down, 0, [])
  }

  predicate Enabled(c: Config, s: State, a: Action) {
    match a
    case Start => s.phase.Down?
    case Write(_) => s.phase.Open? || s.phase.Closed?
    case Step => s.phase.Rotating?
    case Close => s.phase.Open?
    case Crash => true
  }

  // maybeRotate's decision.
  function Checking(c: Config, files: Files): Phase {
    if Due(c, files) then Rotating(Oldest(c), false) else Open
  }

  function Apply(c: Config, s: State, a: Action): State
    requires Enabled(c, s, a)
  {
    match a
    case Start =>
      var files := OpenAppend(s.files);
      s.(files := files, phase := Checking(c, files), sinceCheck := 0)
    case Write(line) =>
      if s.phase.Closed? then s
      else
        var files := s.files[0 := Content(s.files, 0) + [line]];
        var t := s.(files := files);
        if s.sinceCheck + 1 >= c.checkEvery then t.(sinceCheck := 0, phase := Checking(c, files))
        else t.(sinceCheck := s.sinceCheck + 1)
    case Step =>
      var i := s.phase.i;
      if i == 0 then s.(files := OpenAppend(s.files), phase := Open)
      else if i == c.keep && !s.phase.freed then
        s.(files := Unlink(s.files, i), phase := Rotating(i, true),
           lost := s.lost + if i in s.files then [s.files[i]] else [])
      else s.(files := Rename(s.files, i - 1, i), phase := Rotating(i - 1, true))
    case Close => s.(phase := Closed)
    case Crash => s.(phase := Down)
  }

  // An undisturbed rotation, step by step.
  function Finished(c: Config, s: State): State
    requires s.phase.Rotating? && (0 < s.phase.i < c.keep ==> s.phase.freed) && s.phase.i <= Oldest(c)
    decreases s.phase.i, !s.phase.freed
  {
    var t := Apply(c, s, Step);
    if t.phase.Open? then t else Finished(c, t)
  }

  // It does what the sink's loop does.
  lemma {:induction false} FinishedIsShiftAll(c: Config, s: State)
    requires s.phase.Rotating? && (0 < s.phase.i < c.keep ==> s.phase.freed) && s.phase.i <= Oldest(c)
    requires s.phase.i == c.keep ==> !s.phase.freed
    ensures Finished(c, s).files == OpenAppend(ShiftAll(c, s.files, s.phase.i))
    decreases s.phase.i
  {
    var t := Apply(c, s, Step);
    if s.phase.i > 0 {
      if s.phase.i == c.keep {
        FinishedIsShiftAll(c, Apply(c, t, Step));
      } else {
        FinishedIsShiftAll(c, t);
      }
    }
  }

  // A rotation that has begun, brought to its end.
  function Settled(c: Config, s: State): State
    requires s.phase.Rotating? ==> s.phase.i == Oldest(c) && !s.phase.freed
  {
    if s.phase.Rotating? then Finished(c, s) else s
  }

  lemma {:induction false} FinishedKeeps(c: Config, s: State)
    requires s.phase.Rotating? && (0 < s.phase.i < c.keep ==> s.phase.freed) && s.phase.i <= Oldest(c)
    ensures Finished(c, s).phase == Open && Finished(c, s).sinceCheck == s.sinceCheck
    decreases s.phase.i, !s.phase.freed
  {
    var t := Apply(c, s, Step);
    if !t.phase.Open? {
      FinishedKeeps(c, t);
    }
  }

  // Undisturbed, starting and writing do what the sink does: a check follows the start, and every checkEvery-th write.
  lemma StepsAreTheSink(c: Config, s: State, line: Line)
    ensures Enabled(c, s, Start) ==>
      var t := Settled(c, Apply(c, s, Start));
      t.phase == Open && t.sinceCheck == 0 && t.files == Checked(c, OpenAppend(s.files))
    ensures s.phase.Open? && 0 in s.files ==>
      && Enabled(c, s, Write(line))
      && var t, after := Settled(c, Apply(c, s, Write(line))), s.files[0 := s.files[0] + [line]];
         t.phase == Open
         && (if s.sinceCheck + 1 >= c.checkEvery then t.sinceCheck == 0 && t.files == Checked(c, after)
             else t.sinceCheck == s.sinceCheck + 1 && t.files == after)
    ensures s.phase.Closed? ==> Enabled(c, s, Write(line)) && Apply(c, s, Write(line)) == s
  {
    hide Due;
    if Enabled(c, s, Start) {
      CheckIsTheSink(c, Apply(c, s, Start));
    }
    if s.phase.Open? && 0 in s.files {
      CheckIsTheSink(c, Apply(c, s, Write(line)));
    }
  }

  lemma CheckIsTheSink(c: Config, s: State)
    requires s.phase == Open || s.phase == Checking(c, s.files)
    ensures s.phase.Rotating? ==> s.phase.i == Oldest(c) && !s.phase.freed
    ensures Settled(c, s).phase == Open && Settled(c, s).sinceCheck == s.sinceCheck
    ensures Settled(c, s).files == if s.phase == Checking(c, s.files) && 0 in s.files then Checked(c, s.files) else Settled(c, s).files
    ensures s.phase == Open ==> Settled(c, s).files == s.files
  {
    if s.phase.Rotating? {
      FinishedIsShiftAll(c, s);
      FinishedKeeps(c, s);
    }
  }

  // A crash can come at any moment, and leaves the files as they are.
  lemma CrashAnywhere(c: Config, s: State)
    ensures Enabled(c, s, Crash) && Apply(c, s, Crash) == s.(phase := Down)
  {
  }

  // ---- nothing is lost but whole oldest generations ----

  function Flatten(generations: seq<seq<Line>>): seq<Line> {
    if generations == [] then []
    else Flatten(generations[..|generations| - 1]) + generations[|generations| - 1]
  }

  // Whether the sink is open after these actions: it was started, and neither closed nor crashed since.
  ghost predicate SinkOpen(past: seq<Action>) {
    past != [] &&
    match past[|past| - 1]
    case Start => true
    case Close => false
    case Crash => false
    case _ => SinkOpen(past[..|past| - 1])
  }

  // The lines written while the sink was open.
  ghost function Written(past: seq<Action>): seq<Line> {
    if past == [] then []
    else
      var a, before := past[|past| - 1], past[..|past| - 1];
      Written(before) + if a.Write? && SinkOpen(before) then [a.line] else []
  }

  ghost predicate Inv(c: Config, past: seq<Action>, s: State) {
    && Written(past) == Flatten(s.lost) + Reading(s.files, Oldest(c))
    && (s.phase.Open? ==> SinkOpen(past))
    && (s.phase.Closed? ==> !SinkOpen(past))
    && (s.phase.Rotating? ==> SinkOpen(past))
    && FilesInv(c, s)
  }

  ghost predicate FilesInv(c: Config, s: State) {
    PlacesInv(c, s) && LargeInv(c, s)
  }

  ghost predicate PlacesInv(c: Config, s: State) {
    && (forall g <- s.files :: g <= Oldest(c))
    && (s.phase.Open? || s.phase.Closed? ==> 0 in s.files)
    && (s.phase.Rotating? ==> RotatingInv(c, s.files, s.phase.i, s.phase.freed))
  }

  // What has been rotated away from the active file had reached the size limit.
  ghost predicate LargeInv(c: Config, s: State) {
    && (forall g: nat :: g >= 1 && g in s.files ==> Size(s.files[g]) >= c.maxBytes)
    && (forall l <- s.lost :: Size(l) >= c.maxBytes)
    && (s.phase.Rotating? && s.phase.i >= 1 ==> 0 in s.files && Size(s.files[0]) >= c.maxBytes)
  }

  ghost predicate RotatingInv(c: Config, files: Files, i: nat, freed: bool) {
    i <= Oldest(c) && (i < Oldest(c) ==> freed) && (freed ==> i !in files)
  }

  lemma {:induction false} ReadingFrame(f: Files, h: Files, g: nat)
    requires forall k: nat :: k <= g ==> Content(f, k) == Content(h, k)
    ensures Reading(f, g) == Reading(h, g)
  {
    if g > 0 {
      ReadingFrame(f, h, g - 1);
    }
  }

  lemma {:induction false} AppendReads(f: Files, line: Line, g: nat)
    ensures Reading(f[0 := Content(f, 0) + [line]], g) == Reading(f, g) + [line]
  {
    var h := f[0 := Content(f, 0) + [line]];
    if g > 0 {
      AppendReads(f, line, g - 1);
      assert Content(h, g) == Content(f, g);
    }
  }

  lemma UnlinkedContent(f: Files, g: nat, k: nat)
    ensures Content(Unlink(f, g), k) == if k == g then [] else Content(f, k)
  {
  }

  lemma {:induction false} UnlinkedBelow(f: Files, g: nat, k: nat)
    requires k < g
    ensures Reading(Unlink(f, g), k) == Reading(f, k)
  {
    hide Content, Unlink;
    UnlinkedContent(f, g, k);
    if k > 0 {
      UnlinkedBelow(f, g, k - 1);
    }
  }

  lemma UnlinkReads(f: Files, g: nat)
    ensures Reading(f, g) == Content(f, g) + Reading(Unlink(f, g), g)
  {
    hide Content, Unlink, Reading;
    UnlinkedContent(f, g, g);
    ReadingStep(f, g);
    ReadingStep(Unlink(f, g), g);
    if g > 0 {
      UnlinkedBelow(f, g, g - 1);
    }
  }

  lemma ReadingStep(f: Files, g: nat)
    ensures Reading(f, g) == Content(f, g) + if g == 0 then [] else Reading(f, g - 1)
  {
  }

  lemma RenamedContent(f: Files, i: nat, k: nat)
    requires i >= 1 && i !in f
    ensures Content(Rename(f, i - 1, i), k) ==
      if k == i then Content(f, i - 1) else if k == i - 1 then [] else Content(f, k)
    ensures Content(f, i) == []
  {
  }

  // Moving a generation into a free slot above it does not change what is read.
  lemma {:induction false} RenameReads(f: Files, i: nat, g: nat)
    requires 1 <= i <= g && i !in f
    ensures Reading(Rename(f, i - 1, i), g) == Reading(f, g)
  {
    hide Content, Rename;
    var h := Rename(f, i - 1, i);
    RenamedContent(f, i, g);
    if i < g {
      RenameReads(f, i, g - 1);
    } else {
      RenamedContent(f, i, i - 1);
      if i > 1 {
        forall k: nat | k <= i - 2 ensures Content(h, k) == Content(f, k) {
          RenamedContent(f, i, k);
        }
        ReadingFrame(h, f, i - 2);
      }
    }
  }

  lemma OneMore(past: seq<Action>, a: Action)
    ensures Written(past + [a]) == Written(past) + if a.Write? && SinkOpen(past) then [a.line] else []
    ensures SinkOpen(past + [a]) <==> if a.Start? then true else if a.Close? || a.Crash? then false else SinkOpen(past)
  {
    assert (past + [a])[..|past|] == past;
  }

  lemma ReadingKept(c: Config, past: seq<Action>, s: State, a: Action)
    requires Inv(c, past, s) && Enabled(c, s, a)
    ensures var t := Apply(c, s, a); Written(past + [a]) == Flatten(t.lost) + Reading(t.files, Oldest(c))
  {
    hide Reading, Flatten, Content, Due, Written, SinkOpen, LargeInv;
    OneMore(past, a);
    match a
    case Start => OpenReads(s.files, Oldest(c));
    case Write(line) => if s.phase.Open? {
      AppendReads(s.files, line, Oldest(c));
      Regroup(Flatten(s.lost), Reading(s.files, Oldest(c)), [line]);
    }
    case Step =>
      var i := s.phase.i;
      if i == 0 {
        OpenReads(s.files, Oldest(c));
      } else if i == c.keep && !s.phase.freed {
        UnlinkReads(s.files, i);
        LostSnoc(s.lost, s.files, i);
        Regroup(Flatten(s.lost), Content(s.files, i), Reading(Unlink(s.files, i), i));
      } else {
        RenameReads(s.files, i, Oldest(c));
      }
    case _ =>
  }

  lemma OpenReads(f: Files, g: nat)
    ensures Reading(OpenAppend(f), g) == Reading(f, g)
  {
    ReadingFrame(f, OpenAppend(f), g);
  }

  lemma LostSnoc(lost: seq<seq<Line>>, f: Files, i: nat)
    ensures Flatten(lost + if i in f then [f[i]] else []) == Flatten(lost) + Content(f, i)
  {
    if i in f {
      assert (lost + [f[i]])[..|lost|] == lost;
    } else {
      assert lost + [] == lost;
    }
  }

  lemma PlacesKept(c: Config, s: State, a: Action)
    requires PlacesInv(c, s) && Enabled(c, s, a)
    ensures PlacesInv(c, Apply(c, s, a))
  {
    hide Size;
  }

  lemma LargeKept(c: Config, s: State, a: Action)
    requires PlacesInv(c, s) && LargeInv(c, s) && Enabled(c, s, a)
    ensures LargeInv(c, Apply(c, s, a))
  {
    hide Size;
    if a.Write? && s.phase.Open? {
      SizeSnoc(Content(s.files, 0), a.line);
    }
  }

  lemma FilesKept(c: Config, s: State, a: Action)
    requires FilesInv(c, s) && Enabled(c, s, a)
    ensures FilesInv(c, Apply(c, s, a))
  {
    hide PlacesInv, LargeInv, Enabled, Apply;
    PlacesKept(c, s, a);
    LargeKept(c, s, a);
  }

  lemma StepKeeps(c: Config, past: seq<Action>, s: State, a: Action)
    requires Inv(c, past, s) && Enabled(c, s, a)
    ensures Inv(c, past + [a], Apply(c, s, a))
  {
    hide Reading, Flatten, Due, Written, SinkOpen, FilesInv;
    OneMore(past, a);
    ReadingKept(c, past, s, a);
    FilesKept(c, s, a);
  }

  ghost predicate Run(c: Config, s: State, actions: seq<Action>, t: State)
    decreases |actions|
  {
    if actions == [] then s == t
    else Enabled(c, s, actions[0]) && Run(c, Apply(c, s, actions[0]), actions[1..], t)
  }

  lemma {:induction false} RunKeeps(c: Config, past: seq<Action>, s: State, actions: seq<Action>, t: State)
    requires Inv(c, past, s) && Run(c, s, actions, t)
    ensures Inv(c, past + actions, t)
    decreases |actions|
  {
    hide Inv, Enabled, Apply;
    if actions == [] {
      assert past + actions == past;
    } else {
      StepKeeps(c, past, s, actions[0]);
      RunKeeps(c, past + [actions[0]], Apply(c, s, actions[0]), actions[1..], t);
      assert past + [actions[0]] + actions[1..] == past + actions;
    }
  }

  lemma {:induction false} EmptyReads(g: nat)
    ensures Reading(map[], g) == []
  {
    if g > 0 {
      EmptyReads(g - 1);
    }
  }

  lemma Reached(c: Config, actions: seq<Action>, s: State)
    requires Run(c, Init(), actions, s)
    ensures Inv(c, actions, s)
  {
    EmptyReads(Oldest(c));
    RunKeeps(c, [], Init(), actions, s);
    assert [] + actions == actions;
  }

  // After any writes, restarts and crashes, even in the middle of a rotation, the files read from the oldest
  // generation to the active one are all that was written, but for whole generations lost from its front; and no
  // generation was lost, or rotated, before it had reached the size limit.
  lemma ReadsASuffix(c: Config, actions: seq<Action>, s: State)
    requires Run(c, Init(), actions, s)
    ensures Written(actions) == Flatten(s.lost) + Reading(s.files, Oldest(c))
    ensures forall l <- s.lost :: Size(l) >= c.maxBytes
    ensures forall g <- s.files :: g <= Oldest(c) && (g >= 1 ==> Size(s.files[g]) >= c.maxBytes)
  {
    Reached(c, actions, s);
  }

  // ---- sizes ----

  lemma SizeSnoc(lines: seq<Line>, line: Line)
    ensures Size(lines + [line]) == Size(lines) + |line|
  {
  }

  predicate Short(a: Action, longest: nat) {
    a.Write? ==> |a.line| <= longest
  }

  predicate AllShort(actions: seq<Action>, longest: nat) {
    forall a <- actions :: Short(a, longest)
  }

  // The bound after n writes since a check.
  function Bound(c: Config, n: nat, longest: nat): int {
    c.maxBytes + n * longest
  }

  lemma BoundGrows(c: Config, n: nat, longest: nat)
    ensures Bound(c, n + 1, longest) == Bound(c, n, longest) + longest
    ensures n <= c.checkEvery ==> Bound(c, n, longest) <= Bound(c, c.checkEvery, longest)
    ensures Bound(c, 0, longest) == c.maxBytes
  {
  }

  ghost predicate AllBelow(files: Files, bound: int) {
    forall g: nat :: Size(Content(files, g)) < bound
  }

  // Every file is below the bound, and the active one leaves room for the writes up to the next check.
  ghost predicate SizeInv(c: Config, longest: nat, s: State) {
    && AllBelow(s.files, Bound(c, c.checkEvery, longest))
    && (s.phase.Open? ==> s.sinceCheck < c.checkEvery)
    && (s.phase.Open? ==> Size(Content(s.files, 0)) < Bound(c, s.sinceCheck, longest))
    && (s.phase.Rotating? ==> s.sinceCheck == 0)
    && (s.phase.Rotating? && s.phase.i == 0 ==> 0 !in s.files)
  }

  lemma NoLines()
    ensures Size([]) == 0
  {
  }

  lemma SizeKept(c: Config, longest: nat, s: State, a: Action)
    requires c.Valid() && c.Rotates() && FilesInv(c, s) && SizeInv(c, longest, s) && Enabled(c, s, a) && Short(a, longest)
    ensures SizeInv(c, longest, Apply(c, s, a))
  {
    hide Size, Reading, Bound, Flatten;
    NoLines();
    BoundGrows(c, s.sinceCheck, longest);
    BoundGrows(c, s.sinceCheck + 1, longest);
    if a.Write? && s.phase.Open? {
      SizeSnoc(Content(s.files, 0), a.line);
    }
    var t := Apply(c, s, a);
    forall g: nat ensures Size(Content(t.files, g)) < Bound(c, c.checkEvery, longest) {
      assert Size(Content(s.files, g)) < Bound(c, c.checkEvery, longest);
      assert g > 0 ==> Size(Content(s.files, g - 1)) < Bound(c, c.checkEvery, longest);
    }
  }

  lemma {:induction false} SizesStay(c: Config, longest: nat, s: State, actions: seq<Action>, t: State)
    requires c.Valid() && c.Rotates() && FilesInv(c, s) && SizeInv(c, longest, s)
    requires Run(c, s, actions, t) && AllShort(actions, longest)
    ensures SizeInv(c, longest, t)
    decreases |actions|
  {
    if actions != [] {
      FilesKept(c, s, actions[0]);
      SizeKept(c, longest, s, actions[0]);
      SizesStay(c, longest, Apply(c, s, actions[0]), actions[1..], t);
    }
  }

  // In every run whose lines are at most that long, no file reaches maxBytes plus checkEvery longest lines.
  ghost predicate Bounded(c: Config, longest: nat) {
    forall actions: seq<Action>, s: State, g: nat ::
      Run(c, Init(), actions, s) && AllShort(actions, longest) ==>
        Size(Content(s.files, g)) < c.maxBytes + c.checkEvery * longest
  }

  lemma FilesStaySmall(c: Config, longest: nat)
    requires c.Valid() && c.Rotates()
    ensures Bounded(c, longest)
  {
    forall actions: seq<Action>, s: State, g: nat | Run(c, Init(), actions, s) && AllShort(actions, longest)
      ensures Size(Content(s.files, g)) < c.maxBytes + c.checkEvery * longest
    {
      SizesStay(c, longest, Init(), actions, s);
    }
  }

  lemma {:induction false} RunThen(c: Config, s: State, actions: seq<Action>, t: State, a: Action)
    requires Run(c, s, actions, t) && Enabled(c, t, a)
    ensures Run(c, s, actions + [a], Apply(c, t, a))
    decreases |actions|
  {
    hide Enabled, Apply;
    if actions == [] {
      assert [] + [a] == [a] && [a][1..] == [];
    } else {
      assert (actions + [a])[1..] == actions[1..] + [a];
      RunThen(c, Apply(c, s, actions[0]), actions[1..], t, a);
    }
  }

  // Without rotation, a check leaves the active file as it is.
  lemma CheckLeaves(c: Config, actions: seq<Action>, s: State) returns (more: seq<Action>, t: State)
    requires !c.Rotates() && Run(c, Init(), actions, s) && AllShort(actions, 1) && 0 in s.files
    requires s.phase == Open || s.phase == Rotating(0, false)
    ensures Run(c, Init(), more, t) && AllShort(more, 1) && t.phase == Open && 0 in t.files && t.files[0] == s.files[0]
  {
    hide Run;
    more, t := actions, s;
    if s.phase != Open {
      RunThen(c, Init(), actions, s, Step);
      more, t := actions + [Step], Apply(c, s, Step);
    }
  }

  // Without rotation, one-byte lines make the active file as long as one likes.
  lemma {:induction false} NoRotationNoBound(c: Config, n: nat) returns (actions: seq<Action>, s: State)
    requires c.Valid() && !c.Rotates()
    ensures Run(c, Init(), actions, s) && AllShort(actions, 1)
    ensures s.phase == Open && 0 in s.files && Size(s.files[0]) == n
  {
    hide Run;
    var before, t, a := [], Init(), Start;
    if n == 0 {
      NoActions(c);
      NoLines();
    } else {
      before, t := NoRotationNoBound(c, n - 1);
      a := Write([0]);
      SizeSnoc(t.files[0], [0]);
    }
    RunThen(c, Init(), before, t, a);
    actions, s := CheckLeaves(c, before + [a], Apply(c, t, a));
  }

  lemma NoActions(c: Config)
    ensures Run(c, Init(), [], Init())
  {
  }

  // The files stay below the bound exactly when rotation is on and at least one generation is kept.
  lemma BoundedExactlyWhenRotating(c: Config)
    requires c.Valid()
    ensures c.Rotates() <==> forall longest :: Bounded(c, longest)
  {
    if c.Rotates() {
      forall longest: nat ensures Bounded(c, longest) {
        FilesStaySmall(c, longest);
      }
    } else {
      hide Run, Size;
      var n: nat := if c.maxBytes + c.checkEvery > 0 then c.maxBytes + c.checkEvery else 0;
      var actions, s := NoRotationNoBound(c, n);
      assert Size(Content(s.files, 0)) == n;
      assert !Bounded(c, 1);
    }
  }
}
