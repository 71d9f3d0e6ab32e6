// The rotating log file. Generation 0 is the active file, generation i the file with suffix .i; a file is
// the lines written to it, each a sequence of bytes.
module LogRotation {
  import opened Sequences

  type Line = seq<byte>

  type Files = map<nat, seq<Line>>

  // checkEvery is at least 1, as the constructor makes it.
  datatype Config = Config(maxBytes: int, keep: int, checkEvery: nat) {
    predicate Valid() {
      checkEvery >= 1
    }

    // The options under which old generations are dropped at all.
    predicate Rotates() {
      maxBytes > 0 && keep >= 1
    }
  }

  function Size(lines: seq<Line>): nat {
    if lines == [] then 0 else Size(lines[..|lines| - 1]) + |lines[|lines| - 1]|
  }

  // A file that does not exist has no lines.
  function Content(files: Files, g: nat): seq<Line> {
    if g in files then files[g] else []
  }

  // What is read from generation g down to the active file.
  function Reading(files: Files, g: nat): seq<Line> {
    Content(files, g) + if g == 0 then [] else Reading(files, g - 1)
  }

  // ---- rotating ----

  function Unlink(files: Files, g: nat): Files {
    files - {g}
  }

  function Rename(files: Files, source: nat, target: nat): Files {
    if source in files then (files - {source})[target := files[source]] else files
  }

  // The body of the rotation loop for generation i.
  function Shift(c: Config, files: Files, i: nat): Files
    requires i >= 1
  {
    Rename(if i == c.keep then Unlink(files, i) else files, i - 1, i)
  }

  // The loop, from generation i down to 1.
  function ShiftAll(c: Config, files: Files, i: nat): Files
    decreases i
  {
    if i == 0 then files else ShiftAll(c, Shift(c, files, i), i - 1)
  }

  function OpenAppend(files: Files): Files {
    files[0 := Content(files, 0)]
  }

  predicate Due(c: Config, files: Files) {
    c.maxBytes > 0 && Size(Content(files, 0)) >= c.maxBytes
  }

  function Checked(c: Config, files: Files): Files {
    if Due(c, files) then OpenAppend(if c.keep >= 1 then ShiftAll(c, files, c.keep) else files) else files
  }

  // The loop moves every generation up by one and leaves no active file; the oldest kept one is gone.
  lemma {:induction false} ShiftMovesUp(c: Config, files: Files, i: nat)
    requires i <= c.keep && (0 < i < c.keep ==> i !in files)
    ensures var after := ShiftAll(c, files, i);
      && (forall k: nat :: 1 <= k <= i ==> (k in after <==> k - 1 in files) && (k in after ==> after[k] == files[k - 1]))
      && (forall k: nat :: k > i ==> (k in after <==> k in files) && (k in after ==> after[k] == files[k]))
      && (i > 0 ==> 0 !in after)
    decreases i
  {
    if i > 0 {
      ShiftMovesOne(c, files, i);
      ShiftMovesUp(c, Shift(c, files, i), i - 1);
    }
  }

  lemma ShiftMovesOne(c: Config, files: Files, i: nat)
    requires 1 <= i <= c.keep && (i < c.keep ==> i !in files)
    ensures var after := Shift(c, files, i);
      && i - 1 !in after
      && (i in after <==> i - 1 in files) && (i in after ==> after[i] == files[i - 1])
      && (forall k: nat :: k != i && k != i - 1 ==> (k in after <==> k in files) && (k in after ==> after[k] == files[k]))
  {
  }

  class Disk {
    var files: Files

    constructor ()
      ensures files == map[]
    {
      files := map[];
    }
  }

  class FileSink {
    const c: Config
    const disk: Disk
    var open: bool
    var writesSinceCheck: nat

    constructor (disk: Disk, c: Config)
      requires c.Valid()
      modifies disk
      ensures this.disk == disk && this.c == c && open && writesSinceCheck == 0
      ensures disk.files == Checked(c, OpenAppend(old(disk.files)))
    {
      this.disk, this.c, open, writesSinceCheck := disk, c, true, 0;
      new;
      disk.files := OpenAppend(disk.files);
      MaybeRotate();
    }

    method Write(line: Line)
      requires c.Valid() && (open ==> 0 in disk.files)
      modifies this, disk
      ensures open == old(open)
      ensures !open ==> disk.files == old(disk.files) && writesSinceCheck == old(writesSinceCheck)
      ensures open ==>
        var after := old(disk.files)[0 := old(disk.files)[0] + [line]];
        if old(writesSinceCheck) + 1 >= c.checkEvery
        then writesSinceCheck == 0 && disk.files == Checked(c, after)
        else writesSinceCheck == old(writesSinceCheck) + 1 && disk.files == after
    {
      if !open {
        return;
      }
      disk.files := disk.files[0 := disk.files[0] + [line]];
      writesSinceCheck := writesSinceCheck + 1;
      if writesSinceCheck >= c.checkEvery {
        writesSinceCheck := 0;
        MaybeRotate();
      }
    }

    method Close()
      modifies this`open
      ensures !open
    {
      open := false;
    }

    method MaybeRotate()
      requires open && 0 in disk.files
      modifies this`open, disk
      ensures open && disk.files == Checked(c, old(disk.files))
      ensures c.maxBytes <= 0 || Size(old(disk.files)[0]) < c.maxBytes || c.keep < 1 ==> disk.files == old(disk.files)
      ensures c.maxBytes > 0 && Size(old(disk.files)[0]) >= c.maxBytes && c.keep >= 1 ==>
        && 0 in disk.files && disk.files[0] == []
        && (forall k: nat :: 1 <= k <= c.keep ==>
              (k in disk.files <==> k - 1 in old(disk.files)) && (k in disk.files ==> disk.files[k] == old(disk.files)[k - 1]))
        && (forall k: nat :: k > c.keep ==>
              (k in disk.files <==> k in old(disk.files)) && (k in disk.files ==> disk.files[k] == old(disk.files)[k]))
    {
      if c.keep >= 1 {
        ShiftMovesUp(c, disk.files, c.keep);
      }
      if c.maxBytes <= 0 || !open {
        return;
      }
      if Size(disk.files[0]) < c.maxBytes {
        return;
      }
      open := false;
      var i := c.keep;
      while i >= 1
        invariant i >= 0 || i == c.keep
        invariant (if i >= 1 then ShiftAll(c, disk.files, i) else disk.files) ==
          if c.keep >= 1 then ShiftAll(c, old(disk.files), c.keep) else old(disk.files)
      {
        if i == c.keep {
          disk.files := Unlink(disk.files, i);
        }
        disk.files := Rename(disk.files, i - 1, i);
        i := i - 1;
      }
      disk.files := OpenAppend(disk.files);
      open := true;
    }
  }
}
