// The write-ahead log: one JSON document a line, appended before the event row is inserted.
module Wal {
  import opened Sequences
  import opened Ndjson
  import opened TextLines

  datatype Entry = Entry(ts: int, sessionId: string, tool: string, inputHash: string, payload: Json)

  function EntryFields(e: Entry): Fields {
    Field("ts", Num(IntText(e.ts)),
    Field("sessionId", Str(e.sessionId),
    Field("tool", Str(e.tool),
    Field("inputHash", Str(e.inputHash),
    Field("payload", e.payload, NoField)))))
  }

  function Document(e: Entry): Json {
    Obj(EntryFields(e))
  }

  // A replayed document is cast to an entry unchecked, and its properties are looked up by name; None stands for
  // one the boot loop then fails on.
  function AsEntry(j: Json): Option<Entry> {
    if !j.Obj? then None
    else
      match (Property(j.fields, "ts"), Property(j.fields, "sessionId"), Property(j.fields, "tool"),
             Property(j.fields, "inputHash"), Property(j.fields, "payload"))
      case (Some(Num(ts)), Some(Str(sessionId)), Some(Str(tool)), Some(Str(inputHash)), Some(payload)) =>
        if IntValue(ts).Some? then Some(Entry(IntValue(ts).value, sessionId, tool, inputHash, payload)) else None
      case _ => None
  }

  lemma DocumentIsEntry(e: Entry)
    ensures AsEntry(Document(e)) == Some(e)
  {
    hide IntText, IntValue, Property;
    IntRoundTrip(e.ts);
    PropertyStep();
    NoProperties();
  }

  lemma NoProperties()
    ensures forall key :: Property(NoField, key) == None
  {
  }

  lemma NumText(text: Numeral)
    ensures Write(Num(text)) == text
  {
  }

  lemma KeysArePlain()
    ensures Plain("ts") && Plain("sessionId") && Plain("tool") && Plain("inputHash") && Plain("payload")
  {
  }

  // The text of an entry's document.
  lemma EntryText(e: Entry)
    ensures Write(Document(e)) ==
      "{" + ("\"" + "ts" + "\":" + IntText(e.ts) + "," +
      ("\"" + "sessionId" + "\":" + Write(Str(e.sessionId)) + "," +
      ("\"" + "tool" + "\":" + Write(Str(e.tool)) + "," +
      ("\"" + "inputHash" + "\":" + Write(Str(e.inputHash)) + "," +
      ("\"" + "payload" + "\":" + Write(e.payload) + "}")))))
  {
    NumText(IntText(e.ts));
    hide WriteFields, IntText, Write, Plain;
    KeysArePlain();
    ObjText(EntryFields(e));
    var payload := Field("payload", e.payload, NoField);
    var hash := Field("inputHash", Str(e.inputHash), payload);
    var tool := Field("tool", Str(e.tool), hash);
    var session := Field("sessionId", Str(e.sessionId), tool);
    FieldText("payload", e.payload, NoField);
    FieldText("inputHash", Str(e.inputHash), payload);
    FieldText("tool", Str(e.tool), hash);
    FieldText("sessionId", Str(e.sessionId), tool);
    FieldText("ts", Num(IntText(e.ts)), session);
  }

  function Line(e: Entry): string {
    Write(Document(e)) + [NEWLINE]
  }

  function Lines(es: seq<Entry>): string {
    if es == [] then "" else Line(es[0]) + Lines(es[1..])
  }

  lemma {:induction false} LinesAppend(es: seq<Entry>, e: Entry)
    ensures Lines(es + [e]) == Lines(es) + Line(e)
  {
    if es == [] {
      assert ([] + [e])[1..] == [];
    } else {
      assert (es + [e])[1..] == es[1..] + [e];
      LinesAppend(es[1..], e);
    }
  }

  function Documents(es: seq<Entry>): (docs: seq<Json>)
    ensures |docs| == |es| && forall i :: 0 <= i < |es| ==> docs[i] == Document(es[i])
  {
    if es == [] then [] else [Document(es[0])] + Documents(es[1..])
  }

  // Blank lines and lines that do not parse are passed over.
  function ReplayLines(lines: seq<string>): seq<Json> {
    if lines == [] then []
    else if Blank(lines[0]) || Parse(lines[0]).None? then ReplayLines(lines[1..])
    else [Parse(lines[0]).value] + ReplayLines(lines[1..])
  }

  function Replay(text: string): seq<Json> {
    ReplayLines(Split(text))
  }

  lemma {:induction false} ReplayLinesAppend(lines: seq<string>, line: string)
    ensures ReplayLines(lines + [line]) ==
      ReplayLines(lines) + if Blank(line) || Parse(line).None? then [] else [Parse(line).value]
  {
    if lines == [] {
      assert ([] + [line])[1..] == [];
    } else {
      assert (lines + [line])[1..] == lines[1..] + [line];
      ReplayLinesAppend(lines[1..], line);
    }
  }

  // The first k characters of a line whose append a crash cut short.
  datatype Torn = Whole | Cut(entry: Entry, k: nat)

  predicate ValidTorn(t: Torn) {
    t.Cut? ==> t.k < |Line(t.entry)|
  }

  function TornText(t: Torn): string
    requires ValidTorn(t)
  {
    if t.Whole? then "" else Line(t.entry)[..t.k]
  }

  // Cut exactly before the newline, the entry is still readable.
  predicate Readable(t: Torn) {
    t.Cut? && t.k == |Line(t.entry)| - 1
  }

  // The entries a log of complete lines and a torn last one gives back.
  function Surviving(es: seq<Entry>, t: Torn): seq<Entry> {
    if Readable(t) then es + [t.entry] else es
  }

  lemma ReplaySingle(text: string)
    requires NEWLINE !in text
    ensures Replay(text) == if Blank(text) || Parse(text).None? then [] else [Parse(text).value]
  {
    SplitLast(text);
    assert [text][1..] == [];
    assert ReplayLines([]) == [];
  }

  lemma ReplayCut(e: Entry, k: nat)
    requires k < |Line(e)|
    ensures Replay(Line(e)[..k]) == if k == |Line(e)| - 1 then [Document(e)] else []
  {
    hide Write, Split, Parse, Line, Replay, EntryFields, Blank;
    var fields, text := EntryFields(e), Line(e)[..k];
    LineBefore(e, k);
    OneLine(Obj(fields));
    assert text == Write(Obj(fields))[..k];
    ReplaySingle(text);
    if k == |Line(e)| - 1 {
      ParseWrite(Obj(fields));
      ObjectNotBlank(fields);
    } else {
      TornObject(fields, k);
    }
  }

  lemma ReplayTorn(t: Torn)
    requires ValidTorn(t)
    ensures Replay(TornText(t)) == Documents(Surviving([], t))
  {
    hide Line, Replay, Document, Parse;
    if t.Cut? {
      ReplayCut(t.entry, t.k);
      if Readable(t) {
        assert Surviving([], t) == [t.entry];
        assert Documents([t.entry]) == [Document(t.entry)];
      }
    } else {
      ReplaySingle("");
    }
  }

  lemma LineBefore(e: Entry, k: nat)
    requires k < |Line(e)|
    ensures k <= |Write(Document(e))| && Line(e)[..k] == Write(Document(e))[..k]
    ensures |Line(e)| == |Write(Document(e))| + 1
    ensures Write(Document(e))[..|Write(Document(e))|] == Write(Document(e))
  {
    hide Write, Document;
  }

  lemma ReplayFirst(e: Entry, rest: string)
    ensures Replay(Line(e) + rest) == [Document(e)] + Replay(rest)
  {
    hide Write, Split, Parse;
    var text := Write(Document(e));
    assert Line(e) + rest == text + [NEWLINE] + rest;
    OneLine(Document(e));
    SplitLine(text, rest);
    ParseWrite(Document(e));
    ObjectNotBlank(EntryFields(e));
    assert ([text] + Split(rest))[1..] == Split(rest);
  }

  lemma SurvivingFirst(es: seq<Entry>, t: Torn)
    requires es != []
    ensures Documents(Surviving(es, t)) == [Document(es[0])] + Documents(Surviving(es[1..], t))
  {
  }

  // A torn last line never costs a complete earlier entry: replaying gives back every complete line in
  // order, and after them at most the torn one.
  lemma {:induction false} ReplayGivesBack(es: seq<Entry>, t: Torn)
    requires ValidTorn(t)
    ensures Replay(Lines(es) + TornText(t)) == Documents(Surviving(es, t))
  {
    hide Line, Document, Replay, TornText, Documents, Surviving;
    if es == [] {
      assert "" + TornText(t) == TornText(t);
      ReplayTorn(t);
    } else {
      var rest := Lines(es[1..]) + TornText(t);
      assert Lines(es) + TornText(t) == Line(es[0]) + rest;
      ReplayFirst(es[0], rest);
      SurvivingFirst(es, t);
      ReplayGivesBack(es[1..], t);
    }
  }

  // The log file and the descriptor open on it; a file that does not exist reads as an empty one.
  class WAL {
    var text: string
    var open: bool

    constructor (text: string)
      ensures this.text == text && !open
    {
      this.text, open := text, false;
    }

    method Open()
      modifies this
      ensures open && text == old(text)
    {
      if open {
        return;
      }
      open := true;
    }

    method Append(e: Entry)
      modifies this
      ensures open && text == old(text) + Line(e)
    {
      if !open {
        Open();
      }
      text := text + (Write(Document(e)) + [NEWLINE]);
    }

    method Close()
      modifies this
      ensures !open && text == old(text)
    {
      open := false;
    }

    method ReplayAll() returns (docs: seq<Json>)
      ensures docs == Replay(text)
    {
      hide Split, Parse, Blank;
      docs := [];
      var lines := Split(text);
      for i := 0 to |lines|
        invariant docs == ReplayLines(lines[..i])
      {
        assert lines[..i + 1] == lines[..i] + [lines[i]];
        ReplayLinesAppend(lines[..i], lines[i]);
        if Blank(lines[i]) {
          continue;
        }
        match Parse(lines[i]) {
          case Some(doc) => docs := docs + [doc];
          case None =>
        }
      }
      assert lines[..|lines|] == lines;
    }

    method Truncate()
      modifies this
      ensures text == "" && open == old(open)
    {
      text := "";
    }
  }
}
