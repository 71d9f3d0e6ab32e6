// JSON text as JSON.stringify writes it without indentation (RFC 8259), one document a line, and the
// reader that takes it back. A number is kept as its numeral; the reader accepts no insignificant whitespace.
module Ndjson {
  import opened Sequences
  import opened TextLines

  datatype Json =
    | Null
    | True
    | False
    | Num(text: Numeral)
    | Str(s: string)
    | Arr(items: Items)
    | Obj(fields: Fields)

  datatype Items = NoItem | Item(head: Json, tail: Items)

  datatype Fields = NoField | Field(key: string, value: Json, others: Fields)

  predicate IsDigit(c: char) {
    '0' <= c <= '9'
  }

  predicate InNumeral(c: char) {
    IsDigit(c) || c == '+' || c == '-' || c == '.' || c == 'e' || c == 'E'
  }

  predicate StartsNumeral(s: string) {
    s != "" && (IsDigit(s[0]) || s[0] == '-')
  }

  type Numeral = s: string | StartsNumeral(s) && forall c <- s :: InNumeral(c) witness "0"

  const QUOTE: char := '\"'
  const BACKSLASH: char := '\\'

  // ---- writing ----

  function HexDigit(d: nat): char
    requires d < 16
  {
    if d < 10 then (48 + d) as char else (87 + d) as char
  }

  // The letter after the backslash, for the characters that have one.
  function ShortEscape(c: char): Option<char> {
    if c == QUOTE || c == BACKSLASH then Some(c)
    else if c as int == 8 then Some('b')
    else if c as int == 9 then Some('t')
    else if c as int == 10 then Some('n')
    else if c as int == 12 then Some('f')
    else if c as int == 13 then Some('r')
    else None
  }

  function EscapeChar(c: char): string {
    if ShortEscape(c).Some? then [BACKSLASH, ShortEscape(c).value]
    else if c as int < 32 then [BACKSLASH, 'u', '0', '0', HexDigit(c as int / 16), HexDigit(c as int % 16)]
    else [c]
  }

  // The characters of a string and its closing quote.
  function WriteChars(s: string): string {
    if s == "" then [QUOTE] else EscapeChar(s[0]) + WriteChars(s[1..])
  }

  function Write(j: Json): string {
    match j
    case Null => "null"
    case True => "true"
    case False => "false"
    case Num(text) => text
    case Str(s) => [QUOTE] + WriteChars(s)
    case Arr(items) => "[" + WriteItems(items)
    case Obj(fields) => "{" + WriteFields(fields)
  }

  function WriteItems(items: Items): string {
    match items
    case NoItem => "]"
    case Item(j, NoItem) => Write(j) + "]"
    case Item(j, more) => Write(j) + "," + WriteItems(more)
  }

  function WriteFields(fields: Fields): string {
    match fields
    case NoField => "}"
    case Field(k, v, NoField) => WriteKey(k) + Write(v) + "}"
    case Field(k, v, more) => WriteKey(k) + Write(v) + "," + WriteFields(more)
  }

  function WriteKey(key: string): string {
    [QUOTE] + WriteChars(key) + ":"
  }

  ghost predicate Plain(s: string) {
    forall i :: 0 <= i < |s| ==> s[i] as int >= 32 && s[i] != QUOTE && s[i] != BACKSLASH
  }

  // Text without quotes, backslashes and control characters is written as it is.
  lemma {:induction false} PlainText(s: string)
    requires Plain(s)
    ensures [QUOTE] + WriteChars(s) == "\"" + s + "\""
  {
    if s != "" {
      PlainText(s[1..]);
      assert [QUOTE] + WriteChars(s[1..]) == [QUOTE] + (s[1..] + [QUOTE]);
      assert WriteChars(s[1..]) == ([QUOTE] + WriteChars(s[1..]))[1..];
      assert WriteChars(s) == [s[0]] + (s[1..] + [QUOTE]) == s + [QUOTE];
    } else {
      assert "\"" + "" + "\"" == [QUOTE] + [QUOTE];
    }
  }

  lemma KeyText(key: string)
    requires Plain(key)
    ensures WriteKey(key) == "\"" + key + "\":"
  {
    hide WriteChars;
    PlainText(key);
  }

  lemma FieldText(key: string, value: Json, others: Fields)
    requires Plain(key)
    ensures WriteFields(Field(key, value, others)) ==
      if others.NoField? then "\"" + key + "\":" + Write(value) + "}"
      else "\"" + key + "\":" + Write(value) + "," + WriteFields(others)
  {
    hide WriteKey;
    KeyText(key);
  }

  lemma ObjText(fields: Fields)
    ensures Write(Obj(fields)) == "{" + WriteFields(fields)
  {
  }

  // ---- reading ----

  datatype Read<+T> = Fail | Got(value: T, rest: string)

  function HexValue(c: char): Option<nat> {
    if '0' <= c <= '9' then Some(c as int - 48)
    else if 'a' <= c <= 'f' then Some(c as int - 87)
    else if 'A' <= c <= 'F' then Some(c as int - 55)
    else None
  }

  function ShortMeaning(letter: char): Option<char> {
    if letter == QUOTE || letter == BACKSLASH || letter == '/' then Some(letter)
    else if letter == 'b' then Some(8 as char)
    else if letter == 't' then Some(9 as char)
    else if letter == 'n' then Some(10 as char)
    else if letter == 'f' then Some(12 as char)
    else if letter == 'r' then Some(13 as char)
    else None
  }

  // Four hexadecimal digits; surrogates are not part of this model.
  function ReadHex(s: string): Read<char> {
    if |s| < 4 then Fail
    else
      var a, b, c, d := HexValue(s[0]), HexValue(s[1]), HexValue(s[2]), HexValue(s[3]);
      if a.None? || b.None? || c.None? || d.None? then Fail
      else
        var n := a.value * 4096 + b.value * 256 + c.value * 16 + d.value;
        if n < 0xD800 || 0xE000 <= n < 0x1_0000 then Got(n as char, s[4..]) else Fail
  }

  function ReadChar(s: string): (r: Read<char>)
    requires s != ""
    ensures r.Got? ==> |r.rest| < |s|
  {
    if s[0] as int < 32 then Fail
    else if s[0] != BACKSLASH then Got(s[0], s[1..])
    else if |s| < 2 then Fail
    else if ShortMeaning(s[1]).Some? then Got(ShortMeaning(s[1]).value, s[2..])
    else if s[1] == 'u' then ReadHex(s[2..])
    else Fail
  }

  // A string's characters up to and over its closing quote.
  function ReadChars(s: string): (r: Read<string>)
    ensures r.Got? ==> |r.rest| < |s|
    decreases |s|
  {
    if s == "" then Fail
    else if s[0] == QUOTE then Got("", s[1..])
    else
      match ReadChar(s)
      case Fail => Fail
      case Got(c, more) =>
        match ReadChars(more)
        case Fail => Fail
        case Got(cs, rest) => Got([c] + cs, rest)
  }

  // The characters of a numeral, as many as there are.
  function ReadRun(s: string): (r: Read<string>)
    ensures r.Got? && r.value + r.rest == s
    ensures (forall c <- r.value :: InNumeral(c)) && (r.rest != "" ==> !InNumeral(r.rest[0]))
    decreases |s|
  {
    if s != "" && InNumeral(s[0]) then
      var r := ReadRun(s[1..]);
      Got([s[0]] + r.value, r.rest)
    else Got("", s)
  }

  function ReadNum(s: string): (r: Read<Json>)
    ensures r.Got? ==> |r.rest| < |s| && r.value.Num?
  {
    if StartsNumeral(s) then
      var r := ReadRun(s);
      assert r.value != "" && r.value[0] == s[0];
      Got(Num(r.value), r.rest)
    else Fail
  }

  function ReadWord(s: string, word: string, j: Json): Read<Json> {
    if word <= s then Got(j, s[|word|..]) else Fail
  }

  function ReadJson(s: string): (r: Read<Json>)
    ensures r.Got? ==> |r.rest| < |s|
    decreases |s|, 1
  {
    if s == "" then Fail
    else if s[0] == QUOTE then
      match ReadChars(s[1..])
      case Fail => Fail
      case Got(cs, rest) => Got(Str(cs), rest)
    else if s[0] == '[' then
      match ReadItems(s[1..], true)
      case Fail => Fail
      case Got(items, rest) => Got(Arr(items), rest)
    else if s[0] == '{' then
      match ReadFields(s[1..], true)
      case Fail => Fail
      case Got(fields, rest) => Got(Obj(fields), rest)
    else if s[0] == 'n' then ReadWord(s, "null", Null)
    else if s[0] == 't' then ReadWord(s, "true", True)
    else if s[0] == 'f' then ReadWord(s, "false", False)
    else ReadNum(s)
  }

  // The items and closing bracket; only a list that has just been opened may close at once.
  function ReadItems(s: string, first: bool): (r: Read<Items>)
    ensures r.Got? ==> |r.rest| < |s|
    decreases |s|, 2
  {
    if first && s != "" && s[0] == ']' then Got(NoItem, s[1..])
    else
      match ReadJson(s)
      case Fail => Fail
      case Got(j, more) =>
        if more == "" then Fail
        else if more[0] == ']' then Got(Item(j, NoItem), more[1..])
        else if more[0] != ',' then Fail
        else
          match ReadItems(more[1..], false)
          case Fail => Fail
          case Got(items, rest) => Got(Item(j, items), rest)
  }

  function ReadKey(s: string): (r: Read<string>)
    ensures r.Got? ==> |r.rest| < |s|
  {
    if s == "" || s[0] != QUOTE then Fail
    else
      match ReadChars(s[1..])
      case Fail => Fail
      case Got(key, rest) => if rest != "" && rest[0] == ':' then Got(key, rest[1..]) else Fail
  }

  function ReadFields(s: string, first: bool): (r: Read<Fields>)
    ensures r.Got? ==> |r.rest| < |s|
    decreases |s|, 2
  {
    if first && s != "" && s[0] == '}' then Got(NoField, s[1..])
    else
      match ReadKey(s)
      case Fail => Fail
      case Got(key, text) =>
        match ReadJson(text)
        case Fail => Fail
        case Got(j, more) =>
          if more == "" then Fail
          else if more[0] == '}' then Got(Field(key, j, NoField), more[1..])
          else if more[0] != ',' then Fail
          else
            match ReadFields(more[1..], false)
            case Fail => Fail
            case Got(fields, rest) => Got(Field(key, j, fields), rest)
  }

  function Parse(line: string): Option<Json> {
    match ReadJson(line)
    case Got(j, "") => Some(j)
    case _ => None
  }

  // ---- reading back what was written ----

  lemma EscapeReads(c: char, rest: string)
    ensures var s := EscapeChar(c) + rest; s[0] != QUOTE && ReadChar(s) == Got(c, rest)
  {
  }

  // A hexadecimal digit in either case, and nothing else.
  lemma HexDigits(c: char)
    ensures HexValue(c).Some? <==> '0' <= c <= '9' || 'a' <= c <= 'f' || 'A' <= c <= 'F'
    ensures HexValue(c).Some? ==> HexValue(c).value < 16
    ensures '0' <= c <= '9' || 'a' <= c <= 'f' ==> HexDigit(HexValue(c).value) == c
    ensures 'A' <= c <= 'F' ==> HexDigit(HexValue(c).value) as int == c as int + 32
  {
  }

  // Every character but a surrogate is read from its four digits.
  lemma UnicodeEscapeReads(n: nat, rest: string)
    requires n < 0xD800 || 0xE000 <= n < 0x1_0000
    ensures ReadChar([BACKSLASH, 'u', HexDigit(n / 16 / 16 / 16), HexDigit(n / 16 / 16 % 16), HexDigit(n / 16 % 16), HexDigit(n % 16)] + rest)
      == Got(n as char, rest)
  {
    var a, b, c, d := n / 16 / 16 / 16, n / 16 / 16 % 16, n / 16 % 16, n % 16;
    var s := [HexDigit(a), HexDigit(b), HexDigit(c), HexDigit(d)] + rest;
    HexBack(a);
    HexBack(b);
    HexBack(c);
    HexBack(d);
    assert ([BACKSLASH, 'u', HexDigit(a), HexDigit(b), HexDigit(c), HexDigit(d)] + rest)[2..] == s;
    assert s[4..] == rest;
  }

  lemma HexBack(d: nat)
    requires d < 16
    ensures HexValue(HexDigit(d)) == Some(d)
  {
  }

  lemma {:induction false} CharsRead(s: string, rest: string)
    ensures ReadChars(WriteChars(s) + rest) == Got(s, rest)
    decreases |s|
  {
    if s == "" {
      assert ([QUOTE] + rest)[1..] == rest;
    } else {
      var more := WriteChars(s[1..]) + rest;
      assert WriteChars(s) + rest == EscapeChar(s[0]) + more;
      EscapeReads(s[0], more);
      CharsRead(s[1..], rest);
      assert [s[0]] + s[1..] == s;
    }
  }

  lemma {:induction false} RunReads(text: string, rest: string)
    requires (forall c <- text :: InNumeral(c)) && (rest != "" ==> !InNumeral(rest[0]))
    ensures ReadRun(text + rest) == Got(text, rest)
    decreases |text|
  {
    if text == "" {
      assert "" + rest == rest;
    } else {
      assert (text + rest)[1..] == text[1..] + rest;
      RunReads(text[1..], rest);
      assert [text[0]] + text[1..] == text;
    }
  }

  lemma NumReads(text: Numeral, rest: string)
    requires rest != "" ==> !InNumeral(rest[0])
    ensures ReadJson(Write(Num(text)) + rest) == Got(Num(text), rest)
  {
    hide ReadChars, ReadItems, ReadFields, ReadWord;
    RunReads(text, rest);
  }

  lemma WordReads(j: Json, rest: string)
    requires j.Null? || j.True? || j.False?
    ensures ReadJson(Write(j) + rest) == Got(j, rest)
  {
  }

  lemma StrReads(cs: string, rest: string)
    ensures ReadJson(Write(Str(cs)) + rest) == Got(Str(cs), rest)
  {
    hide ReadItems, ReadFields, ReadNum, ReadChars, WriteChars;
    CharsRead(cs, rest);
    assert (Write(Str(cs)) + rest)[1..] == WriteChars(cs) + rest;
  }

  lemma {:induction false} WriteReads(j: Json, rest: string)
    requires j.Num? && rest != "" ==> !InNumeral(rest[0])
    ensures ReadJson(Write(j) + rest) == Got(j, rest)
    decreases j, 0
  {
    hide ReadNum, ReadItems, ReadFields, WriteItems, WriteFields;
    match j
    case Num(text) => NumReads(text, rest);
    case Str(cs) => StrReads(cs, rest);
    case Arr(items) =>
      ItemsRead(items, true, rest);
      assert (Write(j) + rest)[1..] == WriteItems(items) + rest;
    case Obj(fields) =>
      FieldsRead(fields, true, rest);
      assert (Write(j) + rest)[1..] == WriteFields(fields) + rest;
    case _ => WordReads(j, rest);
  }

  lemma {:induction false} ItemsRead(items: Items, first: bool, rest: string)
    requires first || items.Item?
    ensures ReadItems(WriteItems(items) + rest, first) == Got(items, rest)
    decreases items, 1
  {
    var s := WriteItems(items) + rest;
    match items
    case NoItem => assert s[1..] == rest;
    case Item(j, tail) =>
      var more := if tail.NoItem? then "]" + rest else "," + (WriteItems(tail) + rest);
      assert s == Write(j) + more;
      WriteReads(j, more);
      WriteStarts(j, more);
      if tail.NoItem? {
        assert more[1..] == rest;
      } else {
        assert more[1..] == WriteItems(tail) + rest;
        ItemsRead(tail, false, rest);
      }
  }

  // What the reader makes of a key, a value and what stands after them.
  lemma FieldStep(s: string, first: bool, key: string, text: string, j: Json, more: string)
    requires ReadKey(s) == Got(key, text) && ReadJson(text) == Got(j, more) && more != ""
    ensures more[0] == '}' ==> ReadFields(s, first) == Got(Field(key, j, NoField), more[1..])
    ensures more[0] == ',' && ReadFields(more[1..], false).Got? ==>
      var r := ReadFields(more[1..], false); ReadFields(s, first) == Got(Field(key, j, r.value), r.rest)
  {
    hide ReadJson, ReadChars;
  }

  lemma {:induction false} FieldsRead(fields: Fields, first: bool, rest: string)
    requires first || fields.Field?
    ensures ReadFields(WriteFields(fields) + rest, first) == Got(fields, rest)
    decreases fields, 1
  {
    match fields
    case NoField => assert ("}" + rest)[1..] == rest;
    case Field(k, j, tail) =>
      hide ReadFields, ReadJson, ReadKey, Write, WriteFields, WriteKey;
      var more := AfterField(tail, rest);
      var text := Write(j) + more;
      FieldWritten(k, j, tail, rest);
      KeyReads(k, text);
      WriteReads(j, more);
      if tail.Field? {
        FieldsRead(tail, false, rest);
      }
      FieldStep(WriteKey(k) + text, first, k, text, j, more);
  }

  // What follows a field's value.
  function AfterField(tail: Fields, rest: string): (more: string)
    ensures more != "" && more[0] == if tail.NoField? then '}' else ','
    ensures more[1..] == if tail.NoField? then rest else WriteFields(tail) + rest
  {
    if tail.NoField? then "}" + rest else "," + (WriteFields(tail) + rest)
  }

  lemma FieldWritten(k: string, j: Json, tail: Fields, rest: string)
    ensures WriteFields(Field(k, j, tail)) + rest == WriteKey(k) + (Write(j) + AfterField(tail, rest))
  {
    hide Write, WriteKey;
  }

  lemma KeyReads(key: string, text: string)
    ensures ReadKey(WriteKey(key) + text) == Got(key, text)
  {
    hide ReadChars, WriteChars;
    var s := WriteKey(key) + text;
    assert s[1..] == WriteChars(key) + (":" + text);
    CharsRead(key, ":" + text);
    assert (":" + text)[1..] == text;
  }

  lemma WriteStarts(j: Json, rest: string)
    ensures var s := Write(j) + rest; s != "" && s[0] != ']'
  {
  }

  // Parsing undoes writing.
  lemma ParseWrite(j: Json)
    ensures Parse(Write(j)) == Some(j)
  {
    assert Write(j) + "" == Write(j);
    WriteReads(j, "");
  }

  // ---- a torn document does not parse ----

  lemma CharExtends(p: string, q: string)
    requires p != "" && ReadChar(p).Got?
    ensures ReadChar(p + q) == Got(ReadChar(p).value, ReadChar(p).rest + q)
  {
    assert (p + q)[1..] == p[1..] + q;
    if |p| >= 2 {
      assert (p + q)[2..] == p[2..] + q;
      if |p| >= 6 {
        assert (p + q)[2..][4..] == p[2..][4..] + q;
      }
    }
  }

  lemma {:induction false} CharsExtend(p: string, q: string)
    requires ReadChars(p).Got?
    ensures ReadChars(p + q) == Got(ReadChars(p).value, ReadChars(p).rest + q)
    decreases |p|
  {
    if p[0] == QUOTE {
      assert (p + q)[1..] == p[1..] + q;
    } else {
      CharExtends(p, q);
      CharsExtend(ReadChar(p).rest, q);
    }
  }

  lemma {:induction false} RunExtends(p: string, q: string)
    requires ReadRun(p).rest != ""
    ensures ReadRun(p + q) == Got(ReadRun(p).value, ReadRun(p).rest + q)
    decreases |p|
  {
    if InNumeral(p[0]) {
      assert (p + q)[1..] == p[1..] + q;
      RunExtends(p[1..], q);
    }
  }

  lemma NumExtends(p: string, q: string)
    requires ReadNum(p).Got? && ReadNum(p).rest != ""
    ensures ReadNum(p + q) == Got(ReadNum(p).value, ReadNum(p).rest + q)
  {
    RunExtends(p, q);
  }

  lemma WordExtends(p: string, q: string, word: string, j: Json)
    requires ReadWord(p, word, j).Got?
    ensures ReadWord(p + q, word, j) == Got(j, ReadWord(p, word, j).rest + q)
  {
  }

  lemma KeyExtends(p: string, q: string)
    requires ReadKey(p).Got?
    ensures ReadKey(p + q) == Got(ReadKey(p).value, ReadKey(p).rest + q)
  {
    hide ReadChars;
    assert (p + q)[1..] == p[1..] + q;
    CharsExtend(p[1..], q);
    var rest := ReadChars(p[1..]).rest;
    assert (rest + q)[1..] == rest[1..] + q;
  }

  // Text after a finished value is left alone; only a number can run on into it.
  lemma {:induction false} JsonExtends(p: string, q: string)
    requires ReadJson(p).Got? && (ReadJson(p).rest != "" || !ReadJson(p).value.Num?)
    ensures ReadJson(p + q) == Got(ReadJson(p).value, ReadJson(p).rest + q)
    decreases |p|, 1
  {
    hide ReadChars, ReadItems, ReadFields, ReadNum;
    assert (p + q)[1..] == p[1..] + q;
    if p[0] == QUOTE {
      CharsExtend(p[1..], q);
    } else if p[0] == '[' {
      ItemsExtend(p[1..], q, true);
    } else if p[0] == '{' {
      FieldsExtend(p[1..], q, true);
    } else if p[0] == 'n' {
      WordExtends(p, q, "null", Null);
    } else if p[0] == 't' {
      WordExtends(p, q, "true", True);
    } else if p[0] == 'f' {
      WordExtends(p, q, "false", False);
    } else {
      NumExtends(p, q);
    }
  }

  lemma {:induction false} ItemsExtend(p: string, q: string, first: bool)
    requires ReadItems(p, first).Got?
    ensures ReadItems(p + q, first) == Got(ReadItems(p, first).value, ReadItems(p, first).rest + q)
    decreases |p|, 2
  {
    hide ReadJson;
    if p == "" || !(first && p[0] == ']') {
      var more := ReadJson(p).rest;
      JsonExtends(p, q);
      assert (more + q)[1..] == more[1..] + q;
      JsonStarts(p);
      if more[0] == ',' {
        ItemsExtend(more[1..], q, false);
      }
    } else {
      assert (p + q)[1..] == p[1..] + q;
    }
  }

  lemma JsonStarts(p: string)
    requires ReadJson(p).Got?
    ensures p != "" && p[0] != ']'
  {
  }

  lemma {:induction false} FieldsExtend(p: string, q: string, first: bool)
    requires ReadFields(p, first).Got?
    ensures ReadFields(p + q, first) == Got(ReadFields(p, first).value, ReadFields(p, first).rest + q)
    decreases |p|, 2
  {
    hide ReadJson, ReadKey;
    if p == "" || !(first && p[0] == '}') {
      KeyStarts(p);
      KeyExtends(p, q);
      var text := ReadKey(p).rest;
      var more := ReadJson(text).rest;
      JsonExtends(text, q);
      assert (more + q)[1..] == more[1..] + q;
      if more[0] == ',' {
        FieldsExtend(more[1..], q, false);
      }
    } else {
      assert (p + q)[1..] == p[1..] + q;
    }
  }

  lemma KeyStarts(p: string)
    requires ReadKey(p).Got?
    ensures p != "" && p[0] == QUOTE
  {
  }

  // No proper prefix of an object's text is a document.
  lemma TornObject(fields: Fields, k: nat)
    requires k < |Write(Obj(fields))|
    ensures Parse(Write(Obj(fields))[..k]) == None
  {
    hide Write, ReadJson;
    var whole := Write(Obj(fields));
    var p, q := whole[..k], whole[k..];
    assert p + q == whole && whole + "" == whole;
    if ReadJson(p).Got? && ReadJson(p).rest == "" {
      ObjectsStart(fields, k);
      JsonExtends(p, q);
      WriteReads(Obj(fields), "");
    }
  }

  lemma ObjectsStart(fields: Fields, k: nat)
    requires k <= |Write(Obj(fields))|
    requires ReadJson(Write(Obj(fields))[..k]).Got?
    ensures !ReadJson(Write(Obj(fields))[..k]).value.Num?
  {
  }

  // ---- a document is one line ----

  lemma {:induction false} CharsOneLine(s: string)
    ensures NEWLINE !in WriteChars(s)
  {
    if s != "" {
      CharsOneLine(s[1..]);
    }
  }

  lemma {:induction false} OneLine(j: Json)
    ensures NEWLINE !in Write(j)
    decreases j
  {
    match j
    case Num(text) => assert !InNumeral(NEWLINE);
    case Str(s) => CharsOneLine(s);
    case Arr(items) => ItemsOneLine(items);
    case Obj(fields) => FieldsOneLine(fields);
    case _ =>
  }

  lemma {:induction false} ItemsOneLine(items: Items)
    ensures NEWLINE !in WriteItems(items)
    decreases items
  {
    match items
    case NoItem =>
    case Item(j, more) =>
      OneLine(j);
      ItemsOneLine(more);
  }

  lemma {:induction false} FieldsOneLine(fields: Fields)
    ensures NEWLINE !in WriteFields(fields)
    decreases fields
  {
    match fields
    case NoField =>
    case Field(k, j, more) =>
      CharsOneLine(k);
      OneLine(j);
      FieldsOneLine(more);
  }

  lemma ObjectNotBlank(fields: Fields)
    ensures !Blank(Write(Obj(fields)))
  {
    assert Write(Obj(fields))[0] == '{' && !IsSpace('{');
  }

  // ---- a parsed object's properties ----

  // The value under a key; the last one if a key is repeated.
  function Property(fields: Fields, key: string): Option<Json> {
    match fields
    case NoField => None
    case Field(k, v, others) =>
      var later := Property(others, key);
      if later.Some? then later else if k == key then Some(v) else None
  }

  lemma PropertyStep()
    ensures forall k, v, others, key ::
      Property(Field(k, v, others), key) ==
        if Property(others, key).Some? then Property(others, key) else if k == key then Some(v) else None
  {
  }

  // ---- integers as numerals ----

  function Digits(n: nat): (s: string)
    ensures s != "" && forall c <- s :: IsDigit(c)
  {
    if n < 10 then [HexDigit(n)] else Digits(n / 10) + [HexDigit(n % 10)]
  }

  function IntText(n: int): Numeral {
    if n < 0 then "-" + Digits(-n) else Digits(n)
  }

  function DigitsValue(s: string): Option<nat>
    decreases |s|
  {
    if s == "" then Some(0)
    else
      var tens := DigitsValue(s[..|s| - 1]);
      if tens.None? || !IsDigit(s[|s| - 1]) then None
      else Some(tens.value * 10 + (s[|s| - 1] as int - 48))
  }

  function IntValue(text: Numeral): Option<int> {
    if text[0] == '-' then
      var v := DigitsValue(text[1..]);
      if v.Some? then Some(0 - v.value) else None
    else
      var v := DigitsValue(text);
      if v.Some? then Some(v.value) else None
  }

  lemma {:induction false} DigitsRoundTrip(n: nat)
    ensures DigitsValue(Digits(n)) == Some(n)
  {
    if n < 10 {
      assert Digits(n)[..0] == "";
    } else {
      DigitsRoundTrip(n / 10);
      assert Digits(n)[..|Digits(n)| - 1] == Digits(n / 10);
    }
  }

  // The numeral of an integer is its decimal digits without leading zeros, after a minus sign if it is negative.
  lemma IntForm(n: int)
    requires n >= 0
    ensures forall c <- IntText(n) :: IsDigit(c)
    ensures n > 0 ==> IntText(n)[0] != '0' && IntText(-n) == "-" + IntText(n)
    ensures IntText(0) == "0"
  {
    NoLeadingZero(n);
  }

  lemma {:induction false} NoLeadingZero(n: nat)
    ensures n > 0 ==> Digits(n)[0] != '0'
  {
    if n >= 10 {
      NoLeadingZero(n / 10);
    }
  }

  lemma IntRoundTrip(n: int)
    ensures IntValue(IntText(n)) == Some(n)
  {
    hide Digits, DigitsValue;
    if n < 0 {
      DigitsRoundTrip(-n);
      assert IntText(n)[1..] == Digits(-n);
    } else {
      DigitsRoundTrip(n);
      assert IsDigit(Digits(n)[0]);
    }
  }
}
