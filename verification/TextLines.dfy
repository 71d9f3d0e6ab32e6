// Splitting text into lines and joining lines into text, as split('\n') and join('\n') do.
module TextLines {
  const NEWLINE: char := '\n'

  // text.split('\n')
  function Split(text: string): (lines: seq<string>)
    ensures |lines| >= 1
  {
    if text == "" then [""]
    else if text[0] == NEWLINE then [""] + Split(text[1..])
    else
      var lines := Split(text[1..]);
      [[text[0]] + lines[0]] + lines[1..]
  }

  lemma {:induction false} SplitLast(line: string)
    requires NEWLINE !in line
    ensures Split(line) == [line]
  {
    if line != "" {
      SplitLast(line[1..]);
      assert [line[0]] + line[1..] == line;
    }
  }

  lemma {:induction false} SplitLine(line: string, text: string)
    requires NEWLINE !in line
    ensures Split(line + [NEWLINE] + text) == [line] + Split(text)
  {
    var all := line + [NEWLINE] + text;
    if line == "" {
      assert all[1..] == text;
    } else {
      assert all[1..] == line[1..] + [NEWLINE] + text;
      SplitLine(line[1..], text);
      assert [line[0]] + line[1..] == line;
    }
  }

  // What String.prototype.trim removes.
  predicate IsSpace(c: char) {
    var n := c as int;
    || 9 <= n <= 13 || n == 32 || n == 0xA0 || n == 0x1680 || 0x2000 <= n <= 0x200A
    || n == 0x2028 || n == 0x2029 || n == 0x202F || n == 0x205F || n == 0x3000 || n == 0xFEFF
  }

  // The white space and line terminators of ECMAScript, one by one.
  lemma SpacesAre(c: char)
    ensures IsSpace(c) <==> c in {
      '\U{9}', '\U{A}', '\U{B}', '\U{C}', '\U{D}', '\U{20}', '\U{A0}', '\U{1680}', '\U{2000}', '\U{2001}', '\U{2002}',
      '\U{2003}', '\U{2004}', '\U{2005}', '\U{2006}', '\U{2007}', '\U{2008}', '\U{2009}', '\U{200A}', '\U{2028}',
      '\U{2029}', '\U{202F}', '\U{205F}', '\U{3000}', '\U{FEFF}'}
  {
  }

  predicate Blank(line: string) {
    forall c <- line :: IsSpace(c)
  }

  // lines.join('\n')
  function Join(lines: seq<string>): string {
    if lines == [] then ""
    else if |lines| == 1 then lines[0]
    else lines[0] + [NEWLINE] + Join(lines[1..])
  }

  lemma {:induction false} SplitJoin(lines: seq<string>)
    requires lines != [] && forall l <- lines :: NEWLINE !in l
    ensures Split(Join(lines)) == lines
  {
    if |lines| == 1 {
      SplitLast(lines[0]);
    } else {
      SplitLine(lines[0], Join(lines[1..]));
      SplitJoin(lines[1..]);
    }
  }
}
